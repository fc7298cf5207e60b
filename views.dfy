/** games/views.py: the handlers that change the commerce state. Checkout opens
    a pending payment session, the simulated payment closes it and grants
    entitlements and tokens inside one transaction, and the token API validates
    and revokes access tokens. Each handler is a method over the Store; its
    response is the redirect, 404, 500 or JSON status the view returns. */
module Views {
  import opened Common
  import opened Models

  /** `timedelta(days=30)` in seconds. */
  const SubscriptionPeriod: int := 30 * 24 * 60 * 60

  datatype Page =
    | Home | Library | GameDetail(game: GameId) | PlanDetail(plan: PlanId)
    | PaymentPage(session: nat) | PurchaseConfirmation(session: nat)

  /** What an HTML view answers: a 404 page, an unhandled exception (500) or a redirect. */
  datatype Response = NotFound | ServerError | Redirect(page: Page)

  // ---------------------------------------------------------------------------
  // Helpers shared by the contracts

  /** `get_object_or_404(PaymentSession, session_id=sid, user=user)` finds the row. */
  predicate Owns(sessions: seq<PaymentSession>, sid: nat, user: UserId) {
    sid < |sessions| && sessions[sid].user == user
  }

  /** The session closed with the given status at `now`. */
  function Close(ss: PaymentSession, status: SessionStatus, now: Time): PaymentSession {
    ss.(status := status, completedAt := Some(now))
  }

  /** `plan.games.filter(is_active=True)`. */
  function ActivePlanGames(games: map<GameId, CatalogGame>, plan: CatalogPlan): set<GameId> {
    set g | g in plan.games && g in games && games[g].isActive
  }

  function PairKeys(user: UserId, gs: set<GameId>): set<Key> {
    set g | g in gs :: (user, g)
  }

  /** One entitlement row `e` for each of the user's games in `gs`. */
  function Grants(user: UserId, gs: set<GameId>, e: Entitlement): map<Key, Entitlement> {
    map k | k in PairKeys(user, gs) :: e
  }

  lemma GrantsGrow(m: map<Key, Entitlement>, user: UserId, gs: set<GameId>, g: GameId, e: Entitlement)
    ensures PairKeys(user, gs + {g}) == PairKeys(user, gs) + {(user, g)}
    ensures (m + Grants(user, gs, e))[(user, g) := e] == m + Grants(user, gs + {g}, e)
  {
    var lhs, rhs := (m + Grants(user, gs, e))[(user, g) := e], m + Grants(user, gs + {g}, e);
    assert PairKeys(user, gs + {g}) == PairKeys(user, gs) + {(user, g)};
    assert lhs.Keys == rhs.Keys;
    forall k | k in lhs ensures lhs[k] == rhs[k] {
    }
  }

  lemma TokensGrow(t0: TokenTable, t1: TokenTable, t2: TokenTable, keys: set<Key>, k: Key, now: Time)
    requires GrantsTokens(t0, t1, keys, now) && GrantsTokens(t1, t2, {k}, now)
    ensures GrantsTokens(t0, t2, keys + {k}, now)
  {
  }

  /** Issuing new rows leaves every existing row as it was. */
  lemma GrantsTokensEvolves(t0: TokenTable, t1: TokenTable, keys: set<Key>, now: Time)
    requires GrantsTokens(t0, t1, keys, now)
    ensures Evolves(t0, t1)
  {
  }

  /** Row `t` was issued at `now` for pair k: active, unused, without expiry. */
  predicate IssuedNow(t: GameToken, k: Key, now: Time) {
    t.user == k.0 && t.game == k.1 && t.status == Active && t.createdAt == now &&
    t.expiresAt.None? && t.lastUsedAt.None? && t.usageCount == 0
  }

  /** `t1` is `t0` plus one row issued now for each pair in `keys`, none of which had a row. */
  ghost predicate GrantsTokens(t0: TokenTable, t1: TokenTable, keys: set<Key>, now: Time) {
    && t1.Keys == t0.Keys + keys
    && (forall k | k in t0 :: t1[k] == t0[k])
    && (forall k | k in keys :: k !in t0 && IssuedNow(t1[k], k, now))
  }

  /** No database row changed (the secret generator may still have advanced). */
  twostate predicate DbUnchanged(s: Store)
    reads s
  {
    && s.tokens == old(s.tokens) && s.entitlements == old(s.entitlements)
    && s.purchases == old(s.purchases) && s.subscriptions == old(s.subscriptions)
    && s.sessions == old(s.sessions)
  }

  // ---------------------------------------------------------------------------
  // Checkout

  /** `checkout_game`: a pending session for the game's price, unless the game is
      not on sale or the user already holds it. */
  method CheckoutGame(s: Store, user: UserId, game: GameId, now: Time) returns (resp: Response)
    requires s.Valid()
    modifies s`sessions
    ensures s.Valid()
    ensures !(game in s.games && s.games[game].isActive) ==> resp == NotFound && s.sessions == old(s.sessions)
    ensures game in s.games && s.games[game].isActive && (user, game) in s.entitlements ==>
              resp == Redirect(GameDetail(game)) && s.sessions == old(s.sessions)
    ensures game in s.games && s.games[game].isActive && (user, game) !in s.entitlements ==>
              && resp == Redirect(PaymentPage(|old(s.sessions)|))
              && s.sessions == old(s.sessions) +
                   [PaymentSession(user, Some(game), None, s.games[game].price, Pending, now, None)]
  {
    if !(game in s.games && s.games[game].isActive) {
      return NotFound;
    }
    if (user, game) in s.entitlements {
      return Redirect(GameDetail(game));
    }
    var id := s.CreateSession(PaymentSession(user, Some(game), None, s.games[game].price, Pending, now, None));
    resp := Redirect(PaymentPage(id));
  }

  /** The user has a subscription to the plan that `Subscription.is_active` accepts. */
  predicate HasActiveSubscription(subs: seq<Subscription>, user: UserId, plan: PlanId, now: Time) {
    exists i | 0 <= i < |subs| :: subs[i].user == user && subs[i].plan == plan && SubscriptionIsActive(subs[i], now)
  }

  /** `checkout_plan`: a pending session for the plan's price, unless the plan is
      not on sale or the user already has a live subscription to it. */
  method CheckoutPlan(s: Store, user: UserId, plan: PlanId, now: Time) returns (resp: Response)
    requires s.Valid()
    modifies s`sessions
    ensures s.Valid()
    ensures !(plan in s.plans && s.plans[plan].isActive) ==> resp == NotFound && s.sessions == old(s.sessions)
    ensures plan in s.plans && s.plans[plan].isActive && HasActiveSubscription(s.subscriptions, user, plan, now) ==>
              resp == Redirect(PlanDetail(plan)) && s.sessions == old(s.sessions)
    ensures plan in s.plans && s.plans[plan].isActive && !HasActiveSubscription(s.subscriptions, user, plan, now) ==>
              && resp == Redirect(PaymentPage(|old(s.sessions)|))
              && s.sessions == old(s.sessions) +
                   [PaymentSession(user, None, Some(plan), s.plans[plan].price, Pending, now, None)]
  {
    if !(plan in s.plans && s.plans[plan].isActive) {
      return NotFound;
    }
    if exists i | 0 <= i < |s.subscriptions| ::
         s.subscriptions[i].user == user && s.subscriptions[i].plan == plan &&
         SubscriptionIsActive(s.subscriptions[i], now) {
      return Redirect(PlanDetail(plan));
    }
    var id := s.CreateSession(PaymentSession(user, None, Some(plan), s.plans[plan].price, Pending, now, None));
    resp := Redirect(PaymentPage(id));
  }

  // ---------------------------------------------------------------------------
  // Simulated payment

  /** The entitlement a plan payment grants for each game of the plan. */
  function PlanEntitlement(subscription: nat, now: Time): Entitlement {
    Entitlement(None, Some(subscription), false, now)
  }

  /** What the game branch of a successful payment leaves behind: on a conflict
      nothing; otherwise the completed session, a completed purchase for the
      session's amount, a perpetual entitlement and a token for the game. */
  twostate predicate GamePaid(s: Store, user: UserId, sid: nat, ss: PaymentSession, now: Time, resp: Response)
    requires ss.game.Some? && sid < |old(s.sessions)|
    reads s
  {
    var k := (user, ss.game.value);
    if k in old(s.entitlements) then resp == ServerError && DbUnchanged(s)
    else
      && resp == Redirect(PurchaseConfirmation(sid))
      && s.sessions == old(s.sessions)[sid := Close(ss, Completed, now)]
      && s.purchases == old(s.purchases) + [Purchase(user, ss.game.value, ss.amount, PurchaseCompleted)]
      && s.entitlements == old(s.entitlements)[k := Entitlement(Some(|old(s.purchases)|), None, true, now)]
      && s.subscriptions == old(s.subscriptions)
      && GrantsTokens(old(s.tokens), s.tokens, {k}, now)
  }

  /** What the plan branch leaves behind: on a conflict nothing; otherwise the
      completed session, a 30-day active subscription, and one entitlement tied
      to it and one token for every active game of the plan. */
  twostate predicate PlanPaid(s: Store, user: UserId, sid: nat, ss: PaymentSession, now: Time, resp: Response)
    requires ss.plan.Some? && ss.plan.value in s.plans && sid < |old(s.sessions)|
    reads s
  {
    var gs := ActivePlanGames(s.games, s.plans[ss.plan.value]);
    if exists g | g in gs :: (user, g) in old(s.entitlements) then resp == ServerError && DbUnchanged(s)
    else
      && resp == Redirect(PurchaseConfirmation(sid))
      && s.sessions == old(s.sessions)[sid := Close(ss, Completed, now)]
      && s.subscriptions == old(s.subscriptions) +
           [Subscription(user, ss.plan.value, SubActive, now, now + SubscriptionPeriod, None)]
      && s.entitlements == old(s.entitlements) + Grants(user, gs, PlanEntitlement(|old(s.subscriptions)|, now))
      && s.purchases == old(s.purchases)
      && GrantsTokens(old(s.tokens), s.tokens, PairKeys(user, gs), now)
  }

  /** The game branch of `simulate_payment_success`, inside its transaction. */
  method PayForGame(s: Store, user: UserId, sid: nat, now: Time) returns (resp: Response)
    requires s.Valid() && Owns(s.sessions, sid, user)
    requires s.sessions[sid].status == Pending && s.sessions[sid].game.Some?
    modifies s`tokens, s`serial, s`entitlements, s`purchases, s`subscriptions, s`sessions
    ensures s.Valid()
    ensures Evolves(old(s.tokens), s.tokens)
    ensures GamePaid(s, user, sid, old(s.sessions[sid]), now, resp)
  {
    var ss := s.sessions[sid];
    var snap := s.Begin();
    s.SaveSession(sid, Close(ss, Completed, now));
    var k := (user, ss.game.value);
    var purchase := s.CreatePurchase(Purchase(user, ss.game.value, ss.amount, PurchaseCompleted));
    if k in s.entitlements {
      // IntegrityError on the (user, game) constraint
      s.Rollback(snap);
      return ServerError;
    }
    GrantOne(s, k, Entitlement(Some(purchase), None, true, now), now);
    return Redirect(PurchaseConfirmation(sid));
  }

  /** One entitlement `e` for pair k and the token `create_game_token` issues for it. */
  method GrantOne(s: Store, k: Key, e: Entitlement, now: Time)
    requires s.Valid() && k !in s.entitlements
    requires e.subscription.Some? ==> e.subscription.value < |s.subscriptions|
    modifies s`tokens, s`serial, s`entitlements
    ensures s.Valid()
    ensures s.entitlements == old(s.entitlements)[k := e]
    ensures GrantsTokens(old(s.tokens), s.tokens, {k}, now)
    ensures Evolves(old(s.tokens), s.tokens)
    ensures s.serial >= old(s.serial)
  {
    s.CreateEntitlement(k, e);
    var t := s.CreateGameToken(k.0, k.1, now);
  }

  /** The loop over the plan's games: each gets entitlement `e` and a token. A
      game the user already holds raises IntegrityError, which stops the loop
      (false) and leaves the undoing to the enclosing transaction. */
  method GrantPlanGames(s: Store, user: UserId, gs: set<GameId>, e: Entitlement, now: Time) returns (ok: bool)
    requires s.Valid()
    requires e.subscription.Some? ==> e.subscription.value < |s.subscriptions|
    modifies s`tokens, s`serial, s`entitlements
    ensures s.Valid()
    ensures s.serial >= old(s.serial)
    ensures Evolves(old(s.tokens), s.tokens)
    ensures ok <==> forall g | g in gs :: (user, g) !in old(s.entitlements)
    ensures ok ==> && s.entitlements == old(s.entitlements) + Grants(user, gs, e)
                   && GrantsTokens(old(s.tokens), s.tokens, PairKeys(user, gs), now)
  {
    ghost var tokens0, entitlements0 := s.tokens, s.entitlements;
    var remaining, done := gs, {};
    while remaining != {}
      invariant s.Valid()
      invariant s.serial >= old(s.serial)
      invariant done + remaining == gs && done !! remaining
      invariant forall g | g in done :: (user, g) !in entitlements0
      invariant s.entitlements == entitlements0 + Grants(user, done, e)
      invariant GrantsTokens(tokens0, s.tokens, PairKeys(user, done), now)
      decreases remaining
    {
      var g :| g in remaining;
      var k := (user, g);
      if k in s.entitlements {
        GrantsTokensEvolves(tokens0, s.tokens, PairKeys(user, done), now);
        return false;
      }
      ghost var before := s.tokens;
      GrantOne(s, k, e, now);
      GrantsGrow(entitlements0, user, done, g, e);
      TokensGrow(tokens0, before, s.tokens, PairKeys(user, done), k, now);
      remaining, done := remaining - {g}, done + {g};
    }
    GrantsTokensEvolves(tokens0, s.tokens, PairKeys(user, done), now);
    return true;
  }

  /** The plan branch of `simulate_payment_success`, inside its transaction; the
      plan's games are taken in whatever order the database returns them. */
  method PayForPlan(s: Store, user: UserId, sid: nat, now: Time) returns (resp: Response)
    requires s.Valid() && Owns(s.sessions, sid, user)
    requires s.sessions[sid].status == Pending && s.sessions[sid].plan.Some?
    modifies s`tokens, s`serial, s`entitlements, s`purchases, s`subscriptions, s`sessions
    ensures s.Valid()
    ensures Evolves(old(s.tokens), s.tokens)
    ensures old(s.sessions[sid]).plan.value in s.plans
    ensures PlanPaid(s, user, sid, old(s.sessions[sid]), now, resp)
  {
    var ss := s.sessions[sid];
    var snap := s.Begin();
    s.SaveSession(sid, Close(ss, Completed, now));
    var subId := s.CreateSubscription(Subscription(user, ss.plan.value, SubActive, now, now + SubscriptionPeriod, None));
    var gs := ActivePlanGames(s.games, s.plans[ss.plan.value]);
    var ok := GrantPlanGames(s, user, gs, PlanEntitlement(subId, now), now);
    if !ok {
      // IntegrityError on the (user, game) constraint
      s.Rollback(snap);
      return ServerError;
    }
    return Redirect(PurchaseConfirmation(sid));
  }

  /** `simulate_payment_success`: only the user's own pending session is paid; a
      session with both a game and a plan takes the game branch, and one with
      neither is just completed. */
  method SimulatePaymentSuccess(s: Store, user: UserId, sid: nat, now: Time) returns (resp: Response)
    requires s.Valid()
    modifies s`tokens, s`serial, s`entitlements, s`purchases, s`subscriptions, s`sessions
    ensures s.Valid()
    ensures Evolves(old(s.tokens), s.tokens)
    ensures !Owns(old(s.sessions), sid, user) ==> resp == NotFound && DbUnchanged(s)
    ensures Owns(old(s.sessions), sid, user) && old(s.sessions[sid]).status != Pending ==>
              resp == Redirect(Home) && DbUnchanged(s)
    ensures Owns(old(s.sessions), sid, user) && old(s.sessions[sid]).status == Pending ==>
              var ss := old(s.sessions[sid]);
              if ss.game.Some? then GamePaid(s, user, sid, ss, now, resp)
              else if ss.plan.Some? then ss.plan.value in s.plans && PlanPaid(s, user, sid, ss, now, resp)
              else
                && resp == Redirect(Library)
                && s.sessions == old(s.sessions)[sid := Close(ss, Completed, now)]
                && s.tokens == old(s.tokens) && s.entitlements == old(s.entitlements)
                && s.purchases == old(s.purchases) && s.subscriptions == old(s.subscriptions)
  {
    if !Owns(s.sessions, sid, user) {
      return NotFound;
    }
    var ss := s.sessions[sid];
    if ss.status != Pending {
      return Redirect(Home);
    }
    if ss.game.Some? {
      resp := PayForGame(s, user, sid, now);
    } else if ss.plan.Some? {
      resp := PayForPlan(s, user, sid, now);
    } else {
      s.SaveSession(sid, Close(ss, Completed, now));
      resp := Redirect(Library);
    }
  }

  /** `simulate_payment_failure`: a pending session becomes failed. With neither a
      game nor a plan the view dereferences the missing plan after saving and
      fails with a 500. */
  method SimulatePaymentFailure(s: Store, user: UserId, sid: nat, now: Time) returns (resp: Response)
    requires s.Valid()
    modifies s`sessions
    ensures s.Valid()
    ensures !Owns(old(s.sessions), sid, user) ==> resp == NotFound && s.sessions == old(s.sessions)
    ensures Owns(old(s.sessions), sid, user) && old(s.sessions[sid]).status != Pending ==>
              resp == Redirect(Home) && s.sessions == old(s.sessions)
    ensures Owns(old(s.sessions), sid, user) && old(s.sessions[sid]).status == Pending ==>
              var ss := old(s.sessions[sid]);
              && s.sessions == old(s.sessions)[sid := Close(ss, Failed, now)]
              && resp == (if ss.game.Some? then Redirect(GameDetail(ss.game.value))
                          else if ss.plan.Some? then Redirect(PlanDetail(ss.plan.value))
                          else ServerError)
  {
    if !Owns(s.sessions, sid, user) {
      return NotFound;
    }
    var ss := s.sessions[sid];
    if ss.status != Pending {
      return Redirect(Home);
    }
    s.SaveSession(sid, Close(ss, Failed, now));
    if ss.game.Some? {
      resp := Redirect(GameDetail(ss.game.value));
    } else if ss.plan.Some? {
      resp := Redirect(PlanDetail(ss.plan.value));
    } else {
      resp := ServerError;
    }
  }

  /** `cancel_subscription`: only the user's own active subscription; the period
      end and the entitlements stay as they are. */
  method CancelSubscription(s: Store, user: UserId, id: nat, now: Time) returns (resp: Response)
    requires s.Valid()
    modifies s`subscriptions
    ensures s.Valid()
    ensures |s.subscriptions| == |old(s.subscriptions)|
    ensures !(id < |old(s.subscriptions)| && old(s.subscriptions[id]).user == user &&
              old(s.subscriptions[id]).status == SubActive) ==>
              resp == NotFound && s.subscriptions == old(s.subscriptions)
    ensures id < |old(s.subscriptions)| && old(s.subscriptions[id]).user == user &&
            old(s.subscriptions[id]).status == SubActive ==>
              && resp == Redirect(Library)
              && s.subscriptions == old(s.subscriptions)[id := old(s.subscriptions[id]).(status := SubCancelled, cancelledAt := Some(now))]
  {
    if !(id < |s.subscriptions| && s.subscriptions[id].user == user && s.subscriptions[id].status == SubActive) {
      return NotFound;
    }
    s.SaveSubscription(id, s.subscriptions[id].(status := SubCancelled, cancelledAt := Some(now)));
    resp := Redirect(Library);
  }

  // ---------------------------------------------------------------------------
  // Token API

  /** `data.get('token')`: missing, a string, or another JSON value of the given truthiness. */
  datatype TokenArg = NoToken | TokenStr(raw: string) | TokenOther(truthy: bool)

  /** The request body: not JSON at all, JSON that is not an object, or an object. */
  datatype ApiBody = MalformedJson | NotAnObject | JsonObject(token: TokenArg, gameId: GameIdArg)

  datatype ApiReply = ApiReply(status: nat, access: Option<Access>)

  /** `not token`. */
  predicate Falsy(t: TokenArg) {
    t == NoToken || t == TokenStr("") || t == TokenOther(false)
  }

  /** `api_validate_token`: 400 for unreadable JSON or a missing token, 500 when
      the body or the token has the wrong type, 401 when validation fails and 200
      with the granted access otherwise. */
  method ApiValidateToken(s: Store, body: ApiBody, now: Time) returns (reply: ApiReply)
    requires s.Valid()
    modifies s`tokens
    ensures s.Valid()
    ensures Evolves(old(s.tokens), s.tokens)
    ensures body == MalformedJson ==> reply == ApiReply(400, None) && s.tokens == old(s.tokens)
    ensures body == NotAnObject ==> reply == ApiReply(500, None) && s.tokens == old(s.tokens)
    ensures body.JsonObject? && Falsy(body.token) ==> reply == ApiReply(400, None) && s.tokens == old(s.tokens)
    ensures body.JsonObject? && body.token.TokenOther? && body.token.truthy ==>
              reply == ApiReply(500, None) && s.tokens == old(s.tokens)
    ensures body.JsonObject? && body.token.TokenStr? && body.token.raw != "" ==>
              var v := Validate(old(s.tokens), s.hash(body.token.raw), body.gameId, now);
              && s.tokens == v.tokens
              && (v.granted.None? ==> reply == ApiReply(401, None))
              && (v.granted.Some? ==>
                    && reply.status == 200 && reply.access.Some?
                    && (reply.access.value.user, reply.access.value.game) == v.granted.value
                    && reply.access.value.token == s.tokens[v.granted.value])
  {
    match body
    case MalformedJson => return ApiReply(400, None);
    case NotAnObject => return ApiReply(500, None);
    case JsonObject(token, gameId) =>
      if Falsy(token) {
        return ApiReply(400, None);
      }
      match token
      case TokenOther(_) => return ApiReply(500, None);
      case TokenStr(raw) =>
        var r := s.ValidateToken(raw, gameId, now);
        if r.None? {
          return ApiReply(401, None);
        }
        return ApiReply(200, r);
  }

  /** `api_revoke_token`: the active row holding the secret's hash is revoked (200);
      with no such row, 404. Malformed bodies answer as in `api_validate_token`. */
  method ApiRevokeToken(s: Store, body: ApiBody) returns (status: nat)
    requires s.Valid()
    modifies s`tokens
    ensures s.Valid()
    ensures Evolves(old(s.tokens), s.tokens)
    ensures body == MalformedJson ==> status == 400 && s.tokens == old(s.tokens)
    ensures body == NotAnObject ==> status == 500 && s.tokens == old(s.tokens)
    ensures body.JsonObject? && Falsy(body.token) ==> status == 400 && s.tokens == old(s.tokens)
    ensures body.JsonObject? && body.token.TokenOther? && body.token.truthy ==>
              status == 500 && s.tokens == old(s.tokens)
    ensures body.JsonObject? && body.token.TokenStr? && body.token.raw != "" ==>
              match FindActive(old(s.tokens), s.hash(body.token.raw))
              case None => status == 404 && s.tokens == old(s.tokens)
              case Some(k) => status == 200 && s.tokens == RevokeRow(old(s.tokens), k)
  {
    match body
    case MalformedJson => return 400;
    case NotAnObject => return 500;
    case JsonObject(token, _) =>
      if Falsy(token) {
        return 400;
      }
      match token
      case TokenOther(_) => return 500;
      case TokenStr(raw) =>
        var h := s.hash(raw);
        s.ValidHashesDistinct();
        if !exists k | k in s.tokens :: ActiveWithHash(s.tokens, k, h) {
          return 404;
        }
        var k :| k in s.tokens && ActiveWithHash(s.tokens, k, h);
        FindActiveUnique(s.tokens, k, h);
        s.Revoke(k);
        return 200;
  }
}
