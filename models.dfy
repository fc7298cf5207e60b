/** games/models.py: the records of the commerce side of the catalog and the
    game-access token lifecycle (GameToken, the token helpers of Entitlement,
    Subscription.is_active), over an in-memory store of rows.

    The clock is a parameter (`now`), SHA-256 is an abstract injective function
    (`Store.hash`) and `secrets.token_urlsafe` is a fresh-value oracle (`RawToken`
    of a counter that only grows). */
module Models {
  import opened Common

  type UserId = nat
  type GameId = nat
  type PlanId = nat
  /** Seconds on the server clock. */
  type Time = int
  /** The `(user, game)` pair that GameToken and Entitlement are each unique on. */
  type Key = (UserId, GameId)

  // ---------------------------------------------------------------------------
  // Records

  datatype TokenStatus = Active | Expired | Revoked

  datatype GameToken = GameToken(
    user: UserId, game: GameId,
    token: string, tokenHash: string,
    status: TokenStatus,
    createdAt: Time, expiresAt: Option<Time>, lastUsedAt: Option<Time>,
    usageCount: nat)

  /** The GameToken table; keying it by `(user, game)` is the `unique_together` constraint. */
  type TokenTable = map<Key, GameToken>

  /** An Entitlement row (its user and game are its key in the store). */
  datatype Entitlement = Entitlement(
    purchase: Option<nat>, subscription: Option<nat>, isPerpetual: bool, grantedAt: Time)

  datatype PurchaseStatus = PurchasePending | PurchaseCompleted | PurchaseFailed | PurchaseCancelled

  /** Amounts are integer cents. */
  datatype Purchase = Purchase(user: UserId, game: GameId, amount: nat, status: PurchaseStatus)

  datatype SubscriptionStatus = SubActive | SubCancelled | SubExpired

  datatype Subscription = Subscription(
    user: UserId, plan: PlanId, status: SubscriptionStatus,
    startDate: Time, currentPeriodEnd: Time, cancelledAt: Option<Time>)

  datatype SessionStatus = Pending | Completed | Failed | Cancelled

  /** A PaymentSession; `game` and `plan` are nullable foreign keys. */
  datatype PaymentSession = PaymentSession(
    user: UserId, game: Option<GameId>, plan: Option<PlanId>, amount: nat,
    status: SessionStatus, createdAt: Time, completedAt: Option<Time>)

  datatype CatalogGame = CatalogGame(title: string, price: nat, isActive: bool)

  datatype CatalogPlan = CatalogPlan(name: string, price: nat, isActive: bool, games: set<GameId>)

  /** `Subscription.is_active`: active status and a period that ends strictly after now. */
  predicate SubscriptionIsActive(s: Subscription, now: Time) {
    s.status == SubActive && s.currentPeriodEnd > now
  }

  /** `game_id` as it arrives with a token to check. JSON numbers and booleans are
      integers here (Python compares `True == 1`); any other value never equals an id
      and only counts through its truthiness. */
  datatype GameIdArg = NoGameId | GameIdNum(n: int) | GameIdOther(truthy: bool)

  // ---------------------------------------------------------------------------
  // Abstract secrets and hashes

  ghost predicate Injective(f: string -> string) {
    forall a, b :: f(a) == f(b) ==> a == b
  }

  /** The secret that the token generator hands out on its n-th call. */
  function RawToken(n: nat): string {
    "tok-" + NatToString(n)
  }

  lemma RawTokenInjective(a: nat, b: nat)
    requires RawToken(a) == RawToken(b)
    ensures a == b
  {
    assert NatToString(a) == RawToken(a)[4..];
    assert NatToString(b) == RawToken(b)[4..];
    NatToStringInjective(a, b);
  }

  /** No secret handed out from the n-th call on equals `s`. */
  ghost predicate NotIssuedFrom(s: string, n: nat) {
    forall m: nat :: m >= n ==> s != RawToken(m)
  }

  // ---------------------------------------------------------------------------
  // The token table as values: what each operation does to it

  /** `GameToken.save` on a new row: the secret and its hash are set once; the row
      starts active, unused and without expiry. */
  function NewToken(user: UserId, game: GameId, raw: string, digest: string, now: Time): GameToken {
    GameToken(user, game, raw, digest, Active, now, None, None, 0)
  }

  ghost predicate DistinctHashes(tokens: TokenTable) {
    forall k1, k2 | k1 in tokens && k2 in tokens && k1 != k2 :: tokens[k1].tokenHash != tokens[k2].tokenHash
  }

  /** The row that `filter(token_hash=h, status='active')` selects. */
  predicate ActiveWithHash(tokens: TokenTable, k: Key, h: string) {
    k in tokens && tokens[k].tokenHash == h && tokens[k].status == Active
  }

  /** `objects.get(token_hash=h, status='active')`, or None for DoesNotExist. */
  ghost function FindActive(tokens: TokenTable, h: string): (r: Option<Key>)
    ensures r.Some? ==> ActiveWithHash(tokens, r.value, h)
    ensures r.None? ==> forall k :: !ActiveWithHash(tokens, k, h)
  {
    if exists k :: ActiveWithHash(tokens, k, h) then
      var k :| k in tokens && ActiveWithHash(tokens, k, h); Some(k)
    else None
  }

  lemma FindActiveUnique(tokens: TokenTable, k: Key, h: string)
    requires DistinctHashes(tokens) && ActiveWithHash(tokens, k, h)
    ensures FindActive(tokens, h) == Some(k)
  {
  }

  /** `timezone.now() > expires_at`. */
  predicate PastExpiry(t: GameToken, now: Time) {
    t.expiresAt.Some? && now > t.expiresAt.value
  }

  /** `not game_id or token.game.id == game_id`. */
  predicate GameMatches(arg: GameIdArg, game: GameId) {
    match arg
    case NoGameId => true
    case GameIdNum(n) => n == 0 || n == game
    case GameIdOther(truthy) => !truthy
  }

  /** `GameToken.mark_as_used`. */
  function MarkUsed(t: GameToken, now: Time): GameToken {
    t.(lastUsedAt := Some(now), usageCount := t.usageCount + 1)
  }

  /** `GameToken.revoke` on row k. */
  function RevokeRow(tokens: TokenTable, k: Key): TokenTable
    requires k in tokens
  {
    tokens[k := tokens[k].(status := Revoked)]
  }

  datatype Validation = Validation(tokens: TokenTable, granted: Option<Key>)

  /** `GameToken.validate_token` on the hash of the presented secret. */
  ghost function Validate(tokens: TokenTable, h: string, arg: GameIdArg, now: Time): (v: Validation)
    ensures v.granted.Some? ==> v.granted.value in v.tokens
  {
    match FindActive(tokens, h)
    case None => Validation(tokens, None)
    case Some(k) =>
      if PastExpiry(tokens[k], now) then Validation(tokens[k := tokens[k].(status := Expired)], None)
      else if !GameMatches(arg, k.1) then Validation(tokens, None)
      else Validation(tokens[k := MarkUsed(tokens[k], now)], Some(k))
  }

  /** Validation succeeds exactly when an active row carries the hash, has not
      passed its expiry, and belongs to the requested game (if one was given). */
  lemma ValidateSucceedsIff(tokens: TokenTable, h: string, arg: GameIdArg, now: Time)
    requires DistinctHashes(tokens)
    ensures Validate(tokens, h, arg, now).granted.Some? <==>
            exists k :: ActiveWithHash(tokens, k, h) && !PastExpiry(tokens[k], now) && GameMatches(arg, k.1)
  {
    if k :| ActiveWithHash(tokens, k, h) && !PastExpiry(tokens[k], now) && GameMatches(arg, k.1) {
      FindActiveUnique(tokens, k, h);
    }
  }

  /** A successful validation counts exactly one use of the granted row and
      touches nothing else. */
  lemma ValidateSuccessCountsOneUse(tokens: TokenTable, h: string, arg: GameIdArg, now: Time)
    ensures var v := Validate(tokens, h, arg, now);
            v.granted.Some? ==>
              var k := v.granted.value;
              && ActiveWithHash(tokens, k, h) && GameMatches(arg, k.1)
              && v.tokens.Keys == tokens.Keys
              && v.tokens[k].usageCount == tokens[k].usageCount + 1
              && v.tokens[k].lastUsedAt == Some(now)
              && v.tokens[k].status == Active
              && (forall k' | k' in tokens && k' != k :: v.tokens[k'] == tokens[k'])
  {
  }

  /** A failed validation never counts a use; its only possible effect is to mark
      the matching active row expired once its expiry has passed. */
  lemma ValidateFailureLeavesUsage(tokens: TokenTable, h: string, arg: GameIdArg, now: Time)
    ensures var v := Validate(tokens, h, arg, now);
            v.granted.None? ==>
              && v.tokens.Keys == tokens.Keys
              && forall k | k in tokens ::
                   && v.tokens[k].usageCount == tokens[k].usageCount
                   && v.tokens[k].lastUsedAt == tokens[k].lastUsedAt
                   && (v.tokens[k] == tokens[k] ||
                       (ActiveWithHash(tokens, k, h) && PastExpiry(tokens[k], now) &&
                        v.tokens[k] == tokens[k].(status := Expired)))
  {
  }

  /** What no operation on the table undoes: rows are never removed, a row's secret
      and hash never change after it is saved, a row that left the active state
      never returns to it, and a revoked row stays revoked. */
  ghost predicate Evolves(t0: TokenTable, t1: TokenTable) {
    forall k | k in t0 ::
      && k in t1
      && t1[k].token == t0[k].token && t1[k].tokenHash == t0[k].tokenHash
      && (t0[k].status != Active ==> t1[k].status != Active)
      && (t0[k].status == Revoked ==> t1[k].status == Revoked)
  }

  /** Once revoked, a secret never validates again, in any later state of the
      table, and the attempt changes nothing. */
  lemma RevokedNeverValidates(t0: TokenTable, t1: TokenTable, k: Key, arg: GameIdArg, now: Time)
    requires k in t0 && t0[k].status == Revoked
    requires Evolves(t0, t1) && DistinctHashes(t1)
    ensures Validate(t1, t0[k].tokenHash, arg, now) == Validation(t1, None)
  {
  }

  datatype Issuance = Issuance(tokens: TokenTable, token: Option<GameToken>)

  /** `Entitlement.create_game_token` for pair k with the row `row` that a new
      save would insert: the existing active row if any; otherwise an insert, which
      the `(user, game)` constraint refuses when a revoked or expired row holds k. */
  function Issue(tokens: TokenTable, k: Key, row: GameToken): Issuance {
    if k in tokens && tokens[k].status == Active then Issuance(tokens, Some(tokens[k]))
    else if k in tokens then Issuance(tokens, None)
    else Issuance(tokens[k := row], Some(row))
  }

  /** Issuing twice for the same pair hands out the same token the second time and
      inserts nothing. */
  lemma IssueIsIdempotent(tokens: TokenTable, k: Key, row1: GameToken, row2: GameToken)
    requires row1.status == Active
    ensures var first := Issue(tokens, k, row1);
            first.token.Some? ==> Issue(first.tokens, k, row2) == first
  {
  }

  /** After a revoke, no token can be issued again for that pair. */
  lemma IssueAfterRevokeFails(tokens: TokenTable, k: Key, row: GameToken)
    requires k in tokens
    ensures Issue(RevokeRow(tokens, k), k, row) == Issuance(RevokeRow(tokens, k), None)
  {
  }

  /** What a successful `validate_token` hands back. */
  datatype Access = Access(user: UserId, game: GameId, entitlement: Entitlement, token: GameToken)

  // ---------------------------------------------------------------------------
  // The store

  /** Every row is stored under its own pair, carries the hash of its secret, holds
      a secret not handed out yet from call `serial` on, and no two rows share a
      secret (the `unique=True` on `token`). */
  ghost predicate TokensValid(hash: string -> string, serial: nat, tokens: TokenTable) {
    && (forall k | k in tokens ::
          tokens[k].user == k.0 && tokens[k].game == k.1 &&
          tokens[k].tokenHash == hash(tokens[k].token) &&
          NotIssuedFrom(tokens[k].token, serial))
    && (forall k1, k2 | k1 in tokens && k2 in tokens && k1 != k2 :: tokens[k1].token != tokens[k2].token)
  }

  lemma TokensValidLater(hash: string -> string, serial: nat, later: nat, tokens: TokenTable)
    requires TokensValid(hash, serial, tokens) && serial <= later
    ensures TokensValid(hash, later, tokens)
  {
  }

  /** Saving new values into a row's status and usage columns keeps the table
      valid, and it evolves as long as the row does not become active again or
      leave the revoked state. */
  lemma RewriteRow(hash: string -> string, serial: nat, tokens: TokenTable, k: Key, t: GameToken)
    requires TokensValid(hash, serial, tokens) && k in tokens
    requires t.user == tokens[k].user && t.game == tokens[k].game
    requires t.token == tokens[k].token && t.tokenHash == tokens[k].tokenHash
    requires tokens[k].status != Active ==> t.status != Active
    requires tokens[k].status == Revoked ==> t.status == Revoked
    ensures tokens[k := t].Keys == tokens.Keys
    ensures TokensValid(hash, serial, tokens[k := t])
    ensures Evolves(tokens, tokens[k := t])
  {
    var t1 := tokens[k := t];
    assert forall k1 | k1 in t1 :: t1[k1].token == tokens[k1].token;
  }

  /** Inserting a row for a new pair with the next secret keeps the table valid
      once the secret counter moves past that secret. */
  lemma InsertFresh(hash: string -> string, serial: nat, tokens: TokenTable, k: Key, row: GameToken)
    requires TokensValid(hash, serial, tokens) && k !in tokens
    requires row.user == k.0 && row.game == k.1
    requires row.token == RawToken(serial) && row.tokenHash == hash(row.token)
    ensures tokens[k := row].Keys == tokens.Keys + {k}
    ensures TokensValid(hash, serial + 1, tokens[k := row])
    ensures Evolves(tokens, tokens[k := row])
  {
    forall m: nat | m >= serial + 1 ensures row.token != RawToken(m) {
      if row.token == RawToken(m) { RawTokenInjective(serial, m); }
    }
    forall k1 | k1 in tokens ensures tokens[k1].token != row.token {
      assert NotIssuedFrom(tokens[k1].token, serial);
    }
  }

  /** A token's entitlement exists (the cascading foreign key), and an
      entitlement's subscription exists. */
  predicate EntitlementsValid(tokenKeys: set<Key>, entitlements: map<Key, Entitlement>, subscriptionCount: nat) {
    && tokenKeys <= entitlements.Keys
    && (forall k | k in entitlements && entitlements[k].subscription.Some? ::
          entitlements[k].subscription.value < subscriptionCount)
  }

  /** The game or plan a session refers to exists. */
  predicate SessionValid(games: map<GameId, CatalogGame>, plans: map<PlanId, CatalogPlan>, ss: PaymentSession) {
    (ss.game.Some? ==> ss.game.value in games) && (ss.plan.Some? ==> ss.plan.value in plans)
  }

  predicate SessionsValid(games: map<GameId, CatalogGame>, plans: map<PlanId, CatalogPlan>, sessions: seq<PaymentSession>) {
    forall i | 0 <= i < |sessions| :: SessionValid(games, plans, sessions[i])
  }

  /** The rows a transaction can undo, as they were when it began. */
  datatype Snapshot = Snapshot(
    serial: nat, tokens: TokenTable, entitlements: map<Key, Entitlement>,
    purchases: seq<Purchase>, subscriptions: seq<Subscription>, sessions: seq<PaymentSession>)

  class Store {
    /** SHA-256 as an abstract injective function. */
    const hash: string -> string
    /** Number of secrets handed out so far. */
    var serial: nat
    var tokens: TokenTable
    var entitlements: map<Key, Entitlement>
    var games: map<GameId, CatalogGame>
    var plans: map<PlanId, CatalogPlan>
    /** Purchases, subscriptions and payment sessions, identified by position. */
    var purchases: seq<Purchase>
    var subscriptions: seq<Subscription>
    var sessions: seq<PaymentSession>

    ghost predicate Valid()
      reads this
    {
      && Injective(hash)
      && TokensValid(hash, serial, tokens)
      && EntitlementsValid(tokens.Keys, entitlements, |subscriptions|)
      && SessionsValid(games, plans, sessions)
      && (forall p | p in plans :: plans[p].games <= games.Keys)
    }

    /** The snapshot can be restored into a valid store. */
    ghost predicate Restorable(snap: Snapshot)
      reads this
    {
      && snap.serial <= serial
      && TokensValid(hash, snap.serial, snap.tokens)
      && EntitlementsValid(snap.tokens.Keys, snap.entitlements, |snap.subscriptions|)
      && SessionsValid(games, plans, snap.sessions)
    }

    lemma ValidHashesDistinct()
      requires Valid()
      ensures DistinctHashes(tokens)
    {
    }

    constructor (hash: string -> string, games: map<GameId, CatalogGame>, plans: map<PlanId, CatalogPlan>)
      requires Injective(hash)
      requires forall p | p in plans :: plans[p].games <= games.Keys
      ensures Valid()
      ensures this.hash == hash && this.games == games && this.plans == plans
      ensures tokens == map[] && entitlements == map[] && serial == 0
      ensures purchases == [] && subscriptions == [] && sessions == []
    {
      this.hash := hash;
      this.games := games;
      this.plans := plans;
      serial := 0;
      tokens := map[];
      entitlements := map[];
      purchases := [];
      subscriptions := [];
      sessions := [];
    }

    /** The start of `transaction.atomic()`. */
    method Begin() returns (snap: Snapshot)
      requires Valid()
      ensures snap == Snapshot(serial, tokens, entitlements, purchases, subscriptions, sessions)
      ensures Restorable(snap)
    {
      snap := Snapshot(serial, tokens, entitlements, purchases, subscriptions, sessions);
    }

    /** The rollback of `transaction.atomic()` when an exception leaves the block.
        The secret generator is not rolled back. */
    method Rollback(snap: Snapshot)
      requires Valid() && Restorable(snap)
      modifies this`tokens, this`entitlements, this`purchases, this`subscriptions, this`sessions
      ensures Valid()
      ensures tokens == snap.tokens && entitlements == snap.entitlements && purchases == snap.purchases
      ensures subscriptions == snap.subscriptions && sessions == snap.sessions
    {
      TokensValidLater(hash, snap.serial, serial, snap.tokens);
      tokens, entitlements, purchases, subscriptions, sessions :=
        snap.tokens, snap.entitlements, snap.purchases, snap.subscriptions, snap.sessions;
    }

    /** `PaymentSession.save()`. */
    method SaveSession(i: nat, ss: PaymentSession)
      requires Valid() && i < |sessions| && SessionValid(games, plans, ss)
      modifies this`sessions
      ensures Valid()
      ensures sessions == old(sessions)[i := ss]
    {
      sessions := sessions[i := ss];
    }

    /** `PaymentSession.objects.create(...)`: the new session's id is its position. */
    method CreateSession(ss: PaymentSession) returns (id: nat)
      requires Valid() && SessionValid(games, plans, ss)
      modifies this`sessions
      ensures Valid()
      ensures id == |old(sessions)| && sessions == old(sessions) + [ss]
    {
      id := |sessions|;
      sessions := sessions + [ss];
    }

    /** `Purchase.objects.create(...)`. */
    method CreatePurchase(p: Purchase) returns (id: nat)
      requires Valid()
      modifies this`purchases
      ensures Valid()
      ensures id == |old(purchases)| && purchases == old(purchases) + [p]
    {
      id := |purchases|;
      purchases := purchases + [p];
    }

    /** `Subscription.objects.create(...)`. */
    method CreateSubscription(sub: Subscription) returns (id: nat)
      requires Valid()
      modifies this`subscriptions
      ensures Valid()
      ensures id == |old(subscriptions)| && subscriptions == old(subscriptions) + [sub]
    {
      id := |subscriptions|;
      subscriptions := subscriptions + [sub];
    }

    /** `Subscription.save()`. */
    method SaveSubscription(i: nat, sub: Subscription)
      requires Valid() && i < |subscriptions|
      modifies this`subscriptions
      ensures Valid()
      ensures subscriptions == old(subscriptions)[i := sub]
    {
      subscriptions := subscriptions[i := sub];
    }

    /** `Entitlement.objects.create(...)` for a pair that has none: the
        `(user, game)` constraint is the caller's check. */
    method CreateEntitlement(k: Key, e: Entitlement)
      requires Valid() && k !in entitlements
      requires e.subscription.Some? ==> e.subscription.value < |subscriptions|
      modifies this`entitlements
      ensures Valid()
      ensures entitlements == old(entitlements)[k := e]
    {
      entitlements := entitlements[k := e];
    }

    /** `Entitlement.get_active_token`. */
    function ActiveToken(user: UserId, game: GameId): Option<GameToken>
      reads this
    {
      if (user, game) in tokens && tokens[(user, game)].status == Active
      then Some(tokens[(user, game)]) else None
    }

    /** `Entitlement.create_game_token` on the pair's entitlement. */
    method CreateGameToken(user: UserId, game: GameId, now: Time) returns (r: Option<GameToken>)
      requires Valid()
      requires (user, game) in entitlements
      modifies this`tokens, this`serial
      ensures Valid()
      ensures Issuance(tokens, r) ==
              Issue(old(tokens), (user, game),
                    NewToken(user, game, RawToken(old(serial)), hash(RawToken(old(serial))), now))
      ensures Evolves(old(tokens), tokens)
      ensures serial >= old(serial)
    {
      var k := (user, game);
      if k in tokens && tokens[k].status == Active {
        return Some(tokens[k]);
      }
      var raw := RawToken(serial);
      var row := NewToken(user, game, raw, hash(raw), now);
      if k in tokens {
        // the insert violates unique (user, game); the exception becomes None
        TokensValidLater(hash, serial, serial + 1, tokens);
        serial := serial + 1;
        return None;
      }
      InsertFresh(hash, serial, tokens, k, row);
      tokens := tokens[k := row];
      serial := serial + 1;
      r := Some(row);
    }

    /** `GameToken.revoke`: from any status to revoked. */
    method Revoke(k: Key)
      requires Valid() && k in tokens
      modifies this`tokens
      ensures Valid()
      ensures tokens == RevokeRow(old(tokens), k)
      ensures Evolves(old(tokens), tokens)
    {
      RewriteRow(hash, serial, tokens, k, tokens[k].(status := Revoked));
      tokens := tokens[k := tokens[k].(status := Revoked)];
    }

    /** `Entitlement.revoke_token`: true exactly when the pair had an active token,
        which is then revoked. */
    method RevokeToken(user: UserId, game: GameId) returns (b: bool)
      requires Valid()
      modifies this`tokens
      ensures Valid()
      ensures b <==> old(ActiveToken(user, game)).Some?
      ensures tokens == if b then RevokeRow(old(tokens), (user, game)) else old(tokens)
      ensures b ==> tokens[(user, game)].status == Revoked
      ensures Evolves(old(tokens), tokens)
    {
      var t := ActiveToken(user, game);
      if t.Some? {
        Revoke((user, game));
        return true;
      }
      return false;
    }

    /** `GameToken.is_valid`: an active row past its expiry is marked expired. */
    method IsValid(k: Key, now: Time) returns (b: bool)
      requires Valid() && k in tokens
      modifies this`tokens
      ensures Valid()
      ensures b <==> old(tokens[k]).status == Active && !PastExpiry(old(tokens[k]), now)
      ensures tokens == if old(tokens[k]).status == Active && PastExpiry(old(tokens[k]), now)
                        then old(tokens)[k := old(tokens[k]).(status := Expired)]
                        else old(tokens)
      ensures Evolves(old(tokens), tokens)
    {
      if tokens[k].status != Active {
        return false;
      }
      if tokens[k].expiresAt.Some? && now > tokens[k].expiresAt.value {
        RewriteRow(hash, serial, tokens, k, tokens[k].(status := Expired));
        tokens := tokens[k := tokens[k].(status := Expired)];
        return false;
      }
      return true;
    }

    /** `GameToken.mark_as_used`. */
    method MarkAsUsed(k: Key, now: Time)
      requires Valid() && k in tokens
      modifies this`tokens
      ensures Valid()
      ensures tokens == old(tokens)[k := MarkUsed(old(tokens[k]), now)]
      ensures Evolves(old(tokens), tokens)
    {
      RewriteRow(hash, serial, tokens, k, MarkUsed(tokens[k], now));
      tokens := tokens[k := MarkUsed(tokens[k], now)];
    }

    /** `GameToken.validate_token(raw, game_id)`. */
    method ValidateToken(raw: string, arg: GameIdArg, now: Time) returns (r: Option<Access>)
      requires Valid()
      modifies this`tokens
      ensures Valid()
      ensures Validation(tokens, if r.Some? then Some((r.value.user, r.value.game)) else None)
              == Validate(old(tokens), hash(raw), arg, now)
      ensures r.Some? ==> (r.value.user, r.value.game) in tokens
      ensures r.Some? ==> r.value.token == tokens[(r.value.user, r.value.game)]
      ensures r.Some? ==> r.value.entitlement == entitlements[(r.value.user, r.value.game)]
      ensures Evolves(old(tokens), tokens)
    {
      var h := hash(raw);
      ValidHashesDistinct();
      if !exists k | k in tokens :: ActiveWithHash(tokens, k, h) {
        return None;
      }
      var k :| k in tokens && ActiveWithHash(tokens, k, h);
      FindActiveUnique(tokens, k, h);
      var ok := IsValid(k, now);
      if !ok {
        return None;
      }
      if !GameMatches(arg, k.1) {
        return None;
      }
      MarkAsUsed(k, now);
      r := Some(Access(k.0, k.1, entitlements[k], tokens[k]));
    }
  }
}
