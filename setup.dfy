/** games/management/commands/setup_data.py: seeds the ten categories, tags
    every game with up to three of them by keyword, and creates one plan per
    console plus the Basic and Premium plans. Prices are in cents. */
module SetupData {
  import opened Common

  // ---------------------------------------------------------------------------
  // Rows

  datatype CategoryData = CategoryData(name: string, description: string, color: string, icon: string)

  /** A `Category` row, keyed by its unique name. */
  datatype CategoryRow = CategoryRow(description: string, color: string, icon: string)

  datatype GameRow = GameRow(title: string, description: string, console: string, isActive: bool,
                             categories: set<string>)

  /** A plan description: which of the command's templates, filled with which values. */
  datatype PlanText = ConsoleText(console: string, count: nat) | BasicText(count: nat) | PremiumText(count: nat)

  /** A `Plan` row, keyed by name; `games` is the many-to-many set of game indices. */
  datatype PlanRow = PlanRow(description: PlanText, price: nat, isActive: bool, games: set<nat>)

  // ---------------------------------------------------------------------------
  // Categories

  /** `categories_data` of `create_categories`, in order. */
  const CategoriesData: seq<CategoryData> := [
    CategoryData("Ação", "Jogos de ação com combate e aventura", "#ff6b35", "fas fa-sword"),
    CategoryData("Aventura", "Jogos de exploração e descoberta", "#00d4ff", "fas fa-compass"),
    CategoryData("RPG", "Role-playing games com progressão de personagem", "#8b5cf6", "fas fa-dice-d20"),
    CategoryData("Plataforma", "Jogos de pulo e movimento em plataformas", "#00ff88", "fas fa-running"),
    CategoryData("Luta", "Jogos de combate corpo a corpo", "#ff0080", "fas fa-fist-raised"),
    CategoryData("Estratégia", "Jogos de planejamento e tática", "#ffa500", "fas fa-chess"),
    CategoryData("Puzzle", "Jogos de quebra-cabeça e lógica", "#9c27b0", "fas fa-puzzle-piece"),
    CategoryData("Esporte", "Jogos esportivos e de competição", "#4caf50", "fas fa-trophy"),
    CategoryData("Corrida", "Jogos de velocidade e corrida", "#f44336", "fas fa-car"),
    CategoryData("Tiro", "Jogos de tiro e combate com armas", "#795548", "fas fa-crosshairs")
  ]

  function RowOf(d: CategoryData): CategoryRow {
    CategoryRow(d.description, d.color, d.icon)
  }

  /** The category table after `get_or_create` on each of `data` in turn: a
      missing name is created, an existing one is overwritten only under force. */
  function Seeded(cats: map<string, CategoryRow>, data: seq<CategoryData>, force: bool): map<string, CategoryRow> {
    if data == [] then cats
    else
      var before, d := Seeded(cats, data[..|data| - 1], force), data[|data| - 1];
      if d.name !in before || force then before[d.name := RowOf(d)] else before
  }

  /** Seeding adds exactly the seeded names. */
  lemma {:induction false} SeededKeys(cats: map<string, CategoryRow>, data: seq<CategoryData>, force: bool)
    ensures Seeded(cats, data, force).Keys == cats.Keys + set d | d in data :: d.name
  {
    if data != [] {
      var init, d := data[..|data| - 1], data[|data| - 1];
      SeededKeys(cats, init, force);
      assert data == init + [d];
      assert (set x | x in data :: x.name) == (set x | x in init :: x.name) + {d.name};
    }
  }

  /** Without force every existing category keeps its row. */
  lemma {:induction false} SeededKeeps(cats: map<string, CategoryRow>, data: seq<CategoryData>)
    ensures forall n | n in cats :: n in Seeded(cats, data, false) && Seeded(cats, data, false)[n] == cats[n]
  {
    if data != [] {
      SeededKeeps(cats, data[..|data| - 1]);
    }
  }

  /** With force every seeded category ends with the command's row (the last
      one given for its name). */
  lemma {:induction false} SeededForced(cats: map<string, CategoryRow>, data: seq<CategoryData>)
    ensures forall i | 0 <= i < |data| && (forall j | i < j < |data| :: data[j].name != data[i].name) ::
              data[i].name in Seeded(cats, data, true) && Seeded(cats, data, true)[data[i].name] == RowOf(data[i])
  {
    if data != [] {
      var init := data[..|data| - 1];
      SeededForced(cats, init);
      forall i | 0 <= i < |data| && (forall j | i < j < |data| :: data[j].name != data[i].name)
        ensures data[i].name in Seeded(cats, data, true) && Seeded(cats, data, true)[data[i].name] == RowOf(data[i])
      {
        if i < |init| {
          assert init[i] == data[i];
          assert forall j | i < j < |init| :: init[j] == data[j];
        }
      }
    }
  }

  /** `category_keywords` of `assign_categories_to_games`, in declaration order. */
  datatype KeywordEntry = KeywordEntry(name: string, keywords: seq<string>)

  const CategoryKeywords: seq<KeywordEntry> := [
    KeywordEntry("Ação", ["mario", "sonic", "mega man", "metal slug", "streets of rage", "doom", "castlevania"]),
    KeywordEntry("Aventura", ["zelda", "metroid", "chrono trigger", "final fantasy"]),
    KeywordEntry("RPG", ["final fantasy", "chrono trigger", "zelda"]),
    KeywordEntry("Plataforma", ["mario", "sonic", "mega man", "donkey kong", "metroid"]),
    KeywordEntry("Luta", ["street fighter", "tekken"]),
    KeywordEntry("Estratégia", ["advance wars"]),
    KeywordEntry("Puzzle", ["tetris", "pac-man"]),
    KeywordEntry("Esporte", ["tony hawk"]),
    KeywordEntry("Corrida", ["sonic"]),
    KeywordEntry("Tiro", ["doom", "metal slug"])
  ]

  predicate DistinctNames(entries: seq<KeywordEntry>) {
    forall i, j | 0 <= i < j < |entries| :: entries[i].name != entries[j].name
  }

  /** `f"{game.title} {game.description}".lower()`. */
  function GameText(g: GameRow): string {
    ToLower(g.title + " " + g.description)
  }

  /** Some keyword occurs in the text. */
  predicate AnyIn(text: string, keywords: seq<string>) {
    exists k | k in keywords :: Contains(text, k)
  }

  lemma AnyInSnoc(text: string, keywords: seq<string>, i: nat)
    requires i < |keywords|
    ensures AnyIn(text, keywords[..i + 1]) <==> AnyIn(text, keywords[..i]) || Contains(text, keywords[i])
  {
    assert keywords[..i + 1] == keywords[..i] + [keywords[i]];
  }

  /** Category `e` is attached: one of its keywords occurs in the text and the category exists. */
  predicate Hits(e: KeywordEntry, text: string, existing: set<string>) {
    e.name in existing && AnyIn(text, e.keywords)
  }

  /** The categories the keyword loops collect, in declaration order. */
  function Matched(entries: seq<KeywordEntry>, text: string, existing: set<string>): (r: seq<string>)
    ensures forall n :: n in r <==> exists i | 0 <= i < |entries| :: entries[i].name == n && Hits(entries[i], text, existing)
  {
    if entries == [] then []
    else
      var init, e := entries[..|entries| - 1], entries[|entries| - 1];
      assert forall i | 0 <= i < |init| :: init[i] == entries[i];
      Matched(init, text, existing) + if Hits(e, text, existing) then [e.name] else []
  }

  /** `x` is declared before `y` in `entries`. */
  ghost predicate DeclaredBefore(entries: seq<KeywordEntry>, x: string, y: string) {
    exists i, j | 0 <= i < j < |entries| :: entries[i].name == x && entries[j].name == y
  }

  /** Each earlier name of `r` is declared before each later one in `entries`. */
  ghost predicate InDeclarationOrder(entries: seq<KeywordEntry>, r: seq<string>) {
    forall a, b | 0 <= a < b < |r| :: DeclaredBefore(entries, r[a], r[b])
  }

  /** With distinct names, the collected categories keep the order in which
      `category_keywords` declares them (so none repeats). */
  lemma {:induction false} MatchedOrdered(entries: seq<KeywordEntry>, text: string, existing: set<string>)
    requires DistinctNames(entries)
    ensures InDeclarationOrder(entries, Matched(entries, text, existing))
  {
    if entries != [] {
      var init, e := entries[..|entries| - 1], entries[|entries| - 1];
      var r, m := Matched(entries, text, existing), Matched(init, text, existing);
      MatchedOrdered(init, text, existing);
      forall a, b | 0 <= a < b < |r|
        ensures DeclaredBefore(entries, r[a], r[b])
      {
        if b < |m| {
          assert r[a] == m[a] && r[b] == m[b] && DeclaredBefore(init, m[a], m[b]);
          var i, j :| 0 <= i < j < |init| && init[i].name == m[a] && init[j].name == m[b];
          assert entries[i] == init[i] && entries[j] == init[j];
        } else {
          assert r[a] == m[a] && r[a] in m;
          var i :| 0 <= i < |init| && init[i].name == r[a] && Hits(init[i], text, existing);
          assert entries[i] == init[i] && entries[|entries| - 1].name == r[b];
        }
      }
      assert InDeclarationOrder(entries, r);
    }
  }

  /** No category is attached twice. */
  lemma {:induction false} MatchedDistinct(entries: seq<KeywordEntry>, text: string, existing: set<string>)
    requires DistinctNames(entries)
    ensures forall a, b | 0 <= a < b < |Matched(entries, text, existing)| ::
              Matched(entries, text, existing)[a] != Matched(entries, text, existing)[b]
  {
    MatchedOrdered(entries, text, existing);
  }

  /** Nothing collected means no entry was hit. */
  lemma MatchedNone(entries: seq<KeywordEntry>, text: string, existing: set<string>)
    requires Matched(entries, text, existing) == []
    ensures forall i | 0 <= i < |entries| :: !Hits(entries[i], text, existing)
  {
    forall i | 0 <= i < |entries| ensures !Hits(entries[i], text, existing) {
      assert entries[i].name !in Matched(entries, text, existing);
    }
  }

  /** The fallback when nothing matched, tried in the source's order. Each
      branch asks for its categories; a missing one attaches nothing. */
  function Fallback(text: string, existing: set<string>): seq<string> {
    if Contains(text, "mario") || Contains(text, "sonic") then
      if "Ação" in existing && "Plataforma" in existing then ["Ação", "Plataforma"] else []
    else if Contains(text, "zelda") || Contains(text, "metroid") then
      if "Aventura" in existing then ["Aventura"] else []
    else if Contains(text, "final fantasy") || Contains(text, "chrono") then
      if "RPG" in existing then ["RPG"] else []
    else if "Ação" in existing then ["Ação"] else []
  }

  /** `game_categories[:3]` after the keyword loops and the fallback. */
  function Chosen(text: string, existing: set<string>): (r: seq<string>)
    ensures |r| <= 3
    ensures Matched(CategoryKeywords, text, existing) != [] ==>
              |r| <= |Matched(CategoryKeywords, text, existing)| && r == Matched(CategoryKeywords, text, existing)[..|r|]
    ensures Matched(CategoryKeywords, text, existing) != [] ==>
              |r| == if |Matched(CategoryKeywords, text, existing)| < 3 then |Matched(CategoryKeywords, text, existing)| else 3
    ensures Matched(CategoryKeywords, text, existing) == [] ==> r == Fallback(text, existing)
  {
    var all := Matched(CategoryKeywords, text, existing);
    var picked := if all != [] then all else Fallback(text, existing);
    if |picked| <= 3 then picked else picked[..3]
  }

  /** Once every category exists (as `create_categories` guarantees before it
      assigns), the fallback branches for mario, sonic, zelda, metroid and final
      fantasy can no longer run: nothing matched means only 'chrono' gives RPG
      and every other text gives Ação, so every game ends up categorised. */
  lemma NoMatchFallback(text: string, existing: set<string>)
    requires forall e | e in CategoryKeywords :: e.name in existing
    requires Matched(CategoryKeywords, text, existing) == []
    ensures Chosen(text, existing) == if Contains(text, "chrono") then ["RPG"] else ["Ação"]
  {
    var kw := CategoryKeywords;
    MatchedNone(kw, text, existing);
    var action, adventure, rpg := kw[0], kw[1], kw[2];
    assert action in kw && adventure in kw && rpg in kw;
    Missed(action, text, existing, 0);
    Missed(action, text, existing, 1);
    Missed(adventure, text, existing, 0);
    Missed(adventure, text, existing, 1);
    Missed(adventure, text, existing, 3);
    FallbackAllPresent(text, existing);
  }

  /** A category that exists and was not hit has none of its keywords in the text. */
  lemma Missed(e: KeywordEntry, text: string, existing: set<string>, j: nat)
    requires e.name in existing && !Hits(e, text, existing) && j < |e.keywords|
    ensures !Contains(text, e.keywords[j])
  {
    assert e.keywords[j] in e.keywords;
  }

  /** The fallback chain when the first three branches' keywords are absent
      and Ação and RPG exist. */
  lemma FallbackAllPresent(text: string, existing: set<string>)
    requires "Ação" in existing && "RPG" in existing
    requires !Contains(text, "mario") && !Contains(text, "sonic")
    requires !Contains(text, "zelda") && !Contains(text, "metroid") && !Contains(text, "final fantasy")
    ensures Fallback(text, existing) == if Contains(text, "chrono") then ["RPG"] else ["Ação"]
  {
  }

  /** The nested keyword loops over `entries`: each category is appended on
      its first keyword that occurs, if it exists and is not yet listed. */
  method CollectMatched(entries: seq<KeywordEntry>, text: string, existing: set<string>) returns (cats: seq<string>)
    requires DistinctNames(entries)
    ensures cats == Matched(entries, text, existing)
  {
    cats := [];
    for ci := 0 to |entries|
      invariant cats == Matched(entries[..ci], text, existing)
    {
      var e := entries[ci];
      assert entries[..ci + 1][..ci] == entries[..ci];
      assert e.name !in cats by {
        forall i | 0 <= i < ci ensures entries[..ci][i].name != e.name {
          assert entries[..ci][i] == entries[i];
        }
      }
      ghost var before := cats;
      for ki := 0 to |e.keywords|
        invariant cats == before + if e.name in existing && AnyIn(text, e.keywords[..ki]) then [e.name] else []
      {
        AnyInSnoc(text, e.keywords, ki);
        if Contains(text, e.keywords[ki]) {
          if e.name in existing && e.name !in cats {
            cats := cats + [e.name];
          }
        }
      }
      assert e.keywords[..|e.keywords|] == e.keywords;
    }
    assert entries[..|entries|] == entries;
  }

  lemma KeywordNamesDistinct()
    ensures DistinctNames(CategoryKeywords)
  {
  }

  /** One game's categories: the keyword loops, the fallback and the cut to three. */
  method ChooseCategories(text: string, existing: set<string>) returns (cats: seq<string>)
    ensures cats == Chosen(text, existing)
  {
    KeywordNamesDistinct();
    cats := CollectMatched(CategoryKeywords, text, existing);
    if cats == [] {
      if Contains(text, "mario") || Contains(text, "sonic") {
        if "Ação" in existing && "Plataforma" in existing {
          cats := ["Ação", "Plataforma"];
        }
      } else if Contains(text, "zelda") || Contains(text, "metroid") {
        if "Aventura" in existing {
          cats := ["Aventura"];
        }
      } else if Contains(text, "final fantasy") || Contains(text, "chrono") {
        if "RPG" in existing {
          cats := ["RPG"];
        }
      } else if "Ação" in existing {
        cats := ["Ação"];
      }
    }
    if |cats| > 3 {
      cats := cats[..3];
    }
  }

  /** The game after assignment: the chosen set, or its old set when nothing was chosen. */
  function Assigned(g: GameRow, existing: set<string>): GameRow {
    var cs := Chosen(GameText(g), existing);
    if cs == [] then g else g.(categories := set c | c in cs)
  }

  lemma {:induction false} SetOfSeqSize(s: seq<string>)
    ensures |set c | c in s| <= |s|
  {
    if s != [] {
      var init := s[..|s| - 1];
      SetOfSeqSize(init);
      assert (set c | c in s) == (set c | c in init) + {s[|s| - 1]};
    }
  }

  /** With every category present, each game ends with one to three categories,
      all of which exist; otherwise a game with none chosen keeps its old set. */
  lemma AssignedCategories(g: GameRow, existing: set<string>)
    ensures Chosen(GameText(g), existing) == [] ==> Assigned(g, existing) == g
    ensures Chosen(GameText(g), existing) != [] ==>
              && 0 < |Assigned(g, existing).categories| <= 3
              && Assigned(g, existing).categories <= existing
    ensures (forall e | e in CategoryKeywords :: e.name in existing) ==> Chosen(GameText(g), existing) != []
  {
    var text := GameText(g);
    var cs := Chosen(text, existing);
    SetOfSeqSize(cs);
    if cs != [] {
      assert cs[0] in Assigned(g, existing).categories;
      var m := Matched(CategoryKeywords, text, existing);
      forall c | c in cs ensures c in existing {
        if m != [] {
          assert c in m;
        }
      }
    }
    if forall e | e in CategoryKeywords :: e.name in existing {
      if Matched(CategoryKeywords, text, existing) == [] {
        NoMatchFallback(text, existing);
      }
    }
  }

  // ---------------------------------------------------------------------------
  // Plans

  /** The text each template renders to. */
  function Render(t: PlanText): string {
    match t
    case ConsoleText(console, count) =>
      "Acesso completo a todos os jogos do console " + console + ". Inclui " + NatToString(count) +
      " jogos clássicos desta plataforma."
    case BasicText(count) =>
      "Acesso a jogos clássicos dos consoles dos anos 80 e 90. Inclui jogos do NES, Game Boy, GBA e Mega Drive. Total: " +
      NatToString(count) + " jogos."
    case PremiumText(count) =>
      "Acesso completo a todos os jogos da plataforma. Inclui jogos de todos os consoles disponíveis. Total: " +
      NatToString(count) + " jogos."
  }

  /** `console_prices`, in cents; any other console pays 12.90. */
  const ConsolePrices: map<string, nat> := map[
    "Arcade" := 1590, "GBA" := 1290, "Game Boy" := 990, "Mega Drive" := 1490, "NES" := 1190,
    "Neo Geo" := 1990, "PC" := 1690, "PlayStation" := 1890, "SNES" := 1390]

  const DefaultPrice: nat := 1290

  function PlanPrice(console: string): nat {
    if console in ConsolePrices then ConsolePrices[console] else DefaultPrice
  }

  /** `f'Plano {console}'`. */
  function PlanName(console: string): string {
    "Plano " + console
  }

  /** Different consoles never share a plan name. */
  lemma PlanNameInjective(a: string, b: string)
    ensures a != b ==> PlanName(a) != PlanName(b)
  {
    assert a == PlanName(a)[6..] && b == PlanName(b)[6..];
  }

  /** `Game.objects.values_list('console').distinct()`. */
  function Consoles(games: seq<GameRow>): set<string> {
    set i | 0 <= i < |games| :: games[i].console
  }

  /** `Game.objects.filter(console=console, is_active=True)`. */
  function ConsoleGames(games: seq<GameRow>, console: string): set<nat> {
    set i: nat | i < |games| && games[i].console == console && games[i].isActive
  }

  /** A plan looked up by name and rewritten: created when missing, refreshed
      under force, otherwise left alone. */
  function Refresh(current: Option<PlanRow>, description: PlanText, price: nat, gs: set<nat>, force: bool): PlanRow {
    match current
    case None => PlanRow(description, price, true, gs)
    case Some(p) => if force then p.(description := description, price := price, games := gs) else p
  }

  /** An existing plan changes only under force, and a new or refreshed plan
      holds exactly the given games at the given price; refreshing twice is
      refreshing once. */
  lemma RefreshRules(current: Option<PlanRow>, description: PlanText, price: nat, gs: set<nat>, force: bool)
    ensures current.Some? && !force ==> Refresh(current, description, price, gs, force) == current.value
    ensures current.None? || force ==>
              var p := Refresh(current, description, price, gs, force);
              p.games == gs && p.price == price && p.description == description &&
              p.isActive == (current.None? || current.value.isActive)
    ensures var p := Refresh(current, description, price, gs, force);
            Refresh(Some(p), description, price, gs, force) == p
  {
  }

  /** One console's turn in `create_console_plans`: the new value of `Plano {console}`. */
  function ConsolePlan(current: Option<PlanRow>, games: seq<GameRow>, force: bool, console: string): Option<PlanRow> {
    var gs := ConsoleGames(games, console);
    if |gs| == 0 then current
    else Some(Refresh(current, ConsoleText(console, |gs|), PlanPrice(console), gs, force))
  }

  /** A console without active games gets no plan; otherwise its plan exists,
      and once created or forced holds exactly its active games at its price.
      Running the step again, forced or not, changes nothing. */
  lemma ConsolePlanRules(current: Option<PlanRow>, games: seq<GameRow>, force: bool, console: string)
    ensures ConsoleGames(games, console) == {} ==> ConsolePlan(current, games, force, console) == current
    ensures ConsoleGames(games, console) != {} ==> ConsolePlan(current, games, force, console).Some?
    ensures ConsoleGames(games, console) != {} && (current.None? || force) ==>
              var p := ConsolePlan(current, games, force, console).value;
              p.games == ConsoleGames(games, console) && p.price == PlanPrice(console)
    ensures ConsolePlan(ConsolePlan(current, games, force, console), games, force, console) ==
            ConsolePlan(current, games, force, console)
  {
    var gs := ConsoleGames(games, console);
    RefreshRules(current, ConsoleText(console, |gs|), PlanPrice(console), gs, force);
  }

  function Lookup(plans: map<string, PlanRow>, name: string): Option<PlanRow> {
    if name in plans then Some(plans[name]) else None
  }

  /** The table with `name` set to `p`, or left alone when `p` is none. */
  function Put(plans: map<string, PlanRow>, name: string, p: Option<PlanRow>): map<string, PlanRow> {
    if p.Some? then plans[name := p.value] else plans
  }

  /** The plans of the consoles in `done` are as `ConsolePlan` says. */
  ghost predicate ConsolePlansSet(plans0: map<string, PlanRow>, plans: map<string, PlanRow>,
                                  games: seq<GameRow>, force: bool, done: set<string>) {
    forall c | c in done :: Lookup(plans, PlanName(c)) == ConsolePlan(Lookup(plans0, PlanName(c)), games, force, c)
  }

  /** Every other plan is as it was, and no other plan appeared. */
  ghost predicate OtherPlansKept(plans0: map<string, PlanRow>, plans: map<string, PlanRow>, done: set<string>) {
    && (forall n | n in plans0 && n !in PlanNames(done) :: n in plans && plans[n] == plans0[n])
    && plans.Keys <= plans0.Keys + PlanNames(done)
  }

  function PlanNames(consoles: set<string>): set<string> {
    set c | c in consoles :: PlanName(c)
  }

  ghost predicate ConsolePlansApplied(plans0: map<string, PlanRow>, plans: map<string, PlanRow>,
                                      games: seq<GameRow>, force: bool, done: set<string>) {
    ConsolePlansSet(plans0, plans, games, force, done) && OtherPlansKept(plans0, plans, done)
  }

  /** A console not yet handled has its plan where it was at the start. */
  lemma UntouchedPlan(p0: map<string, PlanRow>, p1: map<string, PlanRow>, done: set<string>, c: string)
    requires OtherPlansKept(p0, p1, done) && c !in done
    ensures PlanName(c) !in PlanNames(done)
    ensures Lookup(p1, PlanName(c)) == Lookup(p0, PlanName(c))
  {
    forall d | d in done ensures PlanName(c) != PlanName(d) {
      PlanNameInjective(c, d);
    }
  }

  lemma SetStep(p0: map<string, PlanRow>, p1: map<string, PlanRow>, p2: map<string, PlanRow>,
                games: seq<GameRow>, force: bool, done: set<string>, c: string, v: Option<PlanRow>)
    requires ConsolePlansSet(p0, p1, games, force, done) && c !in done
    requires v == ConsolePlan(Lookup(p0, PlanName(c)), games, force, c)
    requires p2 == Put(p1, PlanName(c), v) && (v.None? ==> PlanName(c) !in p1)
    ensures ConsolePlansSet(p0, p2, games, force, done + {c})
  {
    forall d | d in done ensures PlanName(c) != PlanName(d) {
      PlanNameInjective(c, d);
    }
  }

  lemma KeptStep(p0: map<string, PlanRow>, p1: map<string, PlanRow>, p2: map<string, PlanRow>,
                 done: set<string>, c: string, v: Option<PlanRow>)
    requires OtherPlansKept(p0, p1, done)
    requires p2 == Put(p1, PlanName(c), v)
    ensures OtherPlansKept(p0, p2, done + {c})
  {
    assert PlanNames(done + {c}) == PlanNames(done) + {PlanName(c)};
  }

  /** Without force, the console pass leaves every plan that already existed
      as it was. */
  lemma UnforcedKeepsPlans(p0: map<string, PlanRow>, p1: map<string, PlanRow>, games: seq<GameRow>, done: set<string>)
    requires ConsolePlansApplied(p0, p1, games, false, done)
    ensures forall n | n in p0 :: n in p1 && p1[n] == p0[n]
  {
    forall n | n in p0 ensures n in p1 && p1[n] == p0[n] {
      if n in PlanNames(done) {
        var c :| c in done && PlanName(c) == n;
        var gs := ConsoleGames(games, c);
        RefreshRules(Lookup(p0, n), ConsoleText(c, |gs|), PlanPrice(c), gs, false);
        assert Lookup(p1, n) == ConsolePlan(Lookup(p0, n), games, false, c);
      }
    }
  }

  /** Handling one more console keeps `ConsolePlansApplied`. */
  lemma ConsoleStep(p0: map<string, PlanRow>, p1: map<string, PlanRow>, p2: map<string, PlanRow>,
                    games: seq<GameRow>, force: bool, done: set<string>, c: string)
    requires ConsolePlansApplied(p0, p1, games, force, done) && c !in done
    requires p2 == Put(p1, PlanName(c), ConsolePlan(Lookup(p1, PlanName(c)), games, force, c))
    ensures ConsolePlansApplied(p0, p2, games, force, done + {c})
  {
    var v := ConsolePlan(Lookup(p1, PlanName(c)), games, force, c);
    UntouchedPlan(p0, p1, done, c);
    SetStep(p0, p1, p2, games, force, done, c, v);
    KeptStep(p0, p1, p2, done, c, v);
  }

  /** The body of `create_console_plans`' loop for one console: skip it
      without active games, else refresh its plan under force or create it. */
  method ConsoleTurn(plans: map<string, PlanRow>, games: seq<GameRow>, force: bool, console: string)
    returns (next: map<string, PlanRow>)
    ensures next == Put(plans, PlanName(console), ConsolePlan(Lookup(plans, PlanName(console)), games, force, console))
  {
    next := plans;
    var gs := ConsoleGames(games, console);
    var name := PlanName(console);
    if |gs| == 0 {
      if name in plans {
        assert plans == plans[name := plans[name]];
      }
      return;
    }
    var price := PlanPrice(console);
    if name in plans {
      if force {
        next := plans[name := plans[name].(description := ConsoleText(console, |gs|), price := price, games := gs)];
      } else {
        assert plans == plans[name := plans[name]];
      }
    } else {
      next := plans[name := PlanRow(ConsoleText(console, |gs|), price, true, gs)];
    }
  }

  /** The loop of `create_console_plans` over the distinct consoles (their
      order does not matter: each touches only its own plan). */
  method ConsolePlansPass(plans0: map<string, PlanRow>, games: seq<GameRow>, force: bool)
    returns (plans: map<string, PlanRow>)
    ensures ConsolePlansApplied(plans0, plans, games, force, Consoles(games))
  {
    plans := plans0;
    var consoles := Consoles(games);
    var remaining, done := consoles, {};
    while remaining != {}
      invariant done + remaining == consoles && done !! remaining
      invariant ConsolePlansApplied(plans0, plans, games, force, done)
      decreases remaining
    {
      var console :| console in remaining;
      ghost var before := plans;
      plans := ConsoleTurn(plans, games, force, console);
      ConsoleStep(plans0, before, plans, games, force, done, console);
      remaining, done := remaining - {console}, done + {console};
    }
  }

  // ---------------------------------------------------------------------------
  // General plans

  const BasicConsoles: set<string> := {"NES", "Game Boy", "GBA", "Mega Drive"}
  const BasicName: string := "Plano Básico"
  const PremiumName: string := "Plano Premium"
  const BasicPrice: nat := 1990
  const PremiumPrice: nat := 3990

  function BasicGames(games: seq<GameRow>): set<nat> {
    set i: nat | i < |games| && games[i].console in BasicConsoles && games[i].isActive
  }

  function ActiveGames(games: seq<GameRow>): set<nat> {
    set i: nat | i < |games| && games[i].isActive
  }

  /** `create_general_plans`' effect on the plan table. */
  function GeneralPlans(plans: map<string, PlanRow>, games: seq<GameRow>, force: bool): map<string, PlanRow> {
    var basic := Refresh(Lookup(plans, BasicName), BasicText(|BasicGames(games)|), BasicPrice, BasicGames(games), force);
    var premium := Refresh(Lookup(plans, PremiumName), PremiumText(|ActiveGames(games)|), PremiumPrice,
                           ActiveGames(games), force);
    plans[BasicName := basic][PremiumName := premium]
  }

  /** Both general plans exist afterwards, no other plan changes, and once
      created or forced Basic holds exactly the active games of the four
      classic consoles and Premium every active game. */
  lemma GeneralPlansRules(plans: map<string, PlanRow>, games: seq<GameRow>, force: bool)
    ensures var r := GeneralPlans(plans, games, force);
      && r.Keys == plans.Keys + {BasicName, PremiumName}
      && (forall n | n in plans && n != BasicName && n != PremiumName :: r[n] == plans[n])
      && (BasicName !in plans || force ==> r[BasicName].games == BasicGames(games) && r[BasicName].price == BasicPrice)
      && (PremiumName !in plans || force ==> r[PremiumName].games == ActiveGames(games) && r[PremiumName].price == PremiumPrice)
      && (!force && BasicName in plans ==> r[BasicName] == plans[BasicName])
      && (!force && PremiumName in plans ==> r[PremiumName] == plans[PremiumName])
      && BasicGames(games) <= ActiveGames(games)
  {
    assert BasicName[6] != PremiumName[6];
  }

  // ---------------------------------------------------------------------------
  // The command

  class Db {
    var categories: map<string, CategoryRow>
    var games: seq<GameRow>
    var plans: map<string, PlanRow>

    constructor (categories: map<string, CategoryRow>, games: seq<GameRow>, plans: map<string, PlanRow>)
      ensures this.categories == categories && this.games == games && this.plans == plans
    {
      this.categories, this.games, this.plans := categories, games, plans;
    }

    /** `create_categories`: `get_or_create` each category, overwrite under
        force, then assign categories to every game. */
    method CreateCategories(force: bool)
      modifies this`categories, this`games
      ensures categories == Seeded(old(categories), CategoriesData, force)
      ensures |games| == |old(games)|
      ensures forall i | 0 <= i < |games| :: games[i] == Assigned(old(games[i]), categories.Keys)
    {
      for i := 0 to |CategoriesData|
        invariant categories == Seeded(old(categories), CategoriesData[..i], force)
        invariant games == old(games)
      {
        var d := CategoriesData[i];
        assert CategoriesData[..i + 1][..i] == CategoriesData[..i];
        if d.name !in categories {
          categories := categories[d.name := RowOf(d)];
        } else if force {
          categories := categories[d.name := RowOf(d)];
        }
      }
      assert CategoriesData[..|CategoriesData|] == CategoriesData;
      AssignCategoriesToGames();
    }

    /** `assign_categories_to_games`: each game gets the categories its text
        selects, or keeps its own when none are selected. */
    method AssignCategoriesToGames()
      modifies this`games
      ensures |games| == |old(games)|
      ensures forall i | 0 <= i < |games| :: games[i] == Assigned(old(games[i]), categories.Keys)
    {
      for i := 0 to |games|
        invariant |games| == |old(games)|
        invariant forall j | 0 <= j < i :: games[j] == Assigned(old(games[j]), categories.Keys)
        invariant forall j | i <= j < |games| :: games[j] == old(games[j])
      {
        var g := games[i];
        var cats := ChooseCategories(GameText(g), categories.Keys);
        if cats != [] {
          games := games[i := g.(categories := set c | c in cats)];
        }
      }
    }

    /** `create_console_plans`: one plan per console that has active games. */
    method CreateConsolePlans(force: bool)
      modifies this`plans
      ensures ConsolePlansApplied(old(plans), plans, games, force, Consoles(games))
    {
      plans := ConsolePlansPass(plans, games, force);
    }

    /** `create_general_plans`: the Basic and Premium plans. */
    method CreateGeneralPlans(force: bool)
      modifies this`plans
      ensures plans == GeneralPlans(old(plans), games, force)
    {
      var basicGames := BasicGames(games);
      if BasicName in plans {
        if force {
          plans := plans[BasicName := plans[BasicName].(games := basicGames, description := BasicText(|basicGames|),
                                                        price := BasicPrice)];
        }
      } else {
        plans := plans[BasicName := PlanRow(BasicText(|basicGames|), BasicPrice, true, basicGames)];
      }
      var allGames := ActiveGames(games);
      if PremiumName in plans {
        if force {
          plans := plans[PremiumName := plans[PremiumName].(games := allGames, description := PremiumText(|allGames|),
                                                            price := PremiumPrice)];
        }
      } else {
        plans := plans[PremiumName := PlanRow(PremiumText(|allGames|), PremiumPrice, true, allGames)];
      }
      assert BasicName[6] != PremiumName[6];
    }

    /** `handle`: `--plans-only` skips the categories, `--categories-only` skips
        the plans. `mid` is the plan table between the console plans and the
        general plans. Without `--force` no existing plan changes. */
    method Handle(categoriesOnly: bool, plansOnly: bool, force: bool) returns (ghost mid: map<string, PlanRow>)
      modifies this`categories, this`games, this`plans
      ensures plansOnly ==> categories == old(categories) && games == old(games)
      ensures !plansOnly ==> categories == Seeded(old(categories), CategoriesData, force)
      ensures |games| == |old(games)|
      ensures !plansOnly ==> forall i | 0 <= i < |games| :: games[i] == Assigned(old(games[i]), categories.Keys)
      ensures categoriesOnly ==> plans == old(plans)
      ensures !categoriesOnly ==>
                && ConsolePlansApplied(old(plans), mid, games, force, Consoles(games))
                && plans == GeneralPlans(mid, games, force)
                && BasicName in plans && PremiumName in plans
      ensures !force ==> forall n | n in old(plans) :: n in plans && plans[n] == old(plans)[n]
    {
      mid := plans;
      if !plansOnly {
        CreateCategories(force);
      }
      if !categoriesOnly {
        ghost var before := plans;
        CreateConsolePlans(force);
        mid := plans;
        CreateGeneralPlans(force);
        GeneralPlansRules(mid, games, force);
        if !force {
          UnforcedKeepsPlans(before, mid, games, Consoles(games));
        }
      }
    }
  }
}
