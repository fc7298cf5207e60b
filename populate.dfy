/** games/management/commands/populate_games.py: fills the catalog from a list
    of `{nome, descricao, link_imagem}` records (built in or from a JSON file)
    and builds the Basic and Premium plans. The console classifier and the
    image-link cleaner are shared with populate_games_from_json.py. */
module PopulateGames {
  import opened Common

  // ---------------------------------------------------------------------------
  // extract_console_from_name

  /** The classifier's if-chain over Python's `pattern in game_name`, given
      as `has`: the first rule whose pattern is found decides the console. */
  function Classify(has: string -> bool): (console: string)
    ensures console in ConsoleLabels
  {
    if has("GBA") then "GBA"
    else if has("Game Boy") || has("GB)") then "Game Boy"
    else if has("SNES") then "SNES"
    else if has("Mega Drive") || has("Genesis") then "Mega Drive"
    else if has("PS1") then "PlayStation"
    else if has("PC-DOS") then "PC"
    else if has("Neo Geo") then "Neo Geo"
    else if has("Arcade") then "Arcade"
    else if has("NES") then "NES"
    else "Outros"
  }

  /** `extract_console_from_name` on a string name: `in` is substring search. */
  function ExtractConsole(name: string): (console: string)
    ensures console in ConsoleLabels
  {
    Classify(p => Contains(name, p))
  }

  const ConsoleLabels: set<string> :=
    {"GBA", "Game Boy", "SNES", "Mega Drive", "PlayStation", "PC", "Neo Geo", "Arcade", "NES", "Outros"}

  /** A rule of the classifier: any of `patterns` gives `console`. */
  datatype Rule = Rule(patterns: seq<string>, console: string)

  /** The classifier's rules as a table, most specific first. */
  const ConsoleRules: seq<Rule> := [
    Rule(["GBA"], "GBA"), Rule(["Game Boy", "GB)"], "Game Boy"), Rule(["SNES"], "SNES"),
    Rule(["Mega Drive", "Genesis"], "Mega Drive"), Rule(["PS1"], "PlayStation"), Rule(["PC-DOS"], "PC"),
    Rule(["Neo Geo"], "Neo Geo"), Rule(["Arcade"], "Arcade"), Rule(["NES"], "NES")
  ]

  /** Some pattern of the list occurs in the name. */
  predicate AnyOccurs(name: string, patterns: seq<string>) {
    patterns != [] && (Contains(name, patterns[0]) || AnyOccurs(name, patterns[1..]))
  }

  predicate Fires(r: Rule, name: string) {
    AnyOccurs(name, r.patterns)
  }

  lemma FiresOne(r: Rule, name: string, p: string)
    requires r.patterns == [p]
    ensures Fires(r, name) <==> Contains(name, p)
  {
    assert r.patterns[1..] == [];
    assert !AnyOccurs(name, []);
  }

  lemma FiresTwo(r: Rule, name: string, p: string, q: string)
    requires r.patterns == [p, q]
    ensures Fires(r, name) <==> Contains(name, p) || Contains(name, q)
  {
    assert r.patterns[1..] == [q] && r.patterns[1..][1..] == [];
    assert !AnyOccurs(name, []);
    assert AnyOccurs(name, [q]) <==> Contains(name, q);
  }

  /** Rule j is the first rule at or after k that fires. */
  predicate FirstFiring(rules: seq<Rule>, k: nat, j: nat, name: string) {
    k <= j < |rules| && Fires(rules[j], name) && forall m | k <= m < j :: !Fires(rules[m], name)
  }

  /** Reference classifier: the console of the first rule from k on that
      fires, or 'Outros' when none does. */
  function FirstMatch(rules: seq<Rule>, k: nat, name: string): string
    requires k <= |rules|
    decreases |rules| - k
  {
    if k == |rules| then "Outros"
    else if Fires(rules[k], name) then rules[k].console
    else FirstMatch(rules, k + 1, name)
  }

  /** The reference picks the first rule that fires, and 'Outros' when none does. */
  lemma {:induction false} FirstMatchRules(rules: seq<Rule>, k: nat, name: string)
    requires k <= |rules|
    ensures (forall j | k <= j < |rules| :: !Fires(rules[j], name)) ==> FirstMatch(rules, k, name) == "Outros"
    ensures forall j: nat | FirstFiring(rules, k, j, name) :: FirstMatch(rules, k, name) == rules[j].console
    decreases |rules| - k
  {
    if k < |rules| && !Fires(rules[k], name) {
      FirstMatchRules(rules, k + 1, name);
      assert forall j: nat | FirstFiring(rules, k, j, name) :: FirstFiring(rules, k + 1, j, name);
    }
  }

  /** The if-chain is the first-match rule over the table. */
  lemma ExtractIsFirstMatch(name: string)
    ensures ExtractConsole(name) == FirstMatch(ConsoleRules, 0, name)
  {
    TableMatches(ConsoleRules, name);
  }

  lemma TableMatches(t: seq<Rule>, name: string)
    requires |t| == 9
    requires t[0] == Rule(["GBA"], "GBA") && t[1] == Rule(["Game Boy", "GB)"], "Game Boy")
    requires t[2] == Rule(["SNES"], "SNES") && t[3] == Rule(["Mega Drive", "Genesis"], "Mega Drive")
    requires t[4] == Rule(["PS1"], "PlayStation") && t[5] == Rule(["PC-DOS"], "PC")
    requires t[6] == Rule(["Neo Geo"], "Neo Geo") && t[7] == Rule(["Arcade"], "Arcade") && t[8] == Rule(["NES"], "NES")
    ensures ExtractConsole(name) == FirstMatch(t, 0, name)
  {
    FiresOne(t[0], name, "GBA");
    FiresTwo(t[1], name, "Game Boy", "GB)");
    FiresOne(t[2], name, "SNES");
    FiresTwo(t[3], name, "Mega Drive", "Genesis");
    FiresOne(t[4], name, "PS1");
    FiresOne(t[5], name, "PC-DOS");
    FiresOne(t[6], name, "Neo Geo");
    FiresOne(t[7], name, "Arcade");
    FiresOne(t[8], name, "NES");
    assert FirstMatch(t, 8, name) == if Contains(name, "NES") then "NES" else "Outros";
    assert FirstMatch(t, 7, name) == if Contains(name, "Arcade") then "Arcade" else FirstMatch(t, 8, name);
    assert FirstMatch(t, 6, name) == if Contains(name, "Neo Geo") then "Neo Geo" else FirstMatch(t, 7, name);
    assert FirstMatch(t, 5, name) == if Contains(name, "PC-DOS") then "PC" else FirstMatch(t, 6, name);
    assert FirstMatch(t, 4, name) == if Contains(name, "PS1") then "PlayStation" else FirstMatch(t, 5, name);
    assert FirstMatch(t, 3, name) ==
      if Contains(name, "Mega Drive") || Contains(name, "Genesis") then "Mega Drive" else FirstMatch(t, 4, name);
    assert FirstMatch(t, 2, name) == if Contains(name, "SNES") then "SNES" else FirstMatch(t, 3, name);
    assert FirstMatch(t, 1, name) ==
      if Contains(name, "Game Boy") || Contains(name, "GB)") then "Game Boy" else FirstMatch(t, 2, name);
  }

  /** 'SNES' contains 'NES', yet a name with 'SNES' is never classed as NES;
      'GBA' always wins; and 'Outros' means that no rule fires at all. */
  lemma ExtractConsoleOrder(name: string)
    ensures Contains(name, "SNES") ==> ExtractConsole(name) != "NES"
    ensures Contains(name, "GBA") ==> ExtractConsole(name) == "GBA"
    ensures ExtractConsole(name) == "Outros" <==> forall j | 0 <= j < |ConsoleRules| :: !Fires(ConsoleRules[j], name)
  {
    ExtractIsFirstMatch(name);
    var t := ConsoleRules;
    FirstMatchRules(t, 0, name);
    if exists j | 0 <= j < |t| :: Fires(t[j], name) {
      var j := FirstOf(t, name);
      assert t[j].console != "Outros";
    }
  }

  /** The least index of a rule that fires. */
  lemma FirstOf(rules: seq<Rule>, name: string) returns (j: nat)
    requires exists j | 0 <= j < |rules| :: Fires(rules[j], name)
    ensures FirstFiring(rules, 0, j, name)
  {
    var w :| 0 <= w < |rules| && Fires(rules[w], name);
    j := 0;
    while !Fires(rules[j], name)
      invariant j <= w && forall m | 0 <= m < j :: !Fires(rules[m], name)
      decreases w - j
    {
      j := j + 1;
    }
  }

  // ---------------------------------------------------------------------------
  // clean_image_url

  /** The link is wrapped in square brackets (so it has at least two characters). */
  predicate Bracketed(url: string) {
    |url| >= 2 && url[0] == '[' && url[|url| - 1] == ']'
  }

  lemma BracketedIff(url: string)
    ensures Bracketed(url) <==> StartsWith(url, "[") && EndsWith(url, "]")
  {
    if StartsWith(url, "[") && EndsWith(url, "]") {
      assert url[..1][0] == url[0];
      assert url[|url| - 1..][0] == url[|url| - 1];
    }
    if Bracketed(url) {
      assert url[..1] == "[";
      assert url[|url| - 1..] == "]";
    }
  }

  /** `url.split('(')[0]` when the text has both parentheses, else the text. */
  function CutAtParen(inner: string): (cut: string)
    ensures |cut| <= |inner| && cut == inner[..|cut|]
    ensures '(' in inner && ')' in inner ==> '(' !in cut && |cut| < |inner| && inner[|cut|] == '('
    ensures !('(' in inner && ')' in inner) ==> cut == inner
  {
    if '(' in inner && ')' in inner then inner[..IndexOfChar(inner, '(')] else inner
  }

  /** `clean_image_url`: a `[...]` link loses its brackets and, when it has both
      parentheses, everything from the first '(' on; the result is stripped. */
  function CleanImageUrl(url: string): (r: string)
    ensures |r| <= |url|
    ensures forall c | c in r :: c in url
    ensures Strip(r) == r
    ensures !Bracketed(url) ==> r == Strip(url)
    ensures Bracketed(url) ==> r == Strip(CutAtParen(url[1..|url| - 1]))
  {
    BracketedIff(url);
    if StartsWith(url, "[") && EndsWith(url, "]") then
      var inner := url[1..|url| - 1];
      var cut := CutAtParen(inner);
      assert forall c | c in cut :: c in url by {
        forall c | c in cut ensures c in url {
          var k :| 0 <= k < |cut| && cut[k] == c;
          assert inner[k] == c;
          assert url[k + 1] == c;
        }
      }
      StripTwice(cut);
      Strip(cut)
    else
      StripTwice(url);
      Strip(url)
  }

  /** A bracketed link with a parenthesised part keeps nothing from the first
      '(' on; one without '(' only loses its brackets and edge whitespace. */
  lemma CleanImageUrlBracketed(url: string)
    requires Bracketed(url)
    ensures var inner := url[1..|url| - 1];
            && ('(' in inner && ')' in inner ==> '(' !in CleanImageUrl(url))
            && ('(' !in inner ==> CleanImageUrl(url) == Strip(inner))
  {
  }

  lemma StripTwice(s: string)
    ensures Strip(Strip(s)) == Strip(s)
  {
    StripFixed(Strip(s));
  }

  /** A string without whitespace at either end is its own strip. */
  lemma StripFixed(s: string)
    requires s == [] || (!IsSpace(s[0]) && !IsSpace(s[|s| - 1]))
    ensures Strip(s) == s
  {
    if s != [] {
      assert StripLeft(s) == s;
      assert StripRight(s) == s;
    }
  }

  // ---------------------------------------------------------------------------
  // Records

  /** A record of the games list: `nome`, `descricao`, `link_imagem`. */
  datatype SeedRecord = SeedRecord(nome: Field, descricao: Field, linkImagem: Field)

  /** A `Game` row created by the seeders (price and activity left out). */
  datatype GameRec = GameRec(title: string, description: string, console: string, coverImage: string)

  /** What the loop body does with one record: create a game, skip it after an
      exception it catches, have the insert refused by the database (the
      description column is NOT NULL), or crash because its `except` clause
      itself reads the missing `nome`. */
  datatype Step = Made(game: GameRec) | Skip | Rejected | Crash

  /** Python's `in` accepts a string (substring search) and an array or
      object (membership); on null, a number or a boolean it raises. */
  predicate Searchable(f: Field) {
    f.Str? || f.Container?
  }

  /** What Django's text columns store for a value: the string itself, or
      Python's `str()` of a number, boolean, array or object. */
  predicate Storable(f: Field) {
    f.Str? || f.Scalar? || f.Container?
  }

  function StoredText(f: Field): string
    requires Storable(f)
  {
    match f
    case Str(s) => s
    case Scalar(t) => t
    case Container(_, t) => t
  }

  /** The console of a `nome` that `in` accepts. */
  function NameConsole(nome: Field): (console: string)
    requires Searchable(nome)
    ensures console in ConsoleLabels
  {
    if nome.Str? then ExtractConsole(nome.s) else Classify(p => p in nome.members)
  }

  /** One iteration's `try` body, in the source's order: the console from
      `nome`, the image link (which must be a string for `startswith`), then
      the insert with `nome` as title and `descricao` as description. */
  function Convert(r: SeedRecord): (s: Step)
    ensures s.Crash? <==> r.nome.Absent?
  {
    match r.nome
    case Absent => Crash
    case Null => Skip
    case Scalar(_) => Skip
    case _ =>
      if !r.linkImagem.Str? then Skip
      else
        match r.descricao
        case Absent => Skip
        case Null => Rejected
        case _ => Made(GameRec(StoredText(r.nome), StoredText(r.descricao), NameConsole(r.nome),
                               CleanImageUrl(r.linkImagem.s)))
  }

  /** A record becomes a game exactly when `in` accepts its `nome`, its link
      is a string and its description can be stored; the insert is refused
      exactly when the description is null; a created game has the cleaned
      image and a console label, and a string name and description are
      stored as they are. */
  lemma ConvertRules(r: SeedRecord)
    ensures var s := Convert(r);
      && (s.Made? <==> Searchable(r.nome) && r.linkImagem.Str? && Storable(r.descricao))
      && (s.Rejected? <==> Searchable(r.nome) && r.linkImagem.Str? && r.descricao.Null?)
      && (s.Skip? <==> !r.nome.Absent? && !s.Made? && !s.Rejected?)
      && (s.Made? ==> s.game.coverImage == CleanImageUrl(r.linkImagem.s) && s.game.console in ConsoleLabels)
      && (s.Made? && r.nome.Str? ==> s.game.title == r.nome.s && s.game.console == ExtractConsole(r.nome.s))
      && (s.Made? && r.descricao.Str? ==> s.game.description == r.descricao.s)
  {
  }

  /** The games the loop creates, in order, whether a record crashed it, and
      whether the database refused an insert before that; a crash stops the
      loop after the games before it. */
  function LoadFrom(rs: seq<SeedRecord>): (r: (seq<GameRec>, bool, bool))
    ensures |r.0| <= |rs|
  {
    if rs == [] then ([], false, false)
    else
      var rest := LoadFrom(rs[1..]);
      match Convert(rs[0])
      case Crash => ([], true, false)
      case Skip => rest
      case Rejected => (rest.0, rest.1, true)
      case Made(g) => ([g] + rest.0, rest.1, rest.2)
  }

  /** The loop crashes exactly when some record has no `nome`. */
  lemma {:induction false} LoadFromCrashes(rs: seq<SeedRecord>)
    ensures LoadFrom(rs).1 <==> exists i | 0 <= i < |rs| :: rs[i].nome.Absent?
  {
    if rs != [] {
      LoadFromCrashes(rs[1..]);
      assert forall i | 1 <= i < |rs| :: rs[i] == rs[1..][i - 1];
    }
  }

  /** Without a crash, an insert is refused exactly when some record has a
      null `descricao` and would otherwise have been created. */
  lemma {:induction false} LoadFromRejects(rs: seq<SeedRecord>)
    requires !LoadFrom(rs).1
    ensures LoadFrom(rs).2 <==> exists i | 0 <= i < |rs| :: Convert(rs[i]).Rejected?
  {
    if rs != [] {
      LoadFromRejects(rs[1..]);
      assert forall i | 1 <= i < |rs| :: rs[i] == rs[1..][i - 1];
    }
  }

  /** Without a crash, each record that converts becomes exactly one game, in
      order, and skipped records leave no trace. */
  lemma {:induction false} LoadFromKeepsOrder(rs: seq<SeedRecord>)
    requires !LoadFrom(rs).1
    ensures LoadFrom(rs).0 == Created(rs)
  {
    if rs != [] {
      LoadFromKeepsOrder(rs[1..]);
    }
  }

  /** The successful records' games, in order. */
  function Created(rs: seq<SeedRecord>): seq<GameRec> {
    if rs == [] then [] else (if Convert(rs[0]).Made? then [Convert(rs[0]).game] else []) + Created(rs[1..])
  }

  /** One record of the loop: `LoadFrom` on the suffix from i. */
  lemma LoadFromStep(rs: seq<SeedRecord>, i: nat)
    requires i < |rs|
    ensures var rest := LoadFrom(rs[i + 1..]);
            LoadFrom(rs[i..]) == match Convert(rs[i])
                                  case Crash => ([], true, false)
                                  case Skip => rest
                                  case Rejected => (rest.0, rest.1, true)
                                  case Made(g) => ([g] + rest.0, rest.1, rest.2)
  {
    assert rs[i..][1..] == rs[i + 1..];
  }

  /** The `for game_data in games_data` loop: each record is converted inside
      `try`, a caught failure skips it, a refused insert is remembered, and a
      crash ends the loop. */
  method LoadRecords(rs: seq<SeedRecord>) returns (created: seq<GameRec>, crashed: bool, rejected: bool)
    ensures (created, crashed, rejected) == LoadFrom(rs)
  {
    created, crashed, rejected := [], false, false;
    assert rs[0..] == rs;
    for i := 0 to |rs|
      invariant LoadFrom(rs).0 == created + LoadFrom(rs[i..]).0
      invariant LoadFrom(rs).1 == LoadFrom(rs[i..]).1
      invariant LoadFrom(rs).2 <==> rejected || LoadFrom(rs[i..]).2
    {
      LoadFromStep(rs, i);
      ghost var rest := LoadFrom(rs[i + 1..]).0;
      match Convert(rs[i]) {
        case Crash =>
          assert created + [] == created;
          return created, true, rejected;
        case Skip =>
        case Rejected =>
          rejected := true;
        case Made(g) =>
          assert created + ([g] + rest) == (created + [g]) + rest;
          created := created + [g];
      }
    }
    assert rs[|rs|..] == [];
    assert created + [] == created;
  }

  // ---------------------------------------------------------------------------
  // Plans

  /** A `Plan` row: description, price in cents, and the set of game indices. */
  datatype PlanRec = PlanRec(description: string, price: nat, games: set<nat>)

  const BasicName: string := "Plano Básico"
  const PremiumName: string := "Plano Premium"
  const BasicConsoles: set<string> := {"NES", "Game Boy", "GBA", "Mega Drive"}
  const BasicDescription: string :=
    "Acesso a jogos clássicos dos consoles dos anos 80 e 90. Inclui jogos do NES, Game Boy, GBA e Mega Drive."
  const PremiumDescription: string :=
    "Acesso completo a todos os jogos da plataforma. Inclui jogos de todos os consoles disponíveis."

  /** `Game.objects.filter(console__in=basic_consoles)`. */
  function BasicGames(games: seq<GameRec>): set<nat> {
    set i: nat | i < |games| && games[i].console in BasicConsoles
  }

  /** `Game.objects.all()`. */
  function AllGames(games: seq<GameRec>): (gs: set<nat>)
    ensures forall i: nat :: i in gs <==> i < |games|
  {
    Below(|games|)
  }

  function Below(n: nat): (r: set<nat>)
    ensures forall i: nat :: i in r <==> i < n
  {
    if n == 0 then {} else Below(n - 1) + {n - 1}
  }

  /** `get_or_create` of a plan followed by `games.set` when it was created or
      force is on: an existing plan otherwise keeps everything, and a forced
      one keeps its description and price but gets the new games. */
  function PlanAfter(current: Option<PlanRec>, description: string, price: nat, gs: set<nat>, force: bool): PlanRec {
    match current
    case None => PlanRec(description, price, gs)
    case Some(q) => if force then q.(games := gs) else q
  }

  function Lookup(plans: map<string, PlanRec>, name: string): Option<PlanRec> {
    if name in plans then Some(plans[name]) else None
  }

  /** `create_plans`' effect on the plan table. */
  function PlansAfter(plans: map<string, PlanRec>, games: seq<GameRec>, force: bool): map<string, PlanRec> {
    var basic := PlanAfter(Lookup(plans, BasicName), BasicDescription, 1990, BasicGames(games), force);
    var premium := PlanAfter(Lookup(plans, PremiumName), PremiumDescription, 3990, AllGames(games), force);
    plans[BasicName := basic][PremiumName := premium]
  }

  /** After `create_plans` both plans exist; each newly created or forced plan
      holds exactly its games (Basic: the four classic consoles, Premium: every
      game); without force an existing plan is untouched; other plans stay. */
  lemma PlansAfterRules(plans: map<string, PlanRec>, games: seq<GameRec>, force: bool)
    ensures var r := PlansAfter(plans, games, force);
      && r.Keys == plans.Keys + {BasicName, PremiumName}
      && (BasicName !in plans || force ==> r[BasicName].games == BasicGames(games))
      && (PremiumName !in plans || force ==> r[PremiumName].games == AllGames(games))
      && (BasicName in plans && !force ==> r[BasicName] == plans[BasicName])
      && (PremiumName in plans && !force ==> r[PremiumName] == plans[PremiumName])
      && (forall n | n in plans && n != BasicName && n != PremiumName :: r[n] == plans[n])
      && BasicGames(games) <= AllGames(games)
  {
    assert BasicName[6] != PremiumName[6];
  }

  // ---------------------------------------------------------------------------
  // The command

  /** Where the records come from: the built-in `GAMES_DATA`, or `--json-file`. */
  datatype Source = Builtin(records: seq<SeedRecord>) | FromFile(file: SeedFile)

  /** The JSON file: missing, not JSON, or a list of records. */
  datatype SeedFile = NotFound | BadJson | Records(items: seq<SeedRecord>)

  /** The records to load, or None when the file cannot be read as JSON. */
  function RecordsOf(source: Source): (rs: Option<seq<SeedRecord>>)
    ensures rs.None? <==> source.FromFile? && !source.file.Records?
  {
    match source
    case Builtin(records) => Some(records)
    case FromFile(file) => if file.Records? then Some(file.items) else None
  }

  /** How a load ends. `Aborted`: the database refused an insert inside the
      command's `transaction.atomic`, which marks the block for rollback, so
      the next query (at the latest the plan step or the statistics) raises
      and the command ends in that rollback. */
  datatype Outcome = AlreadyPopulated | FileError | Loaded(created: nat) | Crashed | Aborted

  class Catalog {
    var games: seq<GameRec>
    var plans: map<string, PlanRec>

    constructor (games: seq<GameRec>, plans: map<string, PlanRec>)
      ensures this.games == games && this.plans == plans
    {
      this.games, this.plans := games, plans;
    }

    /** `populate_games_from_data` / `populate_games_from_file`: without force
        an already populated catalog is left alone; with force games and plans
        are wiped first; a file that is missing or not JSON stops there; then
        every record that converts is appended, in order, up to a record whose
        crash ends the command; a refused insert leaves the transaction marked
        for rollback (the partial state is for the enclosing transaction to
        undo). */
    method Populate(source: Source, force: bool) returns (o: Outcome)
      modifies this`games, this`plans
      ensures o == AlreadyPopulated <==> old(games) != [] && !force
      ensures o == AlreadyPopulated ==> games == old(games) && plans == old(plans)
      ensures o != AlreadyPopulated ==> plans == (if force then map[] else old(plans))
      ensures o == FileError <==> o != AlreadyPopulated && RecordsOf(source).None?
      ensures o == FileError ==> games == (if force then [] else old(games))
      ensures o.Loaded? || o == Crashed || o == Aborted ==>
                RecordsOf(source).Some? &&
                var (created, crashed, rejected) := LoadFrom(RecordsOf(source).value);
                && (o == Crashed <==> crashed)
                && (o == Aborted <==> !crashed && rejected)
                && (o.Loaded? || o == Crashed ==> games == (if force then [] else old(games)) + created)
                && (o.Loaded? ==> o.created == |created|)
    {
      if games != [] && !force {
        return AlreadyPopulated;
      }
      if force {
        games, plans := [], map[];
      }
      var rs: seq<SeedRecord>;
      match source {
        case Builtin(records) => rs := records;
        case FromFile(file) =>
          if !file.Records? {
            return FileError;
          }
          rs := file.items;
      }
      var created, crashed, rejected := LoadRecords(rs);
      games := games + created;
      if crashed {
        return Crashed;
      }
      if rejected {
        return Aborted;
      }
      return Loaded(|created|);
    }

    /** `create_plans`. */
    method CreatePlans(force: bool)
      modifies this`plans
      ensures plans == PlansAfter(old(plans), games, force)
    {
      var basicGames := BasicGames(games);
      if BasicName !in plans {
        plans := plans[BasicName := PlanRec(BasicDescription, 1990, basicGames)];
      } else if force {
        plans := plans[BasicName := plans[BasicName].(games := basicGames)];
      }
      var allGames := AllGames(games);
      if PremiumName !in plans {
        plans := plans[PremiumName := PlanRec(PremiumDescription, 3990, allGames)];
      } else if force {
        plans := plans[PremiumName := plans[PremiumName].(games := allGames)];
      }
      assert BasicName[6] != PremiumName[6];
      assert Lookup(old(plans)[BasicName := plans[BasicName]], PremiumName) == Lookup(old(plans), PremiumName);
    }

    /** `handle`, inside `transaction.atomic`: a crash or a refused insert
        rolls everything back; otherwise the plans are built unless `--no-plans`. */
    method Handle(source: Source, force: bool, noPlans: bool) returns (o: Outcome)
      modifies this`games, this`plans
      ensures o == Crashed || o == Aborted ==> games == old(games) && plans == old(plans)
      ensures o == AlreadyPopulated ==> games == old(games)
      ensures o == FileError ==> games == (if force then [] else old(games))
      ensures o.Loaded? ==>
                RecordsOf(source).Some? &&
                var (created, _, _) := LoadFrom(RecordsOf(source).value);
                games == (if force then [] else old(games)) + created && o.created == |created|
      ensures var wiped := force && o != AlreadyPopulated;
              var before := if wiped then map[] else old(plans);
              var committed := o != Crashed && o != Aborted;
              && (noPlans ==> committed ==> plans == before)
              && (!noPlans ==> committed ==> plans == PlansAfter(before, games, force))
    {
      var games0, plans0 := games, plans;
      o := Populate(source, force);
      if o == Crashed || o == Aborted {
        games, plans := games0, plans0;
        return;
      }
      if !noPlans {
        CreatePlans(force);
      }
    }
  }
}
