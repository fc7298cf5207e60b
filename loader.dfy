/** games/management/commands/load_initial_games.py: the idempotent loader that
    reads a JSON list of games and creates or updates each one, keyed by slug.
    `slugify` is an arbitrary function; reading the file is replaced by its
    parsed contents. */
module LoadInitialGames {
  import opened Common

  type Slug = string

  /** The Game columns the loader writes. `cover_image` and `rom_url` are nullable. */
  datatype Game = Game(
    title: string, description: string,
    coverImage: Option<string>, romUrl: Option<string>, isActive: bool)

  /** One JSON object of the file, by the keys the loader reads. */
  datatype Record = Record(name: Field, src: Field, image: Field, description: Field)

  /** A parsed JSON value, as far as the shape check looks at it. */
  datatype JsonValue = JArray(items: seq<JsonValue>) | JObject(rec: Record) | JScalar

  /** The file: absent, not valid JSON, or parsed. */
  datatype JsonFile = Missing | Malformed | Parsed(value: JsonValue)

  /** What `create_or_update_game` returns, or `Failed` when it raises. */
  datatype Outcome = Created | Updated | Skipped | Failed

  /** `generate_description`. */
  function DefaultDescription(title: string): string {
    "Jogo retro clássico: " + title + ". Desfrute desta experiência nostálgica!"
  }

  lemma DefaultDescriptionNotEmpty(title: string)
    ensures DefaultDescription(title) != ""
    ensures Contains(DefaultDescription(title), title)
  {
    ContainsAt(DefaultDescription(title), title, 21);
  }

  // ---------------------------------------------------------------------------
  // Shape check

  predicate AllObjects(items: seq<JsonValue>) {
    forall i | 0 <= i < |items| :: items[i].JObject?
  }

  function Records(items: seq<JsonValue>): (rs: seq<Record>)
    requires AllObjects(items)
    ensures |rs| == |items|
    ensures forall i | 0 <= i < |items| :: rs[i] == items[i].rec
  {
    seq(|items|, i requires 0 <= i < |items| => items[i].rec)
  }

  /** `load_json_file`: the records when the value is a list of objects, None
      (a raised error) otherwise. */
  method LoadJsonFile(v: JsonValue) returns (r: Option<seq<Record>>)
    ensures r.Some? <==> v.JArray? && AllObjects(v.items)
    ensures r.Some? ==> r.value == Records(v.items)
  {
    if !v.JArray? {
      return None;
    }
    var i := 0;
    while i < |v.items|
      invariant 0 <= i <= |v.items|
      invariant forall j | 0 <= j < i :: v.items[j].JObject?
    {
      if !v.items[i].JObject? {
        return None;
      }
      i := i + 1;
    }
    return Some(Records(v.items));
  }

  // ---------------------------------------------------------------------------
  // One record, as values

  /** `game_data.get(key, '').strip()`: a missing key reads as the empty string,
      and a value that is not a string raises (None). */
  function GetStripped(f: Field): Option<string> {
    match f
    case Absent => Some("")
    case Str(s) => Some(Strip(s))
    case _ => None
  }

  /** `value if value else None`. */
  function NonEmpty(s: string): Option<string> {
    if s == "" then None else Some(s)
  }

  /** The fields of a record that survived the checks of `create_or_update_game`,
      with the default description for its title. */
  datatype Prepared = Prepared(
    slug: Slug, title: string, romUrl: string, coverImage: string,
    description: string, defaultDescription: string)

  datatype Result<T> = Ok(value: T) | Err(outcome: Outcome)

  /** The start of `create_or_update_game`: Skipped for a blank title or slug,
      Failed for a field that is not a string, otherwise the prepared fields. */
  function Prepare(slugify: string -> string, r: Record): (pr: Result<Prepared>)
    ensures pr.Err? ==> pr.outcome == Skipped || pr.outcome == Failed
    ensures pr.Ok? ==> var p := pr.value;
              && p.title != "" && p.slug != "" && p.slug == slugify(p.title)
              && p.description != ""
              && p.defaultDescription == DefaultDescription(p.title)
              && (GetStripped(r.description) == Some("") ==> p.description == p.defaultDescription)
  {
    match GetStripped(r.name)
    case None => Err(Failed)
    case Some(title) =>
      if title == "" || slugify(title) == "" then Err(Skipped)
      else
        var rom, cover, d := GetStripped(r.src), GetStripped(r.image), GetStripped(r.description);
        if rom.None? || cover.None? || d.None? then Err(Failed)
        else
          DefaultDescriptionNotEmpty(title);
          var dd := DefaultDescription(title);
          Ok(Prepared(slugify(title), title, rom.value, cover.value, if d.value == "" then dd else d.value, dd))
  }

  /** The update rules for a game that already holds the slug; the flag tells
      whether any field changed. */
  function UpdateExisting(g: Game, p: Prepared): (Game, bool) {
    var titleChanged := g.title != p.title;
    var romChanged := g.romUrl != Some(p.romUrl) && p.romUrl != "";
    var coverChanged := g.coverImage != Some(p.coverImage) && p.coverImage != "";
    var descriptionChanged := (g.description == "" || g.description == p.defaultDescription)
                              && p.description != "" && p.description != p.defaultDescription;
    var activated := !g.isActive;
    (Game(p.title,
          if descriptionChanged then p.description else g.description,
          if coverChanged then Some(p.coverImage) else g.coverImage,
          if romChanged then Some(p.romUrl) else g.romUrl,
          true),
     titleChanged || romChanged || coverChanged || descriptionChanged || activated)
  }

  /** The row `get_or_create` inserts for a new slug. */
  function NewGame(p: Prepared): Game {
    Game(p.title, p.description, NonEmpty(p.coverImage), NonEmpty(p.romUrl), true)
  }

  /** The table after a prepared record (or a record that stopped early). */
  function Apply(games: map<Slug, Game>, pr: Result<Prepared>): (map<Slug, Game>, Outcome) {
    match pr
    case Err(o) => (games, o)
    case Ok(p) =>
      if p.slug !in games then (games[p.slug := NewGame(p)], Created)
      else
        var (g, changed) := UpdateExisting(games[p.slug], p);
        if changed then (games[p.slug := g], Updated) else (games, Skipped)
  }

  /** `create_or_update_game` on the game table. */
  function Upsert(games: map<Slug, Game>, slugify: string -> string, r: Record): (map<Slug, Game>, Outcome) {
    Apply(games, Prepare(slugify, r))
  }

  /** A blank title or slug, or a field of the wrong type, leaves the table as it is. */
  lemma BlankRecordChangesNothing(games: map<Slug, Game>, slugify: string -> string, r: Record)
    requires GetStripped(r.name) == Some("") ||
             (GetStripped(r.name).Some? && slugify(GetStripped(r.name).value) == "")
    ensures Upsert(games, slugify, r) == (games, Skipped)
  {
  }

  /** The update rules in terms of the resulting row: the title is taken, the ROM
      and cover are replaced only by a non-empty value, the description only when
      it is empty or the default for the title and the new one is not the
      default, and the game ends up active. */
  lemma UpdateRules(g: Game, p: Prepared)
    ensures var (g', _) := UpdateExisting(g, p);
            && g'.title == p.title && g'.isActive
            && g'.romUrl == (if p.romUrl != "" then Some(p.romUrl) else g.romUrl)
            && g'.coverImage == (if p.coverImage != "" then Some(p.coverImage) else g.coverImage)
            && g'.description ==
                 (if (g.description == "" || g.description == p.defaultDescription) &&
                     p.description != "" && p.description != p.defaultDescription
                  then p.description else g.description)
  {
  }

  /** 'updated' exactly when the stored row differs from what it was. */
  lemma UpdatedIffChanged(g: Game, p: Prepared)
    ensures UpdateExisting(g, p).1 <==> UpdateExisting(g, p).0 != g
  {
  }

  /** Applying a prepared record a second time right after the first changes nothing. */
  lemma ApplyTwiceSkips(games: map<Slug, Game>, p: Prepared)
    requires p.description != ""
    ensures var games1 := Apply(games, Ok(p)).0;
            Apply(games1, Ok(p)) == (games1, Skipped)
  {
  }

  /** Loading a record a second time right after the first changes nothing. */
  lemma UpsertTwiceSkips(games: map<Slug, Game>, slugify: string -> string, r: Record)
    ensures var (games1, o) := Upsert(games, slugify, r);
            Upsert(games1, slugify, r) == (games1, if o == Failed then Failed else Skipped)
  {
    var pr := Prepare(slugify, r);
    if pr.Ok? {
      ApplyTwiceSkips(games, pr.value);
    }
  }

  /** The slug a record is loaded under, if it gets that far. */
  function SlugOf(slugify: string -> string, r: Record): Option<Slug> {
    if Prepare(slugify, r).Ok? then Some(Prepare(slugify, r).value.slug) else None
  }

  /** Only the record's own slug can change. */
  lemma ApplyTouchesOwnSlug(games: map<Slug, Game>, pr: Result<Prepared>, s: Slug)
    requires pr.Ok? ==> pr.value.slug != s
    ensures var games1 := Apply(games, pr).0;
            (s in games1 <==> s in games) && (s in games ==> games1[s] == games[s])
  {
    if pr.Ok? {
      var p := pr.value;
      if p.slug in games {
        var (g, changed) := UpdateExisting(games[p.slug], p);
        assert Apply(games, pr).0 == if changed then games[p.slug := g] else games;
      }
    }
  }

  lemma UpsertTouchesOwnSlug(games: map<Slug, Game>, slugify: string -> string, r: Record, s: Slug)
    requires SlugOf(slugify, r) != Some(s)
    ensures var games1 := Upsert(games, slugify, r).0;
            (s in games1 <==> s in games) && (s in games ==> games1[s] == games[s])
  {
    ApplyTouchesOwnSlug(games, Prepare(slugify, r), s);
  }

  // ---------------------------------------------------------------------------
  // The loop of `handle`, as values

  datatype Tally = Tally(games: map<Slug, Game>, created: nat, updated: nat, skipped: nat)

  /** The tally after one more record; a raised error counts as skipped. */
  function Next(t: Tally, slugify: string -> string, r: Record): Tally {
    var (games1, o) := Upsert(t.games, slugify, r);
    match o
    case Created => t.(games := games1, created := t.created + 1)
    case Updated => t.(games := games1, updated := t.updated + 1)
    case _ => t.(games := games1, skipped := t.skipped + 1)
  }

  /** The records processed in order. */
  function Run(games: map<Slug, Game>, slugify: string -> string, rs: seq<Record>): Tally
    decreases |rs|
  {
    if rs == [] then Tally(games, 0, 0, 0)
    else Next(Run(games, slugify, rs[..|rs| - 1]), slugify, rs[|rs| - 1])
  }

  lemma RunPrefix(games: map<Slug, Game>, slugify: string -> string, rs: seq<Record>, i: nat)
    requires i < |rs|
    ensures Run(games, slugify, rs[..i + 1]) == Next(Run(games, slugify, rs[..i]), slugify, rs[i])
  {
    assert rs[..i + 1][..i] == rs[..i];
  }

  /** Every record increments exactly one counter. */
  lemma {:induction false} RunCountsEveryRecord(games: map<Slug, Game>, slugify: string -> string, rs: seq<Record>)
    ensures var t := Run(games, slugify, rs); t.created + t.updated + t.skipped == |rs|
    decreases |rs|
  {
    if rs != [] {
      RunCountsEveryRecord(games, slugify, rs[..|rs| - 1]);
    }
  }

  /** No two records that get as far as a slug share it. */
  predicate DistinctSlugs(slugify: string -> string, rs: seq<Record>) {
    forall i, j | 0 <= i < j < |rs| :: SlugOf(slugify, rs[i]).None? || SlugOf(slugify, rs[i]) != SlugOf(slugify, rs[j])
  }

  /** Loading record r into the table would change nothing and count it as skipped or failed. */
  predicate Settled(games: map<Slug, Game>, slugify: string -> string, r: Record) {
    var (games1, o) := Upsert(games, slugify, r);
    games1 == games && o != Created && o != Updated
  }

  /** Whether a record is settled depends only on the row under its own slug. */
  lemma ApplySettledLocal(g1: map<Slug, Game>, g2: map<Slug, Game>, pr: Result<Prepared>)
    requires pr.Ok? ==> (pr.value.slug in g1 <==> pr.value.slug in g2)
    requires pr.Ok? && pr.value.slug in g1 ==> g1[pr.value.slug] == g2[pr.value.slug]
    requires Apply(g1, pr).0 == g1 && Apply(g1, pr).1 != Created && Apply(g1, pr).1 != Updated
    ensures Apply(g2, pr).0 == g2 && Apply(g2, pr).1 != Created && Apply(g2, pr).1 != Updated
  {
    if pr.Ok? {
      var p := pr.value;
      assert p.slug in g1;
      assert !UpdateExisting(g1[p.slug], p).1;
    }
  }

  lemma SettledLocal(g1: map<Slug, Game>, g2: map<Slug, Game>, slugify: string -> string, r: Record)
    requires Settled(g1, slugify, r)
    requires SlugOf(slugify, r).Some? ==> var s := SlugOf(slugify, r).value;
               (s in g1 <==> s in g2) && (s in g1 ==> g1[s] == g2[s])
    ensures Settled(g2, slugify, r)
  {
    ApplySettledLocal(g1, g2, Prepare(slugify, r));
  }

  lemma RunLast(games: map<Slug, Game>, slugify: string -> string, rs: seq<Record>)
    requires rs != []
    ensures Run(games, slugify, rs).games == Upsert(Run(games, slugify, rs[..|rs| - 1]).games, slugify, rs[|rs| - 1]).0
  {
    NextGames(Run(games, slugify, rs[..|rs| - 1]), slugify, rs[|rs| - 1]);
  }

  lemma NextGames(t: Tally, slugify: string -> string, r: Record)
    ensures Next(t, slugify, r).games == Upsert(t.games, slugify, r).0
  {
    var (games1, o) := Upsert(t.games, slugify, r);
    match o
    case Created =>
    case Updated =>
    case _ =>
  }

  lemma DistinctSlugsPrefix(slugify: string -> string, rs: seq<Record>, n: nat)
    requires DistinctSlugs(slugify, rs) && n <= |rs|
    ensures DistinctSlugs(slugify, rs[..n])
  {
    forall a, b | 0 <= a < b < n
      ensures SlugOf(slugify, rs[..n][a]).None? || SlugOf(slugify, rs[..n][a]) != SlugOf(slugify, rs[..n][b])
    {
      assert rs[..n][a] == rs[a] && rs[..n][b] == rs[b];
    }
  }

  /** After a run, every record is settled in the resulting table. */
  lemma {:induction false} RunSettlesEachRecord(games: map<Slug, Game>, slugify: string -> string, rs: seq<Record>, i: nat)
    requires DistinctSlugs(slugify, rs) && i < |rs|
    ensures Settled(Run(games, slugify, rs).games, slugify, rs[i])
    decreases |rs|
  {
    var n := |rs| - 1;
    var t := Run(games, slugify, rs[..n]).games;
    var g := Run(games, slugify, rs).games;
    RunLast(games, slugify, rs);
    if i == n {
      UpsertTwiceSkips(t, slugify, rs[n]);
    } else {
      assert rs[..n][i] == rs[i];
      DistinctSlugsPrefix(slugify, rs, n);
      RunSettlesEachRecord(games, slugify, rs[..n], i);
      if SlugOf(slugify, rs[i]).Some? {
        UpsertTouchesOwnSlug(t, slugify, rs[n], SlugOf(slugify, rs[i]).value);
      }
      SettledLocal(t, g, slugify, rs[i]);
    }
  }

  /** A run over a table in which every record is settled changes nothing and
      counts every record as skipped. */
  lemma {:induction false} RunOverSettled(games: map<Slug, Game>, slugify: string -> string, rs: seq<Record>)
    requires forall i | 0 <= i < |rs| :: Settled(games, slugify, rs[i])
    ensures Run(games, slugify, rs) == Tally(games, 0, 0, |rs|)
    decreases |rs|
  {
    if rs != [] {
      var n := |rs| - 1;
      forall i | 0 <= i < n
        ensures Settled(games, slugify, rs[..n][i])
      {
        assert rs[..n][i] == rs[i];
      }
      RunOverSettled(games, slugify, rs[..n]);
    }
  }

  /** With distinct slugs, loading the same data a second time creates and
      updates nothing and leaves the table as the first load left it. */
  lemma SecondRunChangesNothing(games: map<Slug, Game>, slugify: string -> string, rs: seq<Record>)
    requires DistinctSlugs(slugify, rs)
    ensures var first := Run(games, slugify, rs).games;
            Run(first, slugify, rs) == Tally(first, 0, 0, |rs|)
  {
    var first := Run(games, slugify, rs).games;
    forall i | 0 <= i < |rs|
      ensures Settled(first, slugify, rs[i])
    {
      RunSettlesEachRecord(games, slugify, rs, i);
    }
    RunOverSettled(first, slugify, rs);
  }

  // ---------------------------------------------------------------------------
  // The command

  /** The `else` branch of `create_or_update_game`: the existing row with the
      update rules applied, and the names of the fields that changed. */
  method UpdateFields(game: Game, p: Prepared) returns (updated: Game, updatedFields: seq<string>)
    ensures (updated, updatedFields != []) == UpdateExisting(game, p)
  {
    updated := game;
    updatedFields := [];
    if updated.title != p.title {
      updated := updated.(title := p.title);
      updatedFields := updatedFields + ["title"];
    }
    if updated.romUrl != Some(p.romUrl) && p.romUrl != "" {
      updated := updated.(romUrl := Some(p.romUrl));
      updatedFields := updatedFields + ["rom_url"];
    }
    if updated.coverImage != Some(p.coverImage) && p.coverImage != "" {
      updated := updated.(coverImage := Some(p.coverImage));
      updatedFields := updatedFields + ["cover_image"];
    }
    // the title was already replaced, so this is the default for the new title
    if updated.description == "" || updated.description == p.defaultDescription {
      if p.description != "" && p.description != p.defaultDescription {
        updated := updated.(description := p.description);
        updatedFields := updatedFields + ["description"];
      }
    }
    if !updated.isActive {
      updated := updated.(isActive := true);
      updatedFields := updatedFields + ["is_active"];
    }
  }

  /** `handle`: a missing or badly shaped file stops before anything changes. */
  datatype Report = CommandError | Summary(created: nat, updated: nat, skipped: nat, total: nat)

  class Catalog {
    const slugify: string -> string
    var games: map<Slug, Game>

    constructor (slugify: string -> string, games: map<Slug, Game>)
      ensures this.slugify == slugify && this.games == games
    {
      this.slugify := slugify;
      this.games := games;
    }

    /** `create_or_update_game`. */
    method CreateOrUpdateGame(r: Record) returns (o: Outcome)
      modifies this`games
      ensures (games, o) == Upsert(old(games), slugify, r)
    {
      var name := GetStripped(r.name);
      if name.None? {
        assert Prepare(slugify, r) == Err(Failed);
        return Failed;
      }
      var title := name.value;
      if title == "" {
        assert Prepare(slugify, r) == Err(Skipped);
        return Skipped;
      }
      var slug := slugify(title);
      if slug == "" {
        assert Prepare(slugify, r) == Err(Skipped);
        return Skipped;
      }
      var rom, cover, description := GetStripped(r.src), GetStripped(r.image), GetStripped(r.description);
      if rom.None? || cover.None? || description.None? {
        assert Prepare(slugify, r) == Err(Failed);
        return Failed;
      }
      var dd := DefaultDescription(title);
      var p := Prepared(slug, title, rom.value, cover.value,
                        if description.value == "" then dd else description.value, dd);
      assert Prepare(slugify, r) == Ok(p);
      if slug !in games {
        games := games[slug := NewGame(p)];
        return Created;
      }
      var game, updatedFields := UpdateFields(games[slug], p);
      if updatedFields != [] {
        games := games[slug := game];
        return Updated;
      }
      return Skipped;
    }

    /** `handle`: check the file, then (after `--reset` empties the table)
        process every record and count the outcomes. */
    method Handle(file: JsonFile, reset: bool) returns (report: Report)
      modifies this`games
      ensures file.Missing? || file.Malformed? ==> report == CommandError && games == old(games)
      ensures file.Parsed? && !(file.value.JArray? && AllObjects(file.value.items)) ==>
                report == CommandError && games == old(games)
      ensures file.Parsed? && file.value.JArray? && AllObjects(file.value.items) ==>
                var rs := Records(file.value.items);
                var t := Run(if reset then map[] else old(games), slugify, rs);
                && games == t.games
                && report == Summary(t.created, t.updated, t.skipped, |rs|)
    {
      if !file.Parsed? {
        return CommandError;
      }
      var data := LoadJsonFile(file.value);
      if data.None? {
        return CommandError;
      }
      var rs := data.value;
      if reset {
        games := map[];
      }
      ghost var games0 := games;
      var created, updated, skipped := 0, 0, 0;
      var i := 0;
      while i < |rs|
        invariant 0 <= i <= |rs|
        invariant Tally(games, created, updated, skipped) == Run(games0, slugify, rs[..i])
      {
        RunPrefix(games0, slugify, rs, i);
        var o := CreateOrUpdateGame(rs[i]);
        if o == Created {
          created := created + 1;
        } else if o == Updated {
          updated := updated + 1;
        } else {
          skipped := skipped + 1;
        }
        i := i + 1;
      }
      assert rs[..i] == rs;
      return Summary(created, updated, skipped, |rs|);
    }
  }
}
