/** populate_games_from_json.py: the stand-alone seeding script. Unlike the
    `populate_games` command it always wipes the catalog, runs without a
    transaction, and creates the two plans with `Plan.objects.create`. */
module PopulateFromJson {
  import opened Common
  import opened PopulateGames

  /** The plan table the script builds on an empty one: Basic with the games
      of the four classic consoles at R$ 19,90 and Premium with every game at
      R$ 39,90. */
  function FreshPlans(games: seq<GameRec>): (plans: map<string, PlanRec>)
    ensures plans.Keys == {BasicName, PremiumName}
    ensures plans[BasicName].price == 1990 && plans[PremiumName].price == 3990
    ensures forall i: nat :: i in plans[BasicName].games <==> i < |games| && games[i].console in BasicConsoles
    ensures forall i: nat :: i in plans[PremiumName].games <==> i < |games|
    ensures plans[BasicName].games <= plans[PremiumName].games
  {
    assert BasicName[6] != PremiumName[6];
    map[BasicName := PlanRec(BasicDescription, 1990, BasicGames(games)),
        PremiumName := PlanRec(PremiumDescription, 3990, AllGames(games))]
  }

  /** On an empty plan table the command's `create_plans` builds the same two
      plans as the script, with or without `--force`. */
  lemma FreshPlansAgree(games: seq<GameRec>, force: bool)
    ensures PlansAfter(map[], games, force) == FreshPlans(games)
  {
    assert Lookup(map[], BasicName).None?;
    assert Lookup(map[BasicName := PlanRec(BasicDescription, 1990, BasicGames(games))], PremiumName).None? by {
      assert BasicName[6] != PremiumName[6];
    }
  }

  /** `populate_games()`: delete every game and plan, read the file (a missing
      or malformed file ends the script with an empty catalog), load the
      records, and, unless a record crashed the loop, create both plans. A
      crash leaves the games created before it and no plans: nothing undoes
      them. The script runs without a transaction, so an insert the database
      refuses is just one more skipped record. */
  method PopulateGamesScript(c: Catalog, file: SeedFile) returns (o: Outcome)
    modifies c
    ensures !file.Records? ==> o == FileError && c.games == [] && c.plans == map[]
    ensures file.Records? ==>
              var (created, crashed, _) := LoadFrom(file.items);
              && c.games == created
              && (crashed ==> o == Crashed && c.plans == map[])
              && (!crashed ==> o == Loaded(|created|) && c.plans == FreshPlans(created))
  {
    c.games, c.plans := [], map[];
    if !file.Records? {
      return FileError;
    }
    var created, crashed, rejected := LoadRecords(file.items);
    c.games := created;
    if crashed {
      return Crashed;
    }
    c.plans := c.plans[BasicName := PlanRec(BasicDescription, 1990, BasicGames(c.games))];
    c.plans := c.plans[PremiumName := PlanRec(PremiumDescription, 3990, AllGames(c.games))];
    return Loaded(|created|);
  }

  /** On a successful load the script and `populate_games --json-file --force`
      leave the same catalog behind. */
  lemma ScriptMatchesForcedCommand(items: seq<SeedRecord>)
    requires !LoadFrom(items).1
    ensures PlansAfter(map[], [] + LoadFrom(items).0, true) == FreshPlans(LoadFrom(items).0)
  {
    assert [] + LoadFrom(items).0 == LoadFrom(items).0;
    FreshPlansAgree(LoadFrom(items).0, true);
  }
}
