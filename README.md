# Retro games catalog: a verified model of its core

This project models, in Dafny, the core of a Django site that sells and rents
retro games:

- **Game-access tokens** (`games/models.py`). An entitlement hands out one
  token per user and game. A token is validated by the SHA-256 hash of its
  secret, expires, and is revoked.
- **Commerce views** (`games/views.py`).
  - Checkout of a game or a plan.
  - The simulated payment, which grants entitlements and tokens inside one
    transaction.
  - Cancellation of a subscription.
  - The JSON API that validates and revokes tokens.
- **Seeding commands**:
  - `load_initial_games`: the idempotent JSON loader, keyed by slug.
  - `setup_data`: categories by keyword, per-console plans, Basic and
    Premium.
  - `populate_games` and the stand-alone script
    `populate_games_from_json.py`.
- **Slug migration**: the `populate_slugs` step of migration 0004, which gives
  each game the first free `base`, `base-1`, `base-2`, ... slug.
- **Search helpers** (`games/utils.py`):
  - extraction of the embed URL of a game page
  - selection of results from a retrogames.cc search page
  - deduplication across several searches

## How the model is built

- Whatever updates rows in place is modelled as a class with `modifies`
  clauses: the token store, the loader's catalog, the `setup_data` database,
  the populate catalog, and the slug array of the migration.
- Each of its methods is proved against a specification function over values.
- The properties the code promises are lemmas over those functions. Among them:
  - validation succeeds exactly for an active, unexpired, matching token
  - a revoked token never validates again
  - loading the same file twice changes nothing
  - the slug loop stops, on a slug that is free
  - search results never exceed the maximum and never repeat a game URL

The files:

- `common.dfy`: string helpers. These are `strip`, `startswith`, `in`,
  `lower` on ASCII, `rstrip` with a character set and `replace`.
- `models.dfy`: the token lifecycle and the store of rows.
- `views.dfy`: the view handlers that change the store.
- `loader.dfy`: `load_initial_games`.
- `slugs.dfy`: the slug migration.
- `setup.dfy`: `setup_data`.
- `populate.dfy`: `populate_games`.
- `populate_json.dfy`: `populate_games_from_json.py`.
- `search.dfy`: `games/utils.py`.

Things outside the program are parameters:

| outside the program | in the model |
|---|---|
| the clock | `now` |
| SHA-256 | an injective function `Store.hash` |
| `secrets.token_urlsafe` | a counter `serial` whose secrets `RawToken(n)` never repeat |
| `slugify` | an arbitrary function |
| the retrogames.cc pages, `urljoin` and the URL-path title | an `Env` |
| a parsed search page | a sequence of links and cards |
| a JSON file | its parsed contents, or the error reading it gives |

Prices are integer cents.

## Model

| member | source | states |
|---|---|---|
| Models.RawTokenInjective | games/models.py:251-254 | Two calls of the secret generator never return the same secret. |
| Models.FindActive | games/models.py:284-287 | The lookup by hash and active status returns a row that is active and carries the hash. It returns none exactly when no such row exists. |
| Models.FindActiveUnique | games/models.py:284-287 | When no two rows share a hash, the lookup returns the one active row with that hash. |
| Models.Validate | games/models.py:279-310 | A granted pair is a row of the resulting table. |
| Models.ValidateSucceedsIff | games/models.py:279-310 | Validation succeeds if and only if an active row carries the hash, has not passed its expiry and belongs to the requested game. A missing or zero game id matches any game. |
| Models.ValidateSuccessCountsOneUse | games/models.py:256-310 | A success raises the granted row's use count by exactly one and sets its last use to now. The row stays active and every other row is unchanged. |
| Models.ValidateFailureLeavesUsage | games/models.py:256-310 | A failure counts no use. Its only possible effect is to mark the matching active row expired when its expiry has passed. |
| Models.RevokedNeverValidates | games/models.py:274-310 | Once a row is revoked, its secret never validates again, in any later table. No operation un-revokes a row, and the attempt changes nothing. |
| Models.IssueIsIdempotent | games/models.py:143-168 | Issuing a token twice for the same pair returns the existing active token the second time and inserts nothing. |
| Models.IssueAfterRevokeFails | games/models.py:143-168 | After a revoke, issuing again for that pair yields no token. The `(user, game)` constraint refuses the insert, and the exception handler returns None. |
| Models.Store.ValidHashesDistinct | games/models.py:222-249 | In a valid store no two rows share a hash. Secrets are unique and the hash is injective. |
| Models.Store.Begin | games/views.py:307 | The start of the transaction captures the rows it can undo. |
| Models.Store.Rollback | games/views.py:307 | A rollback restores the token, entitlement, purchase, subscription and session rows captured at the start. |
| Models.Store.SaveSession | games/models.py:187-208 | Saving a session replaces exactly that session row. |
| Models.Store.CreateSession | games/models.py:187-208 | Creating a session appends it. Its id is its position. |
| Models.Store.CreatePurchase | games/models.py:68-91 | Creating a purchase appends it. |
| Models.Store.CreateSubscription | games/models.py:93-121 | Creating a subscription appends it. |
| Models.Store.SaveSubscription | games/models.py:93-121 | Saving a subscription replaces exactly that row. |
| Models.Store.CreateEntitlement | games/models.py:124-137 | Creating an entitlement adds exactly the pair's row. |
| Models.Store.CreateGameToken | games/models.py:143-168 | Returns the pair's active token if one exists. Otherwise it inserts a new active, unused token holding a fresh secret and that secret's hash. When a revoked or expired row already holds the pair it returns none and leaves the table as it was. No row loses its secret or leaves the revoked state. |
| Models.Store.Revoke | games/models.py:274-277 | The row becomes revoked and nothing else changes. |
| Models.Store.RevokeToken | games/models.py:170-184 | Returns true exactly when the pair had an active token. That token is then revoked, and otherwise the table is unchanged. |
| Models.Store.IsValid | games/models.py:256-266 | True exactly for an active row not past its expiry. An active row past its expiry is saved as expired. |
| Models.Store.MarkAsUsed | games/models.py:268-272 | Sets the last use to now and adds one to the use count. |
| Models.Store.ValidateToken | games/models.py:279-310 | The new table and the access handed back are those `Validate` defines on the hash of the presented secret. The access holds the pair's current row and entitlement. |
| Views.CheckoutGame | games/views.py:235-252 | A game that is missing or inactive gives a 404. A game the user already holds redirects to the game. Otherwise a pending session for the game's price is appended and the user is sent to its payment page. |
| Views.CheckoutPlan | games/views.py:255-277 | A plan that is missing or inactive gives a 404. A plan the user has a live subscription to redirects to the plan. Otherwise a pending session for the plan's price is appended. |
| Views.PayForGame | games/views.py:313-340 | If the user already holds the game: a 500, and the transaction leaves the database unchanged. Otherwise four rows: the session completed, a completed purchase for its amount, a perpetual entitlement tied to the purchase, and an active token. |
| Views.GrantOne | games/views.py:351-361 | One entitlement for the pair and one newly issued token for it. |
| Views.GrantPlanGames | games/views.py:351-361 | The loop over the plan's games succeeds if and only if the user holds none of them. It then adds one entitlement and one new token per game. |
| Views.PayForPlan | games/views.py:342-369 | If the user already holds a game of the plan: a 500 and nothing changes. Otherwise the session is completed and a 30-day active subscription is created. Every active game of the plan gets an entitlement tied to that subscription, plus a token. |
| Views.SimulatePaymentSuccess | games/views.py:297-371 | Another user's or an unknown session gives a 404. A processed session redirects home. Both change nothing. A pending session takes the game branch, else the plan branch, else it is completed and the user is sent to the library. No token row is ever removed or un-revoked. |
| Views.SimulatePaymentFailure | games/views.py:436-455 | A pending session of the user becomes failed, and the response redirects to its game or plan. A session with neither fails with a 500 after the save. A processed session redirects home and an unknown one gives a 404. |
| Views.CancelSubscription | games/views.py:458-477 | Only the user's own active subscription is cancelled, at now. Its period end is left as it was. Any other id gives a 404 and nothing changes. |
| Views.ApiValidateToken | games/views.py:480-576 | Malformed JSON or a missing, empty or falsy token gives a 400. A body that is not an object, or a token that is truthy but not a string, gives a 500. Otherwise the table becomes the one `Validate` gives, and the reply is 401 on failure or 200 with the granted row. |
| Views.ApiRevokeToken | games/views.py:632-689 | The same answers for malformed bodies. Otherwise the active row with the secret's hash is revoked with status 200, or the answer is 404 when there is none. |
| LoadInitialGames.DefaultDescriptionNotEmpty | games/management/commands/load_initial_games.py:200-210 | The generated description is never empty and contains the title. |
| LoadInitialGames.LoadJsonFile | games/management/commands/load_initial_games.py:172-198 | The file's records are returned exactly when its value is a list of objects. Any other shape raises. |
| LoadInitialGames.Prepare | games/management/commands/load_initial_games.py:224-246 | A record that gets through has a non-empty title, a non-empty slug equal to `slugify(title)` and a non-empty description. An empty description becomes the default for the title. A record that fails is skipped or raises. |
| LoadInitialGames.BlankRecordChangesNothing | games/management/commands/load_initial_games.py:224-236 | A blank title or an empty slug skips the record and leaves the table unchanged. |
| LoadInitialGames.UpdateRules | games/management/commands/load_initial_games.py:264-289 | An existing game: the title is taken, and the ROM and cover are replaced only by non-empty values. The description is replaced only when it was empty or the default and the new one is not the default. The game ends active. |
| LoadInitialGames.UpdatedIffChanged | games/management/commands/load_initial_games.py:264-305 | The outcome is 'updated' if and only if the stored row changed. |
| LoadInitialGames.ApplyTwiceSkips | games/management/commands/load_initial_games.py:248-305 | Applying the same prepared record again right after changes nothing and is counted as skipped. |
| LoadInitialGames.UpsertTwiceSkips | games/management/commands/load_initial_games.py:212-305 | Loading the same record twice in a row: the second load changes nothing. It is skipped, or raises again if the first raised. |
| LoadInitialGames.ApplyTouchesOwnSlug | games/management/commands/load_initial_games.py:248-305 | A prepared record changes only the row under its own slug. |
| LoadInitialGames.UpsertTouchesOwnSlug | games/management/commands/load_initial_games.py:212-305 | A record changes only the row under its own slug. |
| LoadInitialGames.RunCountsEveryRecord | games/management/commands/load_initial_games.py:141-150 | Created, updated and skipped add up to the number of records. |
| LoadInitialGames.RunSettlesEachRecord | games/management/commands/load_initial_games.py:141-150 | With distinct slugs, after a run every record would be skipped if loaded again. |
| LoadInitialGames.RunOverSettled | games/management/commands/load_initial_games.py:141-150 | A run in which every record is already settled changes nothing and counts every record as skipped. |
| LoadInitialGames.SecondRunChangesNothing | games/management/commands/load_initial_games.py:82-170 | With distinct slugs, loading the same file a second time creates and updates nothing. It leaves the table as the first load left it. |
| LoadInitialGames.UpdateFields | games/management/commands/load_initial_games.py:264-290 | The update branch yields the updated row, and a non-empty list of changed fields exactly when the row changed. |
| LoadInitialGames.Catalog.CreateOrUpdateGame | games/management/commands/load_initial_games.py:212-305 | The table and the outcome are those of `Upsert` on the record. |
| LoadInitialGames.Catalog.Handle | games/management/commands/load_initial_games.py:82-170 | A missing, malformed or wrongly shaped file is a command error and the table is kept. Otherwise the records are run in order over the table, emptied first under `--reset`, and the summary holds the run's counts. |
| SlugMigration.CandidateInjective | games/migrations/0004_update_game_model_for_tde.py:13-19 | Different counters give different slug candidates. |
| SlugMigration.Others | games/migrations/0004_update_game_model_for_tde.py:17 | The slugs of the other rows: at most one per row. |
| SlugMigration.OthersTaken | games/migrations/0004_update_game_model_for_tde.py:17 | A candidate is among the other rows' slugs if and only if the existence query finds it taken. |
| SlugMigration.Pigeonhole | games/migrations/0004_update_game_model_for_tde.py:17-19 | If k candidates are all taken, at least k other rows hold slugs. |
| SlugMigration.FreeSlug | games/migrations/0004_update_game_model_for_tde.py:13-19 | The loop stops after at most as many steps as there are rows. It stops on the first candidate no other row holds. |
| SlugMigration.FillKeepsFirstFree | games/migrations/0004_update_game_model_for_tde.py:12-21 | Filling another row's null slug keeps a row's slug the first free candidate. |
| SlugMigration.PopulateSlugs | games/migrations/0004_update_game_model_for_tde.py:9-21 | Every null slug is filled, existing slugs are kept, and slugs stay distinct. Each filled slug is the first free candidate of its title's base slug. |
| SetupData.SeededKeys | games/management/commands/setup_data.py:120-137 | The categories afterwards are the old ones plus the seeded names. |
| SetupData.SeededKeeps | games/management/commands/setup_data.py:120-137 | Without `--force` every existing category keeps its row. |
| SetupData.SeededForced | games/management/commands/setup_data.py:120-137 | With `--force` every seeded category ends with the command's values. |
| SetupData.Matched | games/management/commands/setup_data.py:167-179 | A category is collected if and only if one of its keywords occurs in the game's text and the category exists. |
| SetupData.MatchedOrdered | games/management/commands/setup_data.py:167-179 | The collected categories keep their declaration order. |
| SetupData.MatchedDistinct | games/management/commands/setup_data.py:167-179 | No category is collected twice. |
| SetupData.MatchedNone | games/management/commands/setup_data.py:167-182 | Collecting nothing means no category's keyword occurred, or no category that matched exists. |
| SetupData.Chosen | games/management/commands/setup_data.py:167-211 | At most three categories. With keyword hits: the first min(3, number of hits) of them, in order. Otherwise: the fallback chain. |
| SetupData.NoMatchFallback | games/management/commands/setup_data.py:181-208 | Once every category exists, a game with no keyword hit gets RPG if its text has 'chrono', and Ação otherwise. |
| SetupData.CollectMatched | games/management/commands/setup_data.py:167-179 | The nested keyword loops collect exactly `Matched`. |
| SetupData.KeywordNamesDistinct | games/management/commands/setup_data.py:151-162 | No category name appears twice in the keyword table. |
| SetupData.ChooseCategories | games/management/commands/setup_data.py:167-211 | One game's category list is `Chosen`. |
| SetupData.AssignedCategories | games/management/commands/setup_data.py:146-221 | With every category present, each game ends with one to three existing categories. A game with nothing chosen keeps its old set. |
| SetupData.PlanNameInjective | games/management/commands/setup_data.py:258 | Different consoles never share a plan name. |
| SetupData.RefreshRules | games/management/commands/setup_data.py:262-289 | An existing plan changes only under `--force`. A new or refreshed plan holds exactly the given games at the given price. Refreshing twice is refreshing once. |
| SetupData.ConsolePlanRules | games/management/commands/setup_data.py:246-289 | A console without active games gets no plan. Otherwise its plan exists, and when created or forced it holds exactly its active games at its price. Repeating the step changes nothing. |
| SetupData.ConsoleTurn | games/management/commands/setup_data.py:246-289 | One console's loop step writes that console's plan as `ConsolePlan` gives it. |
| SetupData.ConsolePlansPass | games/management/commands/setup_data.py:223-291 | After the loop every console's plan is as `ConsolePlan` gives it and every other plan is untouched. |
| SetupData.GeneralPlansRules | games/management/commands/setup_data.py:293-344 | Both general plans exist afterwards and no other plan changes. When created or forced, Basic holds the active games of NES, Game Boy, GBA and Mega Drive at 19.90, and Premium holds every active game at 39.90. Otherwise they are kept. |
| SetupData.Db.CreateCategories | games/management/commands/setup_data.py:53-144 | The categories are seeded and then every game is assigned its categories. |
| SetupData.Db.AssignCategoriesToGames | games/management/commands/setup_data.py:146-221 | Each game gets the categories its text selects, or keeps its own set. |
| SetupData.Db.CreateConsolePlans | games/management/commands/setup_data.py:223-291 | The plan table is the one `ConsolePlansPass` describes. |
| SetupData.Db.CreateGeneralPlans | games/management/commands/setup_data.py:293-344 | The plan table is `GeneralPlans` of the old one. |
| SetupData.Db.Handle | games/management/commands/setup_data.py:34-51 | `--plans-only` leaves categories and games alone. `--categories-only` leaves plans alone. Otherwise the plan table is the console pass (`ConsolePlansApplied`) followed by `GeneralPlans`. Without `--force` no existing plan changes. |
| SetupData.UnforcedKeepsPlans | games/management/commands/setup_data.py:262-274 | Without force, the console pass leaves every existing plan as it was. |
| PopulateGames.ExtractConsole | games/management/commands/populate_games.py:164-186 | The console is always one of the ten labels. |
| PopulateGames.FirstMatchRules | games/management/commands/populate_games.py:166-186 | The reference classifier gives the console of the first rule that fires, and 'Outros' when none fires. |
| PopulateGames.ExtractIsFirstMatch | games/management/commands/populate_games.py:164-186 | The if-chain equals the first-match rule over the table of patterns. |
| PopulateGames.ExtractConsoleOrder | games/management/commands/populate_games.py:166-186 | A name containing 'SNES' is never NES and one containing 'GBA' is always GBA. 'Outros' if and only if no pattern occurs. |
| PopulateGames.CutAtParen | games/management/commands/populate_games.py:194-195 | With both parentheses present, the result is the text up to its first '(', which it does not include. Otherwise the text is kept. |
| PopulateGames.CleanImageUrl | games/management/commands/populate_games.py:188-196 | A `[...]` link loses its brackets and, if parenthesised, everything from the first '('. The result is stripped, is no longer than the input and uses only its characters. |
| PopulateGames.CleanImageUrlBracketed | games/management/commands/populate_games.py:190-196 | A bracketed link with parentheses keeps no '('. One without a '(' is just its stripped inside. |
| PopulateGames.Convert | games/management/commands/populate_games.py:215-238 | A record crashes the loop if and only if it has no `nome`. The error handler reads that key again and raises. |
| PopulateGames.ConvertRules | games/management/commands/populate_games.py:215-238 | A game is created exactly when `in` accepts `nome` (a string, array or object), the image link is a string and the description is storable. The insert is refused exactly when the description is null. A created game has the cleaned image and a console label. A string name and description are stored unchanged, and a string name gets its console. |
| PopulateGames.LoadFrom | games/management/commands/populate_games.py:214-240 | At most one game per record. |
| PopulateGames.LoadFromCrashes | games/management/commands/populate_games.py:214-240 | The loop crashes if and only if some record lacks `nome`. |
| PopulateGames.LoadFromKeepsOrder | games/management/commands/populate_games.py:214-240 | Without a crash, each record that converts becomes exactly one game, in order. |
| PopulateGames.LoadRecords | games/management/commands/populate_games.py:215-238 | The loop creates exactly the games `LoadFrom` gives, and reports its crash and any refused insert. |
| PopulateGames.LoadFromRejects | games/management/commands/populate_games.py:215-238 | Without a crash, an insert is refused exactly when some record is refused by the database. |
| PopulateGames.AllGames | games/management/commands/populate_games.py:328 | Exactly all games. |
| PopulateGames.PlansAfterRules | games/management/commands/populate_games.py:296-333 | Both plans exist afterwards and other plans are kept. Basic holds the four consoles' games and Premium all games whenever they were created or forced. Premium covers Basic. |
| PopulateGames.RecordsOf | games/management/commands/populate_games.py:255-265 | The file yields no records exactly when it is missing or not JSON. |
| PopulateGames.Catalog.Populate | games/management/commands/populate_games.py:198-294 | With games present and no `--force`, nothing changes. `--force` empties games and plans. A file error stops there. Otherwise a crash or a refused insert is reported, and without a refused insert the loaded games are appended. |
| PopulateGames.Catalog.CreatePlans | games/management/commands/populate_games.py:296-333 | The plan table is `PlansAfter` of the old one. |
| PopulateGames.Catalog.Handle | games/management/commands/populate_games.py:140-162 | A crash or a refused insert rolls games and plans back. A committed load leaves the loaded records' games appended to the catalog, which `--force` empties first; a file error leaves the catalog as populate left it. The plans are then created unless `--no-plans`, over that game table. |
| PopulateFromJson.FreshPlans | populate_games_from_json.py:103-124 | Basic at 19.90 with exactly the four classic consoles' games, Premium at 39.90 with every game. Basic is inside Premium. |
| PopulateFromJson.FreshPlansAgree | populate_games_from_json.py:103-124 | On an empty plan table the command's plan step builds the same two plans as the script. |
| PopulateFromJson.PopulateGamesScript | populate_games_from_json.py:53-127 | Always wipes the catalog. A bad file leaves it empty. A crash leaves the games created before it and no plans. Success loads every convertible record and creates both plans. A refused insert only skips its record. |
| PopulateFromJson.ScriptMatchesForcedCommand | populate_games_from_json.py:53-127 | On a load without a crash, the script and the forced command create the same plans over the same games. |
| SearchUtils.UrlRun | games/utils.py:62-64 | The longest run of URL characters at the start of the text. |
| SearchUtils.MatchAt | games/utils.py:62-64 | A URL match starts with 'http://' or 'https://' and holds only URL characters. |
| SearchUtils.FirstUrl | games/utils.py:62-76 | None if and only if the text has no URL. Otherwise the leftmost match. |
| SearchUtils.EmbedNone | games/utils.py:12-124 | No embed URL if and only if one of these holds: the fetch failed; the page says it is offline; or there is no textarea URL and the game URL has neither '/play/' nor '/embed/'. |
| SearchUtils.EmbedFromTextarea | games/utils.py:50-76 | A textarea URL keeps its scheme and ends in no trailing punctuation. It is a prefix of the URL found. |
| SearchUtils.TrimKeepsScheme | games/utils.py:73 | Trimming trailing punctuation never eats into the scheme. |
| SearchUtils.EmbedFromPlayUrl | games/utils.py:99-103 | Without a textarea URL, a '/play/' game URL gives an embed URL containing '/embed/'. |
| SearchUtils.MakeResult | games/utils.py:222-231 | Every result built has a title of at most 100 characters and carries the embed URL of its game, or the game URL itself. |
| SearchUtils.LinkCandidate | games/utils.py:168-233 | A link is dropped if and only if one of these holds: its title or image title is 'Retro Games'; it has no image; it has no image source; or its href is empty or neither a site path nor an 'http' URL. Otherwise it gives a well-formed result for its game URL. |
| SearchUtils.CardCandidate | games/utils.py:247-299 | The same for a card of the second strategy, including the card's own title. |
| SearchUtils.LinkCandidates | games/utils.py:168 | One candidate per link, in order. |
| SearchUtils.CardCandidates | games/utils.py:247 | One candidate per card, in order. |
| SearchUtils.GatherRules | games/utils.py:168-233 | A selection loop keeps what it had as a prefix, never passes the maximum, adds only candidates, and keeps game URLs distinct. |
| SearchUtils.GatherComplete | games/utils.py:168-233 | A loop that stops short of the maximum has kept every candidate's game URL. |
| SearchUtils.SearchRules | games/utils.py:127-313 | At most the maximum number of results, none when it is not positive. No game URL repeats and every result is well formed. |
| SearchUtils.SearchKeepsLinks | games/utils.py:168-239 | A search short of the maximum holds every usable link's game URL. |
| SearchUtils.SelectLinks | games/utils.py:168-233 | The first loop computes `Gather` over the links' candidates. |
| SearchUtils.SelectCards | games/utils.py:239-299 | The second loop continues `Gather` over the cards' candidates. |
| SearchUtils.SearchGamesOnRetrogames | games/utils.py:122-313 | A failed request raises (None). Otherwise the result is `Search` of the page. |
| SearchUtils.RaisingQueryContributesNothing | games/utils.py:329-335 | A query whose search raises contributes nothing. Dropping it leaves the combined results unchanged. |
| SearchUtils.UrlsHas | games/utils.py:340-343 | A game URL is in the set of a list's URLs if and only if some result has it. |
| SearchUtils.FirstOccurrencesDistinct | games/utils.py:338-345 | The deduplicated list has distinct game URLs and is no longer than its input. |
| SearchUtils.FirstOccurrencesUrls | games/utils.py:338-345 | Deduplication loses no game URL. |
| SearchUtils.FirstOccurrencesOfDistinct | games/utils.py:338-345 | A list without repeated game URLs is its own deduplication. |
| SearchUtils.SearchMultipleGames | games/utils.py:316-345 | The combined results of every query that did not raise, each game URL kept at its first occurrence. |

## Left out

- Terminal output is not modelled: messages, `print`, logging and the statistics commands (`show_stats`, `show_statistics`). None of them changes state.
- SHA-256 and `secrets.token_urlsafe` are abstract. The model assumes an injective hash and a generator that never repeats a secret. Hash collisions and secret collisions are outside it.
- `populate_games` draws each game's price at random. The model leaves prices out of `GameRec`.
- Concurrency is not modelled. Two requests racing on the same token or session, and the database's locking, are outside the model. Each view runs alone.
- `GAMES_DATA`, the built-in list of `populate_games`, is a parameter (`Source.Builtin`) rather than its literal contents.
- The order in which the database returns rows is a parameter. This covers the games of the slug migration, a plan's games in the payment view, and the distinct consoles in `setup_data`. The model proves that results do not depend on that order where it matters.
- `str.lower()` and `str.strip()` are modelled on ASCII. Unicode case folding and Unicode whitespace are not modelled.
- The regular expression of `_extract_embed_url` uses `\s` in its character class. `UrlChar` uses ASCII whitespace for it.
- PopulateGames.Convert: the `str()` form of a non-string JSON value, which Django stores for a title or description, is carried in the record (`Field.text`) rather than computed.
- The length limits of `CharField` columns (such as the 200 characters of `Game.title`) are not modelled. Whether the database enforces them depends on its backend.
- Category and plan names are not unique in the schema (games/models.py:11 and :51). The model keys categories and plans by name, so it assumes one row per name. With duplicate names, `Category.objects.get` and `Plan.objects.get_or_create` raise `MultipleObjectsReturned` and the command rolls back, and `filter(name=...).first()` updates only one of the rows. Neither is modelled.
- PopulateGames.RecordsOf: a JSON file whose value is not a list, or whose items are not objects, is not modelled. Its items are taken to be records with the three fields.
- HTTP, BeautifulSoup and the URL helpers are not modelled. The network, HTML parsing, `urljoin` and the path-to-title conversion of `games/utils.py` are inputs through `Env` and `SearchPage`. So are the class filter that picks game cards and the selection of links with an `href`.
- The HTML views that only render templates (`payment_session`, `purchase_confirmation`, the catalog pages, `api_get_game_info`, `api_user_tokens`) are not modelled. They do not change state.
- The functions `extract_console_from_name` and `clean_image_url` of `populate_games_from_json.py` are textually the same as the command's. The script's model reuses `PopulateGames.ExtractConsole` and `PopulateGames.CleanImageUrl`.
- Django's `DecimalField` is not modelled. Amounts and prices are integer cents.
- Views.PayForGame: the 500 on an entitlement that already exists is modelled as the transaction's rollback. The error page itself is not.
