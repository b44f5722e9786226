# spreadbot: market state tracking and live-spread detection, in Dafny

This project models the engine of `spreadbot.py`, a bot that polls the Polymarket feed and
alerts on markets with a "live" spread. It covers these parts:

- **Snapshot store** (`MarketState`, module `Store`). It is a class holding a
  `map<string, Snapshot>`. `Update` merges an observation in place. It sets the counter to 1
  for an unseen id and to the prior counter plus one otherwise; a missing counter counts as 0.
  `Get` looks an id up. The function `Merge` states the new map.
- **Normaliser** (`parse`, module `Normalizer`). It turns a raw record into a `Market` or
  nothing. A raw numeric field is either absent, a value `float()` accepts, or a value it
  rejects. Bid defaults to 0, ask to 1 and volume to 0. The spread is the larger of the
  reported spread and ask minus bid. The slug comes from the first event.
- **Live detector** (`is_live`, module `Detector`). It is a pure function of the config, the
  observation and the prior snapshot. It gives no score without a prior snapshot. Otherwise
  it applies five gates, and the score is volume delta × price move × spread.
- **Ranking** (module `Ranking`). Python's stable `sort(reverse=True)` is written as an
  insertion sort that puts a later entry after the earlier ones with an equal score. The
  slice `[:MAX_ALERTS_PER_CYCLE]` follows Python's rules, negative bounds included.
- **Cycle** (`run_once`, module `Cycle`). `LiveSpreadBot.RunOnce` loops over the fetched
  records. Each parsed market is scored against the store before it is merged. Non-zero
  scores are kept, then ranked and cut. The method is proved against the fold `Process`, and
  the lemmas about `Process` state the ordering and counting properties.
- **Text** (module `Text`). This covers `clean_question` (URL deletion as `re.sub` scans,
  then `split`/`join`/`strip`), `generate_market_link` and the alert title.

Prices and volumes are `real`. The clock is a parameter `now`.

## Model

| member | source | states |
|---|---|---|
| `Store.MarketState.constructor` | spreadbot.py:82-84 | the store starts as the loaded map |
| `Store.MarketState.Get` | spreadbot.py:106-107 | a result exactly when the id is stored, and then the stored snapshot |
| `Store.Lookup` | spreadbot.py:97 | `dict.get`: a result exactly when the id is a key, and then its value |
| `Store.MarketState.Update` | spreadbot.py:96-104 | the new map is `Merge` of the old one; `Get` of the id then gives the prior count plus one; every other id's `Get` is unchanged |
| `Store.Merge` | spreadbot.py:96-104 | keys gain only the id; its volume, bid, ask and time are the observation's; counter 1 when unseen, else prior counter (0 if missing) + 1; all other entries unchanged |
| `Store.MergeIncrements` | spreadbot.py:103 | the counter after a merge is exactly one above the prior count |
| `Normalizer.Parse` | spreadbot.py:170-196 | result exactly when id present, all four numbers coercible and first event readable; spread ≥ ask − bid, ≥ reported spread, and equal to one of them; defaults bid 0, ask 1, volume 0, question "No title"; slug of the first event or none |
| `Normalizer.MissingQuotesGiveWidestSpread` | spreadbot.py:172-174 | a record with only an id parses with spread 1 and no slug |
| `Detector.PassesGates` | spreadbot.py:230-239 | defines the five gates of `is_live`: volume delta, price move, counter (missing read as 1), volume floor, spread band; `Detector.IsLive` and `Detector.EachGateVetoes` state what they decide |
| `Detector.PriceMove` | spreadbot.py:227 | the L1 quote move is non-negative and zero exactly when both quotes are unchanged |
| `Detector.IsLive` | spreadbot.py:221-241 | no score without a prior snapshot; a score exactly when all five gates pass (missing counter read as 1); the score is volume delta × price move × spread |
| `Detector.EachGateVetoes` | spreadbot.py:230-239 | any single value on the wrong side of its threshold gives no score |
| `Detector.ScoreSign` | spreadbot.py:241 | with non-negative floors a score is ≥ 0, and is 0 exactly when volume, quotes or spread did not contribute |
| `Detector.ExampleScores` | spreadbot.py:226-241 | prior {100000, .40, .45, p=2} and new {150000, .30, .60, spread .30} score 3750 under the defaults |
| `Detector.ExampleSpreadTooWide` | spreadbot.py:238-239 | the same with ask .96 (spread .66) gives no score |
| `Ranking.Insert` | spreadbot.py:263 | one longer, and the same multiset plus the inserted entry |
| `Ranking.SortDesc` | spreadbot.py:263 | a permutation of the input (same length and multiset) |
| `Ranking.SortDescStable` | spreadbot.py:263 | sorted by non-increasing score, and for every score the entries with it keep their input order |
| `Ranking.Take` | spreadbot.py:264 | Python's `l[:n]`: a prefix of length min(n, len) for n ≥ 0, len + n (floored at 0) for n < 0 |
| `Ranking.Select` | spreadbot.py:263-264 | defines the selection as the stable descending sort cut by Python's slice to the alert limit; the three `Ranking.Select…` lemmas state its properties |
| `Ranking.SelectSortedAndBounded` | spreadbot.py:263-264 | the selection is sorted non-increasing and has min(limit, count) entries |
| `Ranking.SelectIsTopPrefix` | spreadbot.py:263-264 | the selection is a sub-multiset of the live entries, and each selected entry scores ≥ every live entry left out |
| `Ranking.SelectKeepsProcessingOrder` | spreadbot.py:263-264 | for every score, the selected entries with it are the first live entries with it, in processing order |
| `Text.NextSpace` | spreadbot.py:201 | the greedy `[^\s]+` run ends at the first whitespace at or after the start, or at the end |
| `Text.StripUrls` | spreadbot.py:201 | defines the `re.sub` scan: at a match the run up to the next whitespace is deleted and the scan resumes there, otherwise one character is kept; the `Text.StripUrls…` lemmas state what it keeps and deletes |
| `Text.StripUrlsAroundSpace` | spreadbot.py:201 | a deletion never crosses whitespace: cleaning `a + c + b` for whitespace `c` is cleaning `a`, keeping `c`, cleaning `b` |
| `Text.FirstUrl` | spreadbot.py:201 | the first position of a string where a match starts, or its length; no match starts before it |
| `Text.StripUrlsInWord` | spreadbot.py:201 | within a whitespace-free run, everything before the first match is kept and everything from it on is deleted |
| `Text.StripAfterUrl` | spreadbot.py:201 | what follows a deleted match starts with the whitespace that ended it |
| `Text.Words` | spreadbot.py:203 | `split()` yields only non-empty words without whitespace; with the three lemmas below it is exactly the maximal non-whitespace runs |
| `Text.WordsKeepEveryCharacter` | spreadbot.py:203 | the words run together are the input with its whitespace removed: no character is lost, added or reordered |
| `Text.WordsAroundSpace` | spreadbot.py:203 | a split at whitespace `c` splits the word list there: the words of `a + c + b` are those of `a` followed by those of `b` |
| `Text.WordsOfWord` | spreadbot.py:203 | a non-empty run without whitespace is one word |
| `Text.Join` | spreadbot.py:203 | defines `' '.join`: the words with one plain space between neighbours; `Text.JoinNormalised` and `Text.WordsOfJoin` state its properties |
| `Text.TrimStartIsSuffix` | spreadbot.py:204 | `lstrip` leaves a suffix that does not start with whitespace, and drops only whitespace |
| `Text.TrimEndIsPrefix` | spreadbot.py:204 | `rstrip` leaves a prefix that does not end with whitespace, and drops only whitespace |
| `Text.Strip` | spreadbot.py:204 | `strip` leaves no whitespace at either end, and returns a string without edge whitespace unchanged |
| `Text.StripUrlsLeavesNoUrl` | spreadbot.py:201 | after the `re.sub`, no `http://`/`https://` followed by a non-whitespace character remains |
| `Text.StripUrlsWithoutUrl` | spreadbot.py:201 | text without such URLs is left unchanged by the `re.sub` |
| `Text.JoinNormalised` | spreadbot.py:203-204 | joining such words gives no edge whitespace, no double whitespace, only plain spaces |
| `Text.WordsOfJoin` | spreadbot.py:203 | `split` after `' '.join` gives the words back |
| `Text.CleanQuestion` | spreadbot.py:198-204 | defines `clean_question` as URL deletion, then split and join, then strip; the `Text.CleanQuestion…` lemmas state its properties |
| `Text.CleanQuestionKeepsWords` | spreadbot.py:198-204 | the words of the cleaned question are exactly the words left after the URL deletion |
| `Text.CleanQuestionNormalised` | spreadbot.py:198-204 | the cleaned question has no edge whitespace, no two whitespace characters in a row, only plain spaces, and no URL |
| `Text.CleanQuestionIdempotent` | spreadbot.py:198-204 | cleaning twice equals cleaning once |
| `Text.CleanQuestionWithoutUrls` | spreadbot.py:198-204 | on URL-free input, cleaning is whitespace normalisation only |
| `Text.MarketLink` | spreadbot.py:206-219 | every link starts with the site root `https://polymarket.com` and ends with `?via=` and the referral code; without a non-empty slug it is exactly `https://polymarket.com?via=` followed by the code |
| `Text.LinkRoundTrip` | spreadbot.py:212-219 | the slug is read back from the event link when non-empty; the fallback link reads back as no slug |
| `Text.Title` | spreadbot.py:273-275 | the title starts with the cleaned question, followed by `" - "` and the group title when that is non-empty, and is the cleaned question otherwise |
| `Cycle.Entry` | spreadbot.py:254-255 | a live entry exactly when the score is present and non-zero, carrying that score and market |
| `Cycle.Step` | spreadbot.py:247-255 | defines one loop iteration: an unparseable record changes nothing; a parsed market is scored against the store, then merged, and a non-zero score is appended |
| `Cycle.Process` | spreadbot.py:246-255 | defines the loop over the records as a fold of `Cycle.Step`; the `Cycle` lemmas below state its properties |
| `Cycle.StepWritesSnapshot` | spreadbot.py:252 | after a parsed record, the store holds its quotes, volume and time, with the counter one above the prior count |
| `Cycle.StepKeepsOtherIds` | spreadbot.py:247-252 | a record that does not parse into a given id leaves that id's entry alone |
| `Cycle.SnapshotUntilNext` | spreadbot.py:246-252 | the snapshot written by record `i` stays in the store until the next record with that id |
| `Cycle.ProcessCountsOccurrences` | spreadbot.py:246-252 | after a batch, an id parsed n > 0 times has counter prior count + n; an id not parsed keeps its entry or its absence |
| `Cycle.UnparseableIsSkipped` | spreadbot.py:247-249 | removing an unparseable record anywhere in the batch changes neither store nor live list |
| `Cycle.OnlyRepeatSightingsScore` | spreadbot.py:222-224 | every live entry's id was already stored or occurs at least twice in the batch |
| `Cycle.FirstSightingDoesNotScore` | spreadbot.py:222-224 | the first occurrence in a batch of an id not in the store leaves the live list unchanged |
| `Cycle.LiveEntriesAreParsedNonZero` | spreadbot.py:247-255 | every live entry has a non-zero score and a market parsed from one of the records |
| `Cycle.EvaluatedBeforeUpdate` | spreadbot.py:246-255 | in any batch, record `i` is scored against the store left by the records before it and only then merged in; scoring after its own update would never alert |
| `Cycle.SecondOccurrenceSeesFirst` | spreadbot.py:246-255 | in any batch, the next occurrence `j` of the id of record `i` is scored against the snapshot record `i` wrote (its quotes, volume, the cycle's time, the counter one above the one before `i`) |
| `Cycle.PersistenceCountsCycles` | spreadbot.py:103 | an unseen id present once in each of N consecutive cycles is stored with counter N |
| `Cycle.NoticeFor` | spreadbot.py:266-275 | defines one alert's parts: the title from the cleaned question and the group title, and the referral link; `Text.Title` and `Text.MarketLink` state their properties |
| `Cycle.ComposeNotices` | spreadbot.py:266-275 | one notice per selected market, in selection order, each the title and link of that market |
| `Cycle.LiveSpreadBot.constructor` | spreadbot.py:138-141 | the bot holds the configuration and a fresh store with the loaded map |
| `Cycle.LiveSpreadBot.RunOnce` | spreadbot.py:243-275 | the store becomes `Process` of the records in order; the selection is the stable descending ranking of the live entries cut to the limit; one title and link per selected market, in order |

## Left out

- `fetch` (HTTP pagination) is not modelled; its result is the parameter `raws` of `RunOnce`.
- `TelegramNotifier` and the send loop's delivery and pacing (a thread with an event loop) are
  not modelled. `RunOnce` returns the title and link of each alert instead.
- The numeric part of the alert text (`:.4f`, `:.1f`, `:,.0f` float rendering) is not modelled.
- `run`'s endless loop, its sleep and its catch-all exception logging are not modelled.
- `load_config`, `load_dotenv` and the logging setup are not modelled, and neither are the log calls in `generate_market_link`.
- `MarketState._load` and `save` (JSON file I/O) are not modelled. The constructor takes the loaded map, and no save/load round trip is stated.
- Floating point is idealised as `real`: no rounding, no NaN, no infinities. `float()` coercion is abstracted to "accepted value or failure".
- Cycle.LiveSpreadBot.RunOnce: the clock reading `now` is one value per cycle, whereas the source reads `time.time()` at each update. Only `last_seen` depends on it.
- Store.MarketState.Get: a stored snapshot always has volume, bid and ask. A loaded record without them (a `KeyError` in `is_live`), or an empty one (which is falsy), is not represented. Only a missing `persistence` key is represented.
- Normalizer.Parse: a JSON null or non-string `question` is not represented (the source would fail later in `clean_question`). A truthy non-list `events` value is represented only through its failure, as a first entry that is not an object.
- Text.IsSpace: the whitespace set is Python's `str.isspace`. The model assumes `re`'s `\s` matches the same set.
