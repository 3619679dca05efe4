# Revendications — a Dafny model of the demand store, its routes and the client logic

This project models the logic of the "Revendications" citizen-participation
application. The application serves themed lists of civic demands
("revendications"). Visitors cast simple votes (oui / non / abstention) and
spread a budget of priority points over demands. Language-model providers
generate an analysis text, an illustration and a proposed solution for each
demand. The model covers the parts of the program that compute something:

- the server's demand store in `srv.js`:
  - it normalises the category documents on load and shapes the records it saves;
  - it keeps the category rename table and reads it backwards;
  - it looks a demand up by id, first match in category order.
- the two mutation routes `/api/vote` and `/api/vote-score`, the `/api/stats`
  fold and the prepend-only analysis log;
- the retry wrapper `retryApiCall` in both variants:
  - `srv.js` gives up at once on HTTP 429;
  - `serveur.js` retries every failure.
- the five-attempt image loop and its `mediaUrl` mapping, `/api/full-analysis`,
  `/api/detail` and `/api/optimise`;
- the client's pure logic:
  - the point budget and slider range (`docs/score-vote.js`);
  - the top-five action hub and the priority table (`docs/dashboard.js`);
  - pagination and navigation (`docs/script.js`, `docs/revendications.js`);
  - the static-data adapter and the hash router (`docs/app.js`).

Modelling conventions:

- A JavaScript object used as a dictionary is an association list in
  insertion order (`OrderedMap`). `obj[k] = v` replaces the first entry for `k`
  in place, or appends a new entry. Two lemmas, `PutShape` and `GetShape`, state
  this once.
- The corpus is an ordered `seq<(string, seq<Demand>)>`, so "first match in
  category order" can be stated.
- A demand's `votes` object is a `map<Counter, int>` that may lack a counter,
  because the loader keeps a stored partial object as it is.
- JavaScript's `x || d` on strings and numbers is `StringOr` / `IntOrZero`.
  Absent values are `Option`.
- Every remote call is an oracle sequence of attempt outcomes. Each retrying
  operation returns its result, the number of calls made and the list of
  waits in milliseconds. Nothing sleeps.
- File contents, directory listings and `localStorage` are parameters. A
  write is the document it would write.
- Clock values are opaque string parameters.

Where the code and the design description of the application disagree, the
model follows the code:

- The text retry waits only between attempts. Three failures wait 1000 ms and
  then 2000 ms, 3 s in total, not 1 s + 2 s + 4 s (`Retry.TotalWait`).
- A non-quota failure of the fifth image attempt is rethrown. `Promise.all`
  then rejects, and the route catches nothing, so the handler's promise
  rejects uncaught instead of the route answering with its analysis
  (`Analysis.FullAnalysis`, `Analysis.ImageLoopRejects`).
- An image attempt that failed earlier leaves `mediaUrl` at 'error'. Later
  empty responses then end the loop on 'error' and a null `mediaUrl`, not on
  'not_generated' (`Analysis.ImageLoopEmptyEnd`). The fifth empty response
  still waits its 500 ms.
- A directory that cannot be listed keeps the previous corpus rather than
  emptying it. An unreadable category file stops the loading loop, and the
  categories loaded before it stay (`Store.LoadAll`).
- `/api/vote` accepts a vote type only when the demand's `votes` object holds
  that counter (`item.votes[voteType] !== undefined`). A stored record with a
  partial `votes` object therefore rejects the missing counter with 400.
- The `totalVotes` of `/api/stats` is the sum of the priority scores
  (`totalScore`), not of the simple votes. The dashboard nevertheless labels
  it "Votes Simples Enregistrés".
- The action hub ranks by `totalScore` only.
- A log entry stores `itemId`, `revendication`, `detailHtml`, `solutionHtml`,
  `mediaUrl` and a timestamp, and nothing else. No route reads the log back.
- `/api/stats` reloads everything from disk before counting
  (`Stats.StatsRouteProperties`). The in-memory analysis log is replaced by
  the stored one, and emptied when the file cannot be read.
- The pager of `docs/revendications.js`, the one `docs/app.js` calls, never
  shows a page other than the first (see Findings).
- The static fallback replaces only the first 'é' of a title
  (`.replace('é', 'e')` with a string pattern). A browser percent-encodes the
  remaining 'é' in the hash, so such a section can be neither reached from the
  menu nor settled on by a redirect (see Findings).

## Model

| member | source | states |
|---|---|---|
| OrderedMap.PutShape | srv.js:109 | writing a key of an object replaces its first entry in place when present and appends `(k, v)` at the end otherwise |
| OrderedMap.GetShape | srv.js:409 | reading a key with a fallback gives the value of the first entry for `k`, or the fallback when the key is absent |
| OrderedMap.PutHasKey | srv.js:109 | after a write the object holds exactly its old keys plus the written key |
| OrderedMap.PutKeepsDistinct | srv.js:406 | a write never duplicates a key; the object grows by one entry only for a new key |
| OrderedMap.PutGet | docs/score-vote.js:224 | after `obj[k] = v` the key reads `v` and every other key reads what it read before |
| OrderedMap.SumPut | docs/score-vote.js:31 | overwriting one entry changes the sum of the values by the new value minus the old one (absent counting 0) |
| Demands.CounterSum | docs/score-vote.js:65 | `votes.oui + votes.non + votes.abstention` is a number exactly when all three counters exist, and then equals the total with missing counters read as 0 |
| Demands.ParseCounter | srv.js:434 | a vote type names a counter exactly when it is 'oui', 'non' or 'abstention', and the counter's name is that string |
| Demands.Replace | srv.js:435-436 | an in-place update of one demand keeps every key, every category length and every other demand |
| Store.Stem | srv.js:88 | the parsed file name, with '.json' appended, is the file name again; it is never empty |
| Store.KeyForValue | srv.js:124 | the reverse lookup returns a key whose entry maps to the value, and nothing when no entry does |
| Store.Normalise | srv.js:94-106 | a loaded record gets `totalVotes` = oui + non + abstention with missing counters as 0, the id `<key>-<index>` when it has none, zero votes, 'Législatif', 'Faible' and score 0 as defaults, and the category key |
| Store.LoadCategory | srv.js:94-107 | a category keeps its record count and order, record i being normalised with index i, and every record is consistent and filed under the key |
| Store.PutLoaded | srv.js:109 | storing a freshly loaded category keeps the corpus free of duplicate keys and every record normalised |
| Store.LoadFilesProperties | srv.js:86-111 | the loop over the listing keeps a loaded corpus loaded, keys come only from category files (not the log) under the renamed file stem, and with every file readable every category file's key is present |
| Store.LoadAllProperties | srv.js:70-117 | a failed listing keeps the previous corpus; a successful one yields a loaded corpus whose keys all come from category files |
| Store.SaveRecord | srv.js:127-130 | a saved record drops `totalVotes`, keeps `totalScore` and keeps every other field (id, category, text, votes, RIC type, priority) as held in memory |
| Store.NormaliseSaveRecord | srv.js:127-129 | loading a saved record back at any index gives the in-memory demand again |
| Store.RenameRoundTrip | srv.js:124 | the reverse lookup undoes the rename table: the stem a key is saved under maps back to the same key |
| Store.StemOfSavedName | srv.js:125 | a saved file name is a category file whose parsed stem is the stem it was saved under |
| Store.SavedFileReloadsToSameKey | srv.js:89 | a category saved under its key is reloaded under that same key ('democratie' is written to 'demcratie.json') |
| Store.SaveThenLoad | srv.js:122-132 | loading a saved category document gives back the same key and the same demands in the same order |
| Store.FindIn | srv.js:163 | `Array.find` by id returns the first position holding the id, or none when no demand has it |
| Store.FindById | srv.js:161-169 | the lookup returns the first demand with the id in category order then list order, and nothing only when no demand has it |
| AnalysisLog.SaveAnalysisLog | srv.js:142-148 | the timestamped entry is put at the front, the log grows by one and earlier entries shift by one unchanged |
| AnalysisLog.LogAnalysis | srv.js:303-319 | the request is refused (400, log unchanged) exactly when itemId, revendication, detailHtml or solutionHtml is missing or empty; otherwise one entry with `mediaUrl` defaulting to 'N/A' is prepended |
| AnalysisLog.LogIsPrependOnly | srv.js:148 | successive logs only add at the front: one entry per call, the earlier log intact as the suffix, the newest analysis first |
| Retry.RetryFrom | srv.js:175-190 | from attempt i the loop makes at most maxRetries calls, waits `2^j·1000` ms after each failed attempt j it retries, returns the first success, and rethrows a failure only when it is a 429 (srv.js) or the last allowed attempt |
| Retry.RetryApiCall | srv.js:174-191 | the wrapper makes between 1 and maxRetries calls with waits 1000, 2000, … between them, returns the first success and rethrows the deciding failure; with maxRetries ≤ 0 it makes no call and settles to `undefined` |
| Retry.PoliciesAgreeWithoutQuota | serveur.js:42-54 | without a 429 among the allowed attempts, the serveur.js wrapper makes the same calls, waits and result as the srv.js one |
| Retry.PoliciesAgreeWithoutQuotaFrom | serveur.js:43-52 | the same agreement from any attempt on |
| Retry.BackoffSum | srv.js:187 | the first n backoff waits add up to (2^n − 1)·1000 ms |
| Retry.TotalWait | srv.js:184-188 | the total wait of a call is (2^(calls−1) − 1)·1000 ms, so at most 3000 ms with the default three attempts |
| Retry.QuotaOnFirstAttempt | srv.js:179-182 | a 429 on the first attempt is rethrown after one call and no wait, where the serveur.js wrapper goes through every attempt |
| Analysis.TextAnalysis | srv.js:223-239 | the text branch never fails: the content or 'Analyse textuelle non générée.' on success, an error banner carrying the message otherwise, never empty |
| Analysis.ImageStep | srv.js:261-281 | one pass of the loop goes on to the next attempt exactly when the response is empty or the failure is not a 429, before the fifth attempt, after a 1000 ms wait for a failure and 500 ms for an empty response |
| Analysis.ImageLoop | srv.js:248-283 | the loop makes at least one and at most five calls, and the last attempt made is one it does not retry |
| Analysis.ImageLoopFirst | srv.js:248-283 | every attempt before the last one made was retried, so the loop stops at the first inline image, the first 429 or the fifth attempt |
| Analysis.ImageLoopImage | srv.js:262-265 | a loop that stops on inline image data resolves to its `data:<mime>;base64,<data>` URI |
| Analysis.ImageLoopQuota | srv.js:271-274 | a loop that stops on a 429 resolves to 'error' |
| Analysis.ImageLoopRejects | srv.js:277 | any other failure is rethrown, and only on the fifth attempt |
| Analysis.ImageLoopEmptyEnd | srv.js:267-268 | a loop that ends on an empty response made all five calls and resolves to 'error' when some attempt failed, to 'not_generated' otherwise |
| Analysis.ImageLoopDelayCount | srv.js:268 | there is one wait per retried attempt, plus a final one when the last response was empty |
| Analysis.ImageLoopDelays | srv.js:279 | the waits, in order, are 1000 ms after each failed attempt and 500 ms after each empty response |
| Analysis.ImageGeneration | srv.js:244 | without a Gemini client the branch resolves to 'disabled' with no call; with one it makes one to five calls, never resolves to 'disabled', rejects only after five calls, and stops at the first attempt it does not retry |
| Analysis.MediaUrlNullExactly | srv.js:295 | the reply's `mediaUrl` is null exactly for 'disabled' and 'error', and otherwise the branch's string |
| Analysis.FiveFailuresReject | srv.js:276-279 | five non-quota failures reject the branch after five calls and four one-second waits |
| Analysis.FullAnalysis | srv.js:203-297 | a missing topic gives 400 with no call; otherwise the text branch is called one to three times, the image branch calls nothing exactly when disabled, a rejected image branch makes the handler's promise reject uncaught, and the reply carries the text branch's string and the mapped `mediaUrl` |
| Analysis.NoImageClient | srv.js:244 | with image generation off a request with a topic is answered with a null `mediaUrl` and no image call |
| Analysis.GenerationRoute | serveur.js:117-173 | a generation route answers 400 with no call exactly when its parameter is missing; otherwise it makes the wrapper's calls and answers the content or its fallback (never empty), or 500 carrying the last failure's message |
| Analysis.Detail | serveur.js:60-111 | `/api/detail` answers 400 exactly without `text`, 'Pas de détail généré.' for an empty completion, and 500 only after three failed calls |
| Analysis.Optimise | srv.js:330-386 | `/api/optimise` answers 400 exactly without `detail`, 'Pas de solution générée.' for an empty completion, and, in the serveur.js variant, 500 only after three failed calls |
| Analysis.OptimiseVariantsAgree | serveur.js:117-173 | without a 429 the srv.js and serveur.js `/api/optimise` handlers give the same reply after the same calls |
| Analysis.OptimiseQuotaAbort | srv.js:179-182 | repeated 429s make the srv.js `/api/optimise` answer 500 after one call and the serveur.js one after three |
| Mutations.Vote | srv.js:419-443 | 400 when id or voteType is missing, then 404 for an unknown id, then 400 for a type the demand has no counter for (nothing written); otherwise only that counter of the first matching demand goes up by one, `totalVotes` is the new sum, nothing else changes and the category is rewritten |
| Mutations.VoteScore | srv.js:446-469 | 400 when the id is missing or `scoreChange` is not a non-zero number, checked before lookup; 404 for an unknown id; otherwise only that demand's `totalScore` moves by `scoreChange`, unclamped, and the category is rewritten |
| Mutations.FindByIdSameIds | srv.js:161-169 | the lookup depends on the ids alone, so an update that keeps every id keeps every lookup |
| Mutations.VoteKeepsLoaded | srv.js:434-436 | after any vote request the store still has distinct keys and every demand normalised, `totalVotes` included |
| Mutations.VoteScoreKeepsLoaded | srv.js:461 | after any score request the store still has distinct keys and every demand normalised |
| Mutations.VoteRaisesTotalByOne | srv.js:435-436 | a recorded vote reports a `totalVotes` one above the demand's previous one |
| Mutations.ScoreStep | srv.js:461-468 | one accepted delta moves the score by the delta, reports the new score, and leaves the id found at the same place |
| Mutations.ScoreChangesTotal | srv.js:461 | a run of non-zero deltas on an existing id ends at the starting score plus their sum, with the demand still found at the same place |
| Mutations.ScoreChangeReply | srv.js:466-469 | the i-th reply of such a run reports the starting score plus the first i + 1 deltas |
| ScoreVote.SubmitScore | docs/score-vote.js:210-228 | no item id does nothing; an unchanged score neither stores nor sends; otherwise the delta new − old (old absent as 0) is sent, non-zero, and the budget is reloaded from the stored scores, which now hold the item |
| ScoreVote.SubmitScoreEffect | docs/score-vote.js:224-228 | a submitted change sets only this item's score, lowers the points available by exactly the delta, and keeps them non-negative exactly when the score is within the slider's range (points left plus the item's own) |
| ScoreVote.FindItemGlobally | docs/score-vote.js:150-157 | no data gives null; otherwise the first demand with the id in category order, or null when none has it |
| ScoreVote.DisplayedTotalIsStoredTotal | docs/score-vote.js:65 | for a loaded demand with all three counters the modal shows its stored `totalVotes` |
| Stats.StatsTotals | srv.js:403-411 | `totalRevendications` is the number of demands and `totalVotes` the sum of their `totalScore` |
| Stats.StatsByCategory | srv.js:404-406 | with distinct category keys, `byCategory` holds each category's length, in key order, summing to the demand count |
| Stats.StatsByPriority | srv.js:399-409 | `byPriority` always holds Faible, Moyen and Élevé, every count is non-negative and equals the number of demands with that priority, and the counts sum to the demand count |
| Stats.StatsProperties | srv.js:396-413 | the statistics agree with one another and with direct counts over the corpus |
| Stats.StatsRouteProperties | srv.js:393-416 | the route first reloads from disk: the statistics describe the reloaded corpus (loaded and filed under the listed category files, or the previous corpus when listing fails), and the in-memory analysis log is replaced by the stored one, or emptied when it cannot be read |
| Stats.AddItemPriority | srv.js:409 | one demand adds one to its priority's count, adds the key when new, and changes no other count |
| Stats.FoldTotals | srv.js:403-411 | the fold adds the corpus size to the count, the score sum to `totalVotes`, and writes each category's length |
| Stats.FoldPriorities | srv.js:408-409 | the fold's priority counts are the per-demand counting over the corpus |
| Stats.CountIntoAllGet | srv.js:409 | the per-demand counting adds to each priority the number of demands carrying it |
| Dashboard.FlattenKeepsEverything | docs/dashboard.js:151-154 | the flattened list holds every demand of every category, holds nothing else, and is as long as all categories together |
| Dashboard.Insert | docs/dashboard.js:158 | inserting one demand into a list adds exactly that demand |
| Dashboard.InsertRanked | docs/dashboard.js:158 | inserting into a list ranked by descending score keeps it ranked |
| Dashboard.SortByScore | docs/dashboard.js:157-158 | the sort is a permutation of its input |
| Dashboard.SortByScoreRanked | docs/dashboard.js:157-158 | the sorted list is non-increasing in `totalScore` |
| Dashboard.CutOfRanked | docs/dashboard.js:159 | the first n of a ranked permutation are ranked, come from the input, and score at least as much as every demand left out |
| Dashboard.ActionHubPlaceholder | docs/dashboard.js:161-164 | the hub shows the placeholder exactly when the corpus holds no demand |
| Dashboard.ActionHubCards | docs/dashboard.js:146-164 | otherwise it shows min(5, n) demands ranked by score, all from the corpus, none scoring below a demand left out |
| Dashboard.PriorityRows | docs/dashboard.js:119-123 | the table has the rows Élevé, Moyen, Faible, in that order |
| Dashboard.DashboardCountsMatchCorpus | docs/dashboard.js:76 | each row's count is the number of demands with that priority, never negative, and the high-priority card shows the first row's count |
| Pagination.TotalPages | docs/script.js:110 | the page count is ⌈n / 10⌉: enough pages for n items, no empty last page, none for an empty list |
| Pagination.PageItemsBounds | docs/script.js:113-115 | page p from 1 to the page count shows the items from (p − 1)·10 up to min(p·10, n), one to ten of them |
| Pagination.PagesPartitionFrom | docs/script.js:113-115 | the pages from p to the last, concatenated, are the list from (p − 1)·10 on |
| Pagination.PagesPartition | docs/revendications.js:88-92 | pages 1 to the page count, concatenated, are the whole list in order |
| Pagination.NavigateKeepsRange | docs/script.js:188-202 | previous moves back only above page 1, next moves on only below the last page, so the page stays between 1 and max(1, page count) |
| Pagination.ClickThrough | docs/script.js:188-202 | after any run of clicks from page 1 the page is in range; in docs/script.js the items shown are that page's slice, in docs/revendications.js they stay page 1's while the page moves on by the number of next clicks, up to the last page |
| Pagination.ScriptPagerShowsCurrentPage | docs/script.js:188-202 | with docs/script.js the page on screen is always the current page, and it stays in range |
| Pagination.ListPagerStuckOnFirstPage | docs/revendications.js:151-184 | with docs/revendications.js page 1 stays on screen, its previous button stays disabled, and each next click advances only the page counter, up to the last page |
| Pagination.FrontEndsPartOnSecondPage | docs/revendications.js:153 | with more than ten demands one click on next shows page 2 in docs/script.js but keeps the first ten demands in docs/revendications.js |
| Pagination.ShowSectionStartsAtTop | docs/revendications.js:56-72 | switching to a known category lists it from its first item, on a page in range |
| Pagination.CardLabelsAgree | docs/script.js:125-126 | on a loaded demand with all three counters the script.js and revendications.js cards agree, and with non-negative counters 'Pas encore de vote' means no vote at all |
| Pagination.CardLabelsOnPartialVotes | docs/revendications.js:100 | when the `votes` object lacks a counter, the script.js card reads 'Pas encore de vote' and the list card shows `totalVotes`, so they disagree exactly when `totalVotes` is positive |
| Pagination.CardLabelsDifferOnPartialVotes | docs/revendications.js:100 | a loaded demand whose stored votes are `{oui: 2}` shows 2 votes on the list card and 'Pas encore de vote' on the script.js card |
| App.ReplaceFirst | docs/app.js:38 | a string pattern replaces only the first 'é', and nothing when there is none |
| App.StaticKeyShape | docs/app.js:38 | a static key has no space and no capital A–Z, and differs from the lowered title only at its first 'é' |
| App.StaticKeyExample | docs/app.js:38 | "Égalité Réelle" is filed under 'egalité_réelle': only the first 'é' is replaced |
| App.AdaptSection | docs/app.js:39-48 | a static section keeps its count and order; record i has the text i, the id `<key>-<i>` and the category key |
| App.AdaptedMatchesServerNormalisation | docs/app.js:39-48 | a static record is exactly what the server's loader makes of a bare record holding only its text (zero votes, `totalVotes` 0, 'Législatif', 'Faible', score 0) |
| App.AdaptStaticProperties | docs/app.js:36-49 | the adapted data have distinct keys, each from a section title, and consistent records |
| App.InitializeProperties | docs/app.js:14-57 | there are no data only when both the API and the static file fail; the data have distinct keys and consistent records whichever source answers (given that the API serves a loaded corpus), and fallback keys come from section titles |
| App.FirstCategory | docs/app.js:82 | the default route is the first category key, or 'dashboard' when there is none or it is empty |
| App.HandleRouting | docs/app.js:80-101 | 'dashboard' shows the dashboard, a known category shows its section, anything else redirects to the first category unless the target already is it |
| App.RoutingSettles | docs/app.js:96-101 | the router never stays on an unknown route; when the first category key is hash-safe, the written hash reads back unchanged, fires `hashchange`, and the second pass lands on the dashboard or a section |
| App.EncodeFragmentShape | docs/app.js:99 | the hash read back is always hash-safe, equals the written fragment exactly when that is hash-safe, is stable under a second write, and holds a '%' otherwise |
| App.RedirectStallsOnEncodedKey | docs/app.js:80-101 | when the first key is not hash-safe and its encoded form is not a key, the redirect reads back the encoded form, redirects to the same fragment again, and no `hashchange` fires |
| App.MenuClickMissesEncodedKey | docs/revendications.js:43 | a menu click on a key that is not hash-safe never shows that section |
| App.SingleSectionStalls | docs/app.js:80-101 | with one section under a key that is not hash-safe, any unknown route ends in a repeated redirect to it |
| App.StaticKeyStallExample | docs/app.js:38 | the static section "Égalité Réelle" gets the key 'egalité_réelle', which is not hash-safe, so the router stalls on '#inconnu' |
| App.IntendedStaticKeyIsHashSafe | docs/app.js:38 | replacing every 'é' leaves none, makes the key hash-safe whenever 'é' was its only unsafe character, and gives 'egalite_reelle' for "Égalité Réelle" |
| App.ActiveLinksFollowRoute | docs/app.js:104-109 | on the dashboard or a section exactly the links to it are highlighted; while redirecting away from an unknown route no link to a known route is |

## Left out

- File system, directory enumeration, JSON parsing and `localStorage`: each
  is a parameter, the content read or `None` when reading or parsing fails. A
  write is the document computed.
- The error handlers of `saveRevendications` and `saveAnalysisLog` swallow
  write errors. The 500 branches of `/api/log-analysis` and
  `/api/vote-score` are therefore unreachable and not modelled.
- The Groq and Gemini SDK calls, prompt texts, model parameters and
  `setTimeout`: each call is an oracle outcome, each wait an integer.
- `Promise.all` concurrency, and writes lost when two requests rewrite the
  same category concurrently: the model is sequential.
- What becomes of a rejected `/api/full-analysis` handler depends on the
  Express and Node versions, which the code does not fix: Express 5 answers
  500, and under Express 4 an unhandled rejection ends the process on
  Node 15 and later. The model stops at the rejection (`Unhandled`).
- Express wiring, Swagger, static file serving, the HTTP listener, all DOM and
  HTML rendering, event wiring, and `docs/modal.js`.
- Vote percentages and `toFixed`: these are floating point.
- Timestamps: `new Date().toISOString()` is an opaque string parameter.
- Mutations.VoteScore: `scoreChange` is an integer or `None`, and a
  non-integer is modelled as `None`, answered with 400. In srv.js:449 the
  guard is `typeof scoreChange !== 'number'`, so 1.5 passes: it is added to
  `totalScore` and the route answers 200. A literal such as 1e400 arrives as
  Infinity, passes too, and is saved as `null`. NaN cannot arrive through JSON.
- Mutations.Vote: only the three counter names are vote types. A prototype
  key such as 'constructor' is not modelled. `item.votes['constructor']` is
  defined, so the route increments it to NaN, answers 200 and saves the
  record with `"constructor": null` in its votes, where the model answers 400.
- App.HandleRouting: a route is a known category only when the data hold
  that key. The source tests `window.allData[targetRoute]` (docs/app.js:92),
  which is also truthy for an inherited key such as 'constructor'. It then
  calls `showSection`, which throws at `revendications.slice`
  (docs/revendications.js:92) after writing the "Thème : Constructor" title.
  The model redirects to the first category instead.
- Store.CategoryKeyOf: `CATEGORY_MAP[categoryFileName]` (srv.js:89) also
  finds inherited keys, so a file named constructor.json is filed under the
  string form of Object's constructor function, not under 'constructor'. The
  model maps only the map's own entries.
- App.RoutingSettles: the redirect is proved to settle only when the first
  category key is hash-safe (printable ASCII other than space, `"`, `<`, `>`
  and backtick). A browser percent-encodes every other character of a
  fragment written to `location.hash`. The model of that encoding
  (`App.EncodeFragment`) follows the fragment percent-encode set of the URL
  Standard, UTF-8 with upper-case hex, and for any other key the router
  stalls (see Findings). The URL parser removes tab, LF and CR from the
  written value instead of encoding them; the model encodes them as %09,
  %0A and %0D.
- Stats.StatsByPriority: a priority is counted as an own entry of
  `byPriority`. srv.js:409 reads `stats.byPriority[item.priority] || 0`,
  which also finds inherited names. A stored priority 'constructor' or
  'toString' is counted as the string of that function followed by '1'. A
  stored '__proto__' turns into "[object Object]1", whose assignment is
  ignored, so that demand is counted under no priority and the counts no
  longer add up to the number of demands.
- App.InitializeProperties: the API branch assumes a server that answers
  `/api/data` with a loaded corpus. Neither srv.js nor serveur.js defines
  that route, so with them the request reaches the static file handler
  (srv.js:47) and the client uses the static fallback.
- `Object.keys` lists integer-like keys first. The association lists keep
  plain insertion order, which differs only for numeric category names.
- `LowerChar` lowers A–Z and the Latin-1 capitals only. `toLowerCase` on the
  rest of Unicode is not modelled.
- Dashboard.SortByScore: stability is not proved. JavaScript's sort is stable,
  and the insertion sort modelled keeps equal scores in list order, but only
  ranking and permutation are stated.
- A missing `totalScore` in the client's data is not modelled, because every
  demand the model holds has one (the loader and the static adapter both
  default it to 0).
- Retry.RetryApiCall, Analysis.ImageLoop, Analysis.FullAnalysis: the oracle
  sequence must cover every possible attempt (three, or five for images).
  Attempts that are never made are simply not read.
- The analysis log has no retrieval route, and `PRIORITY_ORDER` is declared
  but never used, so neither is modelled.

## Findings

| source | as written | input that shows it | evidently intended | confidence | as-written member | corrected member |
|---|---|---|---|---|---|---|
| docs/revendications.js:153 | the page buttons re-render into `container.querySelector('#revendications-section')`; `container` is that section, so the search finds nothing and `renderRevendications(null)` throws at the `innerHTML` write (line 143) after `currentPage` has moved | a category of 11 demands, one click on "Suivant" | the cards and the counter move to page 2, as the pager of docs/script.js does | high; not executed | Pagination.ListPagerStuckOnFirstPage, Pagination.FrontEndsPartOnSecondPage | Pagination.ScriptPagerShowsCurrentPage |
| docs/app.js:38 | `.replace('é', 'e')` with a string pattern replaces only the first 'é', so "Égalité Réelle" becomes 'egalité_réelle'; the hash written for it reads back as 'egalit%C3%A9_r%C3%A9elle', which is no key, so the router redirects to the same fragment again and no `hashchange` follows | static data whose only section is "Égalité Réelle", opened at '#inconnu' | every 'é' replaced, as the `/ /g` before it does for spaces, giving 'egalite_reelle' | medium; not executed | App.StaticKeyStallExample, App.RedirectStallsOnEncodedKey | App.IntendedStaticKeyIsHashSafe |
