# RepoDoctor2 branch scanner: a Dafny model

RepoDoctor2 is a single-user dashboard over a developer's GitHub
repositories. It compares every non-default branch with the default branch
and labels it with one of five labels: ACTIVE PR, SAFE TO DELETE, STALE,
DIVERGED or AHEAD ONLY. It orders each repository's branches so that the
ones needing attention come first. It can archive a branch as an
`archive/<branch>/<date>` tag and list those tags again. It keeps
preferences, scan history, an analysis cache and an action log in local
JSON files.

This project models that logic in Dafny and proves its properties:

- `github_client.dfy` (module `GitHubClient`): the classifier
  `classify_branch`, the per-repository scan `scan_repo`, and the archive
  tag name.
- `app.dfy` (module `App`): the parts of the web layer that decide
  something. These are the scan over all repositories with exclusion,
  per-repository error isolation, ordering and totals; parsing and listing
  of archive tags; the archive tag message; the exclusion-list field of the
  settings form; and the cache lookups of the repository page.
- `models.dfy` (module `Models`): the local store. The four JSON files
  become fields of a `Store` class. The session token counters are the
  `SessionCost` class.
- `sorting.dfy` (module `StableSort`): Python's `list.sort(key=...)`. It is
  modelled as a functional stable insertion sort. Lemmas prove it sorted, a
  permutation, stable per key, idempotent, and the only sequence with those
  properties.
- `text.dfy` (module `Text`): the `str` operations the core uses, with their
  round-trip lemmas. These are `split` and `join` on one character,
  `strip`, the first line, and a prefix.
- `wrappers.dfy` and `json.dfy`: `Option`/`Result`, and the JSON values the
  store holds.

The GitHub REST calls are inputs. A repository's branch listing, open pull
request heads, per-branch comparisons and CLAUDE.md probe arrive as a
`RepoData` value. A comparison that fails is `None`. An exception raised by
the HTTP layer while scanning a repository is a `Failure` of the `fetch`
function. The clock is a parameter: `now` in microseconds for the
classifier, and timestamp strings for the store. `datetime.fromisoformat`
is also a parameter. It maps a date string to an optional
`Instant(micros, aware)`, so the verifier does no calendar arithmetic.
`timedelta.days` rounds down, which is Dafny's `/` with a positive divisor.

Python's `sort(key=k, reverse=True)` keeps equal elements in their original
order. The model therefore writes the descending sort by `branch_count` as
the stable ascending sort by `-branch_count`.

## Model

| member | source | states |
|---|---|---|
| `GitHubClient.ClassifyMatchesTable` | github_client.py:160-187 | For every label, the classifier returns it iff the label's row of the first-match rule table holds. The rows are: open PR; no PR and nothing ahead; ahead and aged; ahead, not aged and behind; otherwise. |
| `GitHubClient.OpenPrWins` | github_client.py:165-166 | With an open PR the label is ACTIVE PR for every ahead/behind value and date, including 0/0. |
| `GitHubClient.NothingAheadIsSafe` | github_client.py:162-169 | With no PR and ahead 0 (a missing count reads as 0), the label is SAFE TO DELETE whatever the behind count and date. |
| `GitHubClient.OldCommitIsStale` | github_client.py:172-177 | With no PR, ahead > 0, and a date that parses with an offset and is more than 30 whole days old, the label is STALE, even when behind > 0. |
| `GitHubClient.UnusableDateFallsThrough` | github_client.py:172-179 | A missing, empty, unparsable or offset-less date gives the same label as no date at all. It never raises. |
| `GitHubClient.FreshBranchByBehind` | github_client.py:181-187 | With no PR, ahead > 0 and not stale, the label is DIVERGED when behind > 0 and AHEAD ONLY otherwise. |
| `GitHubClient.ClassifyScenarios` | github_client.py:160-187 | The six classification tests, with `now` and the parses of their dates fixed, give SAFE TO DELETE, AHEAD ONLY, DIVERGED, STALE, ACTIVE PR and ACTIVE PR. |
| `GitHubClient.DaysBetween` | github_client.py:176 | `(now - last).days` is the whole number of days elapsed, rounded down. |
| `GitHubClient.SortOrderOfLabels` | github_client.py:255-257 | The sort keys are DIVERGED 0, AHEAD ONLY 1, STALE 2, SAFE TO DELETE 3 and ACTIVE PR 4. |
| `GitHubClient.Summarize` | github_client.py:233-240 | A commit summary holds the 7-character sha prefix, the message up to its first newline (it ends at the first newline, or is the whole message when there is none), the author or "Unknown", and the committer date. |
| `GitHubClient.Project` | github_client.py:224-231 | A changed-file entry copies filename, additions, deletions and status. |
| `GitHubClient.CommitMessages` | github_client.py:233-240 | The loop gives one summary per commit, in commit order. |
| `GitHubClient.FilesChanged` | github_client.py:224-231 | The loop gives one entry per changed file, in order. |
| `GitHubClient.RecordFields` | github_client.py:210-253 | A branch record has the listing's name and tip sha, `has_pr` iff the name is an open PR head, and the counts with 0 for missing. Date and author come from the last commit, and both are None when there are no commits. It has one summary per commit and one entry per file. It fails exactly when the last commit has a null committer. |
| `GitHubClient.BuildRecord` | github_client.py:210-253 | The loop body builds exactly the record of `RecordFor`. |
| `GitHubClient.Candidates` | github_client.py:201-208 | The branches that get a record are exactly the listed ones that are not the default branch and whose comparison succeeded. |
| `GitHubClient.CandidatesInOrder` | github_client.py:201-208 | The branches that get a record keep the order of the branch listing: each comes from its own position, and the positions increase. |
| `GitHubClient.CollectSucceeds` | github_client.py:200-253 | Collection succeeds iff no candidate branch's newest commit lacks a committer date. |
| `GitHubClient.CollectRecords` | github_client.py:200-253 | After a successful collection, the records are, in listing order, one per candidate branch, each being that candidate's record. |
| `GitHubClient.CollectFailureSticks` | github_client.py:213-214 | Once a branch's record raises, the whole scan fails with that error. |
| `GitHubClient.ScanRepo` | github_client.py:190-273 | The loop, sort and result of `scan_repo` equal `ScanRepoSpec`. |
| `GitHubClient.ScanRepoRecords` | github_client.py:196-271 | A successful scan has `branch_count` equal to the number of records and to the number of candidates. Its records are sorted by priority key and are a permutation of the collected records. Each key's records keep listing order. The default branch never appears. |
| `GitHubClient.ScanRepoPriority` | github_client.py:255-257 | A record with a smaller priority key always comes before one with a larger key. |
| `GitHubClient.ScanRepoFails` | github_client.py:206-214 | The scan fails iff a candidate's newest commit has a null committer. A failed comparison never makes it fail. |
| `GitHubClient.OneFailedComparison` | github_client.py:201-208 | Three branches besides the default, one failing comparison: the scan succeeds with exactly two records. |
| `GitHubClient.TagName` | github_client.py:120-121 | The archive tag name starts with "archive/". |
| `StableSort.SortBy` | github_client.py:255-257 | The stable sort keeps the length and the elements, and its result is sorted by the key. |
| `StableSort.SortByStable` | github_client.py:257 | For every key, the elements with that key keep their relative order. |
| `StableSort.SortByIdempotent` | github_client.py:257 | Sorting an already sorted sequence returns it unchanged. |
| `StableSort.IsTheStableSort` | github_client.py:257 | A sorted sequence that keeps every key's elements in order is the sort's result. |
| `Text.JoinSplit` | app.py:347-348 | Joining the pieces of a split gives back the string. |
| `Text.SplitJoin` | app.py:347-348 | Splitting a join of separator-free pieces gives back the pieces. |
| `Text.FirstLine` | github_client.py:237 | The first line is a prefix of the message with no newline, ending at the first newline or the end. |
| `Text.Strip` | app.py:514 | The stripped string has no whitespace at either end and holds only characters of the input. |
| `Text.StripRemovesEnds` | app.py:514 | The stripped string is a slice of the input with only whitespace before and after it. |
| `Text.StripUnique` | app.py:514 | Conversely, any such slice with neither end whitespace is the stripped string, so `strip` is determined. |
| `Text.SplitPiecesFree` | app.py:514 | No piece of a split contains the separator. |
| `App.ExcludedSet` | app.py:142 | The excluded set holds exactly the strings of the stored list, and is empty when the key is absent. |
| `App.Kept` | app.py:146-148 | A repository is kept iff it is listed and neither its full name nor its short name is excluded. |
| `App.ScanOneIsolated` | app.py:149-165 | Each repository's record depends on that repository alone. Its scan is taken when the scan succeeds. Otherwise it gets a record of the same repository with no branches, count 0 and the error. The count always equals the number of branches. |
| `App.ResultsPerRepo` | app.py:146-165 | There is exactly one record per repository that is not excluded, in fetch order. |
| `App.Scan` | app.py:142-174 | The loop, sort and totals of `scan()` equal `ScanSpec`. |
| `App.SumCountsSorted` | app.py:168-173 | Sorting does not change the branch total. |
| `App.ScanSummaryFacts` | app.py:168-174 | The repositories are ordered by branch count, most first, as a permutation of the results; equal counts keep fetch order. `total_repos` is their number and `total_branches` the sum of their counts. |
| `App.ScanSkipsExcluded` | app.py:146-148 | A listed repository appears in the summary, by full and short name, iff it is not excluded. |
| `App.ParseTag` | app.py:346-349 | A tag name is parsed iff it starts with "archive/". |
| `App.ParseTagNoDate` | app.py:347-349 | A name with two segments gives the second segment as the branch and "Unknown" as the date. |
| `App.ParseTagWithDate` | app.py:347-349 | A name with more segments gives the middle segments joined by "/" as the branch and the last segment as the date. |
| `App.ParseTagRoundTrip` | github_client.py:121 | Parsing the built tag name gives back the branch (slashes included) and a date that holds no "/". |
| `App.EntriesForParsed` | app.py:345-369 | Every archive row comes from a tag of its repository. Its branch and date are what the tag name records. |
| `App.EntriesForComplete` | app.py:345-369 | Every tag starting with "archive/" gets a row. |
| `App.ArchivesOfRepo` | app.py:345-369 | The inner loop gives the rows of one repository's tags, in tag order. |
| `App.ListArchives` | app.py:343-369 | The outer loop gives the rows of all scanned repositories, in order. |
| `App.ArchivesMembers` | app.py:343-369 | A row is listed iff it is a row of one of the scanned repositories. |
| `App.SummaryOf` | app.py:392-395 | A non-empty summary is the cached analysis's "plain_english_summary". Conversely, a stored string summary is returned as it is. |
| `App.MessageLines` | app.py:397-405 | The branch, repository and 7-character commit lines always come first. The "AI Summary" line appears iff the summary is non-empty, and the "User note" line, last, iff the note is non-empty. |
| `App.ArchiveMessage` | app.py:388-407 | The call fails iff a required field is empty. Otherwise the message is the lines joined with "\n", with the summary of the analysis the store has cached for this repository, branch and commit. |
| `App.MessageLinesRecovered` | app.py:407 | When no field holds a newline, splitting the message at newlines gives back its lines. |
| `App.NonBlankStripped` | app.py:514 | Every kept entry is non-empty and trimmed. |
| `App.NonBlankStrippedOne` | app.py:514 | A single piece is kept, stripped, iff its strip is not empty. |
| `App.NonBlankStrippedAppend` | app.py:514 | The kept entries of two runs of pieces are those of the first followed by those of the second, so input order is kept. |
| `App.ParseExcludedExample` | app.py:513-514 | The field `" a , ,b "` parses to `["a", "b"]`. |
| `App.ParseExcludedRepos` | app.py:514 | Every entry of the parsed exclusion list is non-empty, trimmed and comma-free. |
| `App.ExcludedRoundTrip` | app.py:514 | Non-empty, trimmed, comma-free names joined with "," parse back to the same list, in order. |
| `App.FindRepo` | app.py:192-200 | The repository page shows the first scanned repository with the requested owner and name; it finds none exactly when no scanned repository has them. |
| `App.CachedAnalyses` | app.py:203-207 | Each branch gets the cache entry under `"{repo}/{branch}/{sha}"`, or nothing when the key is absent. |
| `App.RepoPageFindsStored` | app.py:204-207 | After the store caches an analysis for a branch's name and tip sha, the repository page's loop finds exactly that analysis, stamped, for the branch. |
| `Models.Totals` | models.py:175-179 | The analysis count is the number of `add` calls. |
| `Models.TotalsAppend` | models.py:175-179 | The counters over two runs of calls are the sums of the counters of each. |
| `Models.SessionCostScenario` | models.py:175-179 | Two calls (100, 50) and (200, 100) give 300 input and 150 output tokens over 2 analyses. |
| `Models.SessionCost.constructor` | models.py:169-173 | A new counter is all zeros. |
| `Models.SessionCost.Add` | models.py:175-179 | `add` raises the input and output totals by exactly the arguments and the count by exactly 1. The counters stay the totals of all calls. |
| `Models.AsMap` | models.py:37-44 | The defaults dictionary has exactly the listed keys. |
| `Models.AsMapValues` | models.py:37-44 | Each listed key maps to the value of its last pair, so with distinct keys, to its listed value. |
| `Models.FillDefaults` | models.py:52-54 | After the fill loop every default key is present. Stored keys keep their values and no other key is added. |
| `Models.Store.GetPreferences` | models.py:47-55 | An empty store is written with, and returns, exactly the defaults. Otherwise the store is unchanged and the result is the stored preferences plus the missing defaults. |
| `Models.Store.SavePreferences` | models.py:58-59 | The stored preferences become the given ones. |
| `Models.KeepLast` | models.py:76 | `s[-n:]` has the last `min(len, n)` elements of `s`, in order. |
| `Models.Stamp` | models.py:73 | A stamped record adds the timestamp field and keeps every other field. |
| `Models.SaveKeepsNewest` | models.py:74-76 | After a save the history has at most 50 scans. The newest is the saved scan, preceded by the newest of the old scans in order. It is the whole old history plus the scan when that held fewer than 50. |
| `Models.Store.SaveScan` | models.py:71-77 | The stamped scan is appended and the history cut to its last 50. The last entry is the stamped scan. |
| `Models.Store.GetLatestScan` | models.py:80-84 | The result is None iff there is no scan, and otherwise the newest scan. |
| `Models.CacheKey` | models.py:98 | The key starts with `"{repo}/{branch}/"`. |
| `Models.CacheKeyInjective` | models.py:98 | With a slash-free repository name and sha, the key determines repository, branch and sha. |
| `Models.CacheRoundTrip` | models.py:96-107 | Storing then looking up gives the analysis back with `_cached_at` added. A lookup of any other triple sees the cache as before. |
| `Models.Store.CacheAnalysis` | models.py:96-101 | The stamped analysis is stored under its key and every other entry is kept. |
| `Models.Store.GetCachedAnalysis` | models.py:104-107 | The lookup finds the entry iff the key is present, and None otherwise. |
| `Models.ActionsIn` | models.py:115-119 | A bare list is returned as is, `{"actions": [...]}` gives the list, and an object without "actions" gives the empty log. |
| `Models.Store.GetActionLog` | models.py:115-119 | The method reads the log as `ActionsIn` does. |
| `Models.LogThenRead` | models.py:122-131 | After `log_action` the log reads back as the old entries, unchanged and in order, plus exactly one entry at the end with the given type, repo and branch. |
| `Models.Store.LogAction` | models.py:122-131 | The file becomes `{"actions": old + [entry]}`. When the old log cannot be read nothing is written. |

## Left out

- HTTP and pagination in the GitHub client (`verify_token`, `get_repos`, `get_branches`, `get_tags`, `get_pulls`, `compare_branches`, `check_claude_md` and the two POSTs of `create_archive_tag`): network I/O. Their results are inputs.
- `create_archive_tag`'s return value and the delete and reinstate instruction texts: they depend on the POSTs and are fixed text. Only the tag name is modelled.
- Flask routing, templates, `flash`, `session`, the auth decorator, module globals and JSON responses: web plumbing.
- `security.py` and `ai_analyzer.py`: foreign crypto, the model API, float cost estimates and prompt text.
- `SessionCost.total_cost` and the rounding in `to_dict`: floating point. Only the integer counters are modelled.
- The clock and ISO-8601 parsing: these are parameters. The classifier reads the clock once per branch; the model uses one `now` for the whole scan.
- `GitHubClient.Commit`: one optional committer date stands for both a null committer and a null date. The model makes a missing date on the newest commit raise, which the source does only for a null committer.
- `GitHubClient.ScanRepo`: the pass-through display fields (`private`, `html_url`, `description`, `updated_at`) are not modelled. Other malformed payloads (missing keys) are not modelled either.
- `App.ListArchives`: each row's cached analysis is not modelled, nor is its page URL. The source takes the first cache key with a given prefix in dictionary insertion order, and the model's cache is an unordered map.
- `App.ArchiveMessage`: a missing request field and an empty one are the same "" here. A cached summary that is not a string counts as no summary, although the source would format it.
- `App.ExcludedSet`: a stored `excluded_repos` that is not a list counts as empty.
- The scan-record persistence calls at the end of `scan()` (`save_scan`, `log_action`): `Models.Store.SaveScan` and `Models.Store.LogAction` model them on their own, and `App.Scan` does not call them.
- `App.CachedAnalyses`: returns the cached analyses as a separate sequence. `repo_detail` instead writes each one into its branch's dict (`branch["analysis"]`), and those dicts are the shared in-memory scan results. So the model does not capture that the write persists, or that later readers of those results see it: the branch analysis route (app.py:246-258) and the token estimate (app.py:311-325).
- `App.FindRepo`: the redirect when no scan has run yet and the flash messages of `repo_detail` are web responses and are left out; the model starts from the scanned repository list.
- `Models.Store`: each file is assumed to hold the JSON shape its reader expects: an object for preferences and the cache, and a list under "scans" for the history. `_load_json`'s `{}` for a missing file is the empty value. Python's in-place mutation of the caller's dict by `save_scan` and `cache_analysis` (aliasing) is not modelled.
- `Models.ActionsIn`: a stored "actions" that is not a list is modelled as an error, because its caller would raise on it.
- `get_spec`, `save_spec` and `list_specs`: filesystem probing.

The classifier tests for AHEAD ONLY and DIVERGED (tests/test_app.py:195-205) read the real clock. They expect a commit dated 2026-02-13 to be less than 30 days old. `GitHubClient.ClassifyScenarios` fixes `now` at 2026-02-14. Under a real clock more than 30 days later the classifier returns STALE for both tests, because rule 3 comes first.
