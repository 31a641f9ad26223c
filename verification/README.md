# GitHub commits fetcher — a Dafny model

This project models the core of `github_commits_fetcher`, the `GitHubCommitsFetcher` class.
The class walks the GitHub commit listing of one repository page by page. For each page it
turns every commit summary it has not seen yet into a five-field record ("Commit URL",
"Author Name", "Author URL", "Commit Date", "Commit Message"). It appends these records to
`commits_info`, adds each record's URL hash to the `processed_commits` set, and saves both
to a progress file after every page, so a later run can resume.

Layout:

- `wrappers.dfy` (`Wrappers`): the `Option` type.
- `commits.dfy` (`Commits`) holds the pure parts:
  - the commit summary and the record;
  - `str.split("/")[-1]`;
  - `process_commit`;
  - a page of results and the hashes its merge adds;
  - the end-hash stop test;
  - the consequences for resuming and for duplicates.
- `ratelimit.dfy` (`RateLimit`) holds `handle_rate_limit` and the retry loop shared by
  `fetch_commits` and `fetch_commit_details`:
  - the decision taken on one attempt is a function;
  - the loop itself is a method over the finite run of attempts the server answers.
- `fetcher.dfy` (`Fetcher`) holds the object. It covers token resolution, the progress file's
  content, and the class `GitHubCommitsFetcher`:
  - its fields `commitsInfo` and `processedCommits`;
  - the methods `Load`, `Save`, `MergePage`, `ProcessPage` and `ProcessCommits`.

What comes from outside the object is passed in as values:

- `ProcessCommits` receives the listing endpoint as the sequence of values `fetch_commits`
  returns for pages 1, 2, … (`None` for a failed fetch). Pages past its end come back empty.
- The progress file is a `PersistedProgress` value:
  - a JSON key that is absent is `None`;
  - no file at all is `None` at the outer level.
- The clock reading and the rate-limit headers come with each response as integers.
- The environment variable `GITHUB_ACCESS_TOKEN` is a parameter.
- The page's thread pool is a schedule, picked with `:|`:
  - `done` is the order in which the tasks complete and are merged by `as_completed`;
  - `seen[k]` is how many results the main thread had merged when the k-th task to complete
    ran its skip test against the live `processed_commits`.
  Every property of the merge is proved for all schedules.

Points where the code's behaviour is easy to misread:

- The code keeps no one-to-one link between `commits_info` and `processed_commits`:
  - The hash added is the text after the last "/" of the record's URL, not the summary's sha.
  - On a page holding just two copies of a summary whose sha is new and whose URL ends in it,
    the sha is recorded twice when the second task checks before the first result is merged,
    and once when it checks after (`SamePageDuplicateRecordedOnceOrTwice`).
  - The set add is idempotent, but the list append is not.
- Without duplicate shas on a page, and when every commit URL on it ends in its sha, the
  schedule makes no difference to what is recorded (`DistinctShasScheduleIrrelevant`). When a
  URL ends in another summary's sha, one merge can make a later skip test on the same page
  succeed, so the schedule can matter even then (`CrossUrlScheduleMatters`).
- A failed detail fetch still yields a record: the record does not depend on the detail result
  (`ProcessCommitWithDetail`). The detail fetch only decides whether files are written.
- An empty end hash never stops the loop, because the code tests it for truthiness.

## Model

| member | source | states |
|---|---|---|
| Fetcher.ResolveToken | src/github_commits_fetcher/fetcher.py:46-51 | The result is None (construction raises ValueError) exactly when neither the explicit token nor the environment token is a non-empty string. A non-empty explicit token wins; otherwise a non-empty environment token is used. A resolved token is never empty. |
| Fetcher.Create | src/github_commits_fetcher/fetcher.py:28-58 | Construction fails exactly when no token resolves. Otherwise the object is fresh, holds the resolved token, and starts in the state `Initial` gives for the progress file. |
| Fetcher.GitHubCommitsFetcher.constructor | src/github_commits_fetcher/fetcher.py:28-58 | Stores the parameters and the resolved token, starts from an empty record list, then loads progress. The resulting state is `Initial(progressFile)`. |
| Fetcher.Initial | src/github_commits_fetcher/fetcher.py:73-80 | Without a file, both the records and the processed set are empty. With a file, a missing key gives an empty value and a present key gives its content; the processed set holds exactly the listed hashes. |
| Fetcher.SetOfMembership | src/github_commits_fetcher/fetcher.py:78 | `set(list)` holds exactly the elements of the list. |
| Fetcher.GitHubCommitsFetcher.Load | src/github_commits_fetcher/fetcher.py:73-80 | With a file, the state becomes the file's decoded content. Without one, the processed set becomes empty and the record list keeps its value. |
| Fetcher.GitHubCommitsFetcher.Save | src/github_commits_fetcher/fetcher.py:82-90 | The file holds the records unchanged and the processed set as a list without duplicates, in an arbitrary order. Decoding the file gives the current state back, so saving and then loading is the identity. |
| Fetcher.GitHubCommitsFetcher.MergePage | src/github_commits_fetcher/fetcher.py:205-211 | The records of the results, in completion order, are appended after the old records. The processed set grows by exactly the URL hashes of those records. |
| Fetcher.MergedPageGrowth | src/github_commits_fetcher/fetcher.py:200-211 | Under any schedule a merge keeps the old records as an unchanged prefix and appends at most one record per summary. The processed set grows by exactly the URL hashes of the appended records. |
| Fetcher.MergedPageWithoutDuplicates | src/github_commits_fetcher/fetcher.py:200-211 | On a page without duplicate shas, whose commit URLs end in their shas, every schedule appends the same records: those of the summaries not yet processed, in some order. The list grows by the page size less the number of skipped summaries. |
| Fetcher.MergedPageSkipsOnResume | src/github_commits_fetcher/fetcher.py:160-210 | After a page is merged under any schedule, every summary on it is skipped when seen again, provided the commit URLs end in their shas. |
| Fetcher.GitHubCommitsFetcher.ProcessPage | src/github_commits_fetcher/fetcher.py:200-219 | The page's tasks run under some schedule: each tests its sha against the set as it stood after the merges that preceded the test. The results are merged in completion order and the progress is saved. The new state is a merge of the page into the old one (`MergedPage`), and the saved file decodes to the new state. |
| Fetcher.GitHubCommitsFetcher.ProcessCommits | src/github_commits_fetcher/fetcher.py:188-223 | Pages are requested as 1, 2, 3, … with no gap. There are exactly as many requests as `PagesRequested` counts. One checkpoint is saved per merged page, and a failed or empty last page is not merged or saved. Checkpoint k holds the merge of page k+1 into checkpoint k-1 (`Replays`). The final state is the last checkpoint's, or the initial state when nothing was saved. |
| Fetcher.PagesRequestedMeans | src/github_commits_fetcher/fetcher.py:192-218 | Every page before the last one requested was fetched, was not empty and did not list the end hash. The last one either failed or came back empty, or was merged and listed the end hash. |
| Fetcher.ReplaysExtend | src/github_commits_fetcher/fetcher.py:195-219 | Saving the merge of the next listed page onto the last checkpoint extends the chain of checkpoints by one, and the new last checkpoint holds the merged state. |
| RateLimit.HandleRateLimit | src/github_commits_fetcher/fetcher.py:92-104 | Signals a retry exactly for a 403 whose remaining-quota header is present and zero. It sleeps until the reset time when that lies ahead, and not at all when the reset has passed. |
| RateLimit.Classify | src/github_commits_fetcher/fetcher.py:108-124 | Every 403 leads to a retry of the same request. A quota 403 (remaining zero) sleeps exactly until the reset time when that lies ahead and not at all otherwise. Any other 403 retries at once through the HTTPError handler. A non-error status with a parsable body returns that body. Every other outcome gives up (the fetch returns None). |
| RateLimit.FetchWithRetry | src/github_commits_fetcher/fetcher.py:126-142 | Consumes attempts while they are retries and stops at the first one that is not. It returns that attempt's body, or None for a give-up. The total sleep is the sum of the governor's sleeps over the attempts used. |
| Commits.SplitJoin | src/github_commits_fetcher/fetcher.py:209 | Joining the parts of `split` with the separator gives the original string back. |
| Commits.SplitPartsFreeOfSep | src/github_commits_fetcher/fetcher.py:209 | No part of `split` contains the separator. |
| Commits.CommitHashIsLastSegment | src/github_commits_fetcher/fetcher.py:209 | `split("/")[-1]` is the text after the last "/" of the URL, or the whole URL when it has none. |
| Commits.HashOfCommitUrl | src/github_commits_fetcher/fetcher.py:209 | For a URL of the form ".../<sha>" with a sha free of "/", the recorded hash is that sha. |
| Commits.AuthorUrl | src/github_commits_fetcher/fetcher.py:167-171 | The author URL is "N/A" exactly when there is no author account. Otherwise it is the profile link, from which the login can be recovered. |
| Commits.ProcessCommit | src/github_commits_fetcher/fetcher.py:160-186 | Returns None exactly when the sha is already processed. Otherwise the record copies the summary's URL, author name, date and message, and carries the author URL. The record does not depend on the detail fetch. |
| Commits.ProcessCommitWithDetail | src/github_commits_fetcher/fetcher.py:175-186 | For every detail result and every setting of file saving, the result is that of `ProcessCommit`, so a failed detail fetch still yields the record. Files are written exactly when there is a record, the detail fetch gave data and saving is on. |
| Commits.SomesLength | src/github_commits_fetcher/fetcher.py:205-208 | The `if commit_info:` filter keeps one record per non-None result. |
| Commits.SomesCount | src/github_commits_fetcher/fetcher.py:205-208 | Each record occurs among the kept records exactly as often as it was returned. |
| Commits.HashesMembership | src/github_commits_fetcher/fetcher.py:209-210 | A hash is added exactly when some merged record's URL yields it. |
| Commits.CompletionOrderIrrelevant | src/github_commits_fetcher/fetcher.py:200-210 | Results merged in any completion order give the same records up to order and the same hashes. |
| Commits.AddKnownHashesIsNoOp | src/github_commits_fetcher/fetcher.py:210 | Adding hashes that are all present already leaves the processed set unchanged. |
| Commits.ReachedEndMeans | src/github_commits_fetcher/fetcher.py:213-216 | The loop stops after a page exactly when an end hash is set and non-empty and some summary anywhere on the page carries it. |
| Commits.ContainsShaMeans | src/github_commits_fetcher/fetcher.py:214 | `any(commit["sha"] == sha ...)` holds exactly when some index of the page carries the sha. |
| Commits.InterleavedAt | src/github_commits_fetcher/fetcher.py:160-210 | Under a schedule, each task's result is `process_commit` against the processed set after the merges that preceded its skip test. |
| Commits.ChecksBeforeMerges | src/github_commits_fetcher/fetcher.py:200-210 | When every skip test runs before any merge, each task sees the set the page began with. |
| Commits.DistinctShasScheduleIrrelevant | src/github_commits_fetcher/fetcher.py:160-210 | Without duplicate shas, and with commit URLs ending in their shas, every schedule gives the results of testing against the set the page began with. |
| Commits.PageResultsPermutation | src/github_commits_fetcher/fetcher.py:200-208 | Running the tasks in another order permutes their results. |
| Commits.ResumeSkipsMergedPage | src/github_commits_fetcher/fetcher.py:160-210 | Under any schedule, when every commit URL ends in its sha, every summary of a merged page is skipped against the merged set. Resuming never re-records a merged commit from that page. |
| Commits.SamePageDuplicateRecordedOnceOrTwice | src/github_commits_fetcher/fetcher.py:160-210 | On a page holding just two copies of a summary with a new sha whose URL ends in it, the page yields two identical records when the second task tests before the first result is merged, and one record when it tests after. |
| Commits.CrossUrlScheduleMatters | src/github_commits_fetcher/fetcher.py:160-210 | On the page `[d, c]`, both shas new, with d's URL ending in c's sha and d completing first, the page yields both records when c tests before d's result is merged, and only d's record when c tests after. |

## Left out

- The HTTP session and its urllib3 retry policy (`_create_session`, lines 60-71) are not modelled:
  - the transport retries on 429 and 5xx;
  - its backoff;
  - the pool sizes.
  A transport-level failure is one `TransportError` attempt.
- Sleeping and wall-clock time are not modelled:
  - the governor returns its sleep in whole seconds instead of sleeping on a float clock;
  - the fixed six-second pause between pages is not modelled.
- `process_commits` runs a page's tasks on a pool of five threads. The model lets a task's
  skip test fall anywhere before its completion. It does not use the pool's width, which
  delays the sixth and later tasks. Properties are therefore proved for a superset of the
  schedules the pool can produce. An exception escaping a worker (for example a summary missing
  a key) is not modelled.
- HTTP requests, JSON parsing and file I/O are not modelled:
  - the listing and the detail responses are given as values;
  - the progress file is a value, and its name is not modelled;
  - the `per_page`/`page` query parameters are not modelled.
- A missing `X-RateLimit-Reset` header, or a non-numeric rate-limit header, raises
  KeyError/ValueError in the code; the model always has an integer reset value.
- A JSON body that does not parse is treated as a failure that returns None, as with requests
  2.27 and later, where the decode error is a RequestException.
- An `author` object that is present but empty counts as absent in the code (Python
  truthiness). The model has only "login present" and "no author".
- `FetchWithRetry`: the code retries forever while the server keeps answering 403. The model
  runs over a finite run of attempts and reports `StillRetrying` when they are used up.
- `ProcessCommits`: the link between the listing and `FetchWithRetry` is not modelled. Each
  listed page is simply the value the fetch returned.
- `save_commit_files` is reduced to the `writesFiles` flag of `ProcessCommitWithDetail`. The
  directory and file names and their content are not modelled.
- `convert_progress_to_excel` and `main` are not modelled: they are export and command-line
  front ends outside the fetcher's state.
- Logging, `.env` loading and `commits_url`/`headers` are not modelled: they have no effect on
  the modelled state.
