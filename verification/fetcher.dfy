/**
 * The `GitHubCommitsFetcher` object: token resolution at construction, the
 * progress state (`commits_info`, `processed_commits`), loading and saving it,
 * merging one page of results and the pagination loop of `process_commits`.
 * The listing endpoint is given as the sequence of what `fetch_commits` returns
 * for pages 1, 2, ...; the progress file as an abstract value.
 */
module Fetcher {
  import opened Wrappers
  import opened Commits

  /** Python truthiness of an optional string: present and non-empty. */
  predicate Truthy(s: Option<string>) {
    s.Some? && s.value != ""
  }

  /**
   * `github_token or os.getenv("GITHUB_ACCESS_TOKEN")`, then the emptiness test:
   * None means construction raises. A non-empty explicit token wins; otherwise
   * a non-empty environment token is used.
   */
  function ResolveToken(explicit: Option<string>, env: Option<string>): (t: Option<string>)
    ensures t.None? <==> !Truthy(explicit) && !Truthy(env)
    ensures t.Some? ==> t.value != ""
    ensures Truthy(explicit) ==> t == explicit
    ensures !Truthy(explicit) && Truthy(env) ==> t == env
  {
    if Truthy(explicit) then explicit
    else if Truthy(env) then env
    else None
  }

  /** The progress file's content; a key missing from the JSON object is None. */
  datatype PersistedProgress = PersistedProgress(
    commitsInfo: Option<seq<Record>>,
    processedCommits: Option<seq<string>>
  )

  /** The in-memory progress state. */
  datatype Snapshot = Snapshot(commitsInfo: seq<Record>, processedCommits: set<string>)

  /** `set(xs)`. */
  function SetOf(xs: seq<string>): set<string> {
    if xs == [] then {} else SetOf(xs[..|xs| - 1]) + {xs[|xs| - 1]}
  }

  /** `set(xs)` holds exactly the elements of `xs`. */
  lemma {:induction false} SetOfMembership(xs: seq<string>)
    ensures forall h :: h in SetOf(xs) <==> h in xs
  {
    if xs != [] {
      var init := xs[..|xs| - 1];
      assert xs == init + [xs[|xs| - 1]];
      SetOfMembership(init);
    }
  }

  /** What `load_progress` reads out of an existing file: a missing key defaults to empty. */
  function Decode(p: PersistedProgress): Snapshot {
    Snapshot(p.commitsInfo.GetOr([]), SetOf(p.processedCommits.GetOr([])))
  }

  /** The state right after construction: the file's content, or empty when there is no file. */
  function Initial(progressFile: Option<PersistedProgress>): (s: Snapshot)
    ensures progressFile.None? ==> s.commitsInfo == [] && s.processedCommits == {}
    ensures progressFile.Some? && progressFile.value.commitsInfo.None? ==> s.commitsInfo == []
    ensures progressFile.Some? && progressFile.value.processedCommits.None? ==> s.processedCommits == {}
    ensures progressFile.Some? && progressFile.value.commitsInfo.Some? ==>
              s.commitsInfo == progressFile.value.commitsInfo.value
    ensures progressFile.Some? && progressFile.value.processedCommits.Some? ==>
              forall h :: h in s.processedCommits <==> h in progressFile.value.processedCommits.value
  {
    match progressFile
    case None => Snapshot([], {})
    case Some(p) =>
      SetOfMembership(p.processedCommits.GetOr([]));
      Decode(p)
  }

  predicate NoDuplicates(xs: seq<string>) {
    forall i, j :: 0 <= i < j < |xs| ==> xs[i] != xs[j]
  }

  /** What `fetch_commits(page)` returned; pages past the end of the listing come back empty. */
  function ListedPage(listing: seq<Option<seq<Summary>>>, page: int): Option<seq<Summary>> {
    if 1 <= page <= |listing| then listing[page - 1] else Some([])
  }

  /** `not commits_data` is false: the fetch succeeded and the page is not empty. */
  predicate HasCommits(data: Option<seq<Summary>>) {
    data.Some? && data.value != []
  }

  /** Page `p` was merged and the loop went on to the next page. */
  predicate MovedOn(listing: seq<Option<seq<Summary>>>, p: int, commitHashEnd: Option<string>) {
    HasCommits(ListedPage(listing, p)) && !ReachedEnd(ListedPage(listing, p).value, commitHashEnd)
  }

  /** Page `p` was merged and it lists the end hash, so the loop stopped after it. */
  predicate StoppedAt(listing: seq<Option<seq<Summary>>>, p: int, commitHashEnd: Option<string>) {
    HasCommits(ListedPage(listing, p)) && ReachedEnd(ListedPage(listing, p).value, commitHashEnd)
  }

  /**
   * How many pages the loop of `process_commits` requests when it reaches page
   * `p`: this one, and the following ones while each page is merged without
   * listing the end hash.
   */
  function PagesRequested(listing: seq<Option<seq<Summary>>>, commitHashEnd: Option<string>, p: nat): nat
    requires p >= 1
    decreases |listing| + 1 - p
  {
    if MovedOn(listing, p, commitHashEnd) then 1 + PagesRequested(listing, commitHashEnd, p + 1) else 1
  }

  /**
   * The reference count of requested pages means what the loop promises: every
   * page before the last one was merged and did not list the end hash, and the
   * last one either came back empty or failed (and is not merged) or was merged
   * and listed the end hash.
   */
  lemma {:induction false} PagesRequestedMeans(listing: seq<Option<seq<Summary>>>, commitHashEnd: Option<string>, p: nat)
    requires p >= 1
    ensures var last := p + PagesRequested(listing, commitHashEnd, p) - 1;
      && (forall q :: p <= q < last ==> MovedOn(listing, q, commitHashEnd))
      && (!HasCommits(ListedPage(listing, last)) || StoppedAt(listing, last, commitHashEnd))
    decreases |listing| + 1 - p
  {
    if MovedOn(listing, p, commitHashEnd) {
      PagesRequestedMeans(listing, commitHashEnd, p + 1);
    }
  }

  /** `s` with the records among `rs` appended in order and their URL hashes added. */
  function Merged(s: Snapshot, rs: seq<Option<Record>>): Snapshot {
    Snapshot(s.commitsInfo + Somes(rs), s.processedCommits + Hashes(Somes(rs)))
  }

  /**
   * `after` is `before` with one page merged under some schedule of its tasks:
   * the results are appended in completion order, and each task tested its sha
   * against the processed set as it stood after the merges that preceded its test.
   */
  ghost predicate MergedPage(page: seq<Summary>, before: Snapshot, after: Snapshot) {
    exists done: seq<Summary>, seen: seq<nat> ::
      Schedules(page, done, seen) && after == Merged(before, Interleaved(done, seen, before.processedCommits))
  }

  /** The state the last checkpoint holds, or `start` when nothing was saved. */
  function LastSaved(start: Snapshot, checkpoints: seq<PersistedProgress>): Snapshot {
    if checkpoints == [] then start else Decode(checkpoints[|checkpoints| - 1])
  }

  /**
   * Checkpoint `k` (counting from 0) saves the state after merging page `k + 1`
   * into what checkpoint `k - 1` saved (into `start` for the first one).
   */
  ghost predicate Replays(listing: seq<Option<seq<Summary>>>, start: Snapshot, checkpoints: seq<PersistedProgress>)
    decreases |checkpoints|
  {
    checkpoints != [] ==>
      var earlier := checkpoints[..|checkpoints| - 1];
      && Replays(listing, start, earlier)
      && HasCommits(ListedPage(listing, |checkpoints|))
      && MergedPage(ListedPage(listing, |checkpoints|).value, LastSaved(start, earlier), LastSaved(start, checkpoints))
  }

  /**
   * Under any schedule a merge keeps the old records as a prefix, appends at
   * most one record per summary, and adds exactly the URL hashes of the
   * appended records.
   */
  lemma {:induction false} MergedPageGrowth(page: seq<Summary>, before: Snapshot, after: Snapshot)
    requires MergedPage(page, before, after)
    ensures |before.commitsInfo| <= |after.commitsInfo| <= |before.commitsInfo| + |page|
    ensures after.commitsInfo[..|before.commitsInfo|] == before.commitsInfo
    ensures after.processedCommits == before.processedCommits + Hashes(after.commitsInfo[|before.commitsInfo|..])
  {
    var done, seen :| Schedules(page, done, seen) && after == Merged(before, Interleaved(done, seen, before.processedCommits));
    var rs := Interleaved(done, seen, before.processedCommits);
    SomesLength(rs);
    assert |done| == |multiset(done)| == |multiset(page)| == |page|;
    assert after.commitsInfo[|before.commitsInfo|..] == Somes(rs);
  }

  /**
   * A page without duplicate shas (whose commit URLs end in their shas) merges
   * to the same records under every schedule: the non-skipped summaries'
   * records in some order, one per result that was not None.
   */
  lemma {:induction false} MergedPageWithoutDuplicates(page: seq<Summary>, before: Snapshot, after: Snapshot)
    requires MergedPage(page, before, after)
    requires DistinctShas(page) && forall i :: 0 <= i < |page| ==> UrlEndsWithSha(page[i])
    ensures var n := |before.commitsInfo|;
      && n <= |after.commitsInfo|
      && multiset(after.commitsInfo[n..]) == multiset(Somes(PageResults(page, before.processedCommits)))
      && |after.commitsInfo| == n + |page| - multiset(PageResults(page, before.processedCommits))[None]
  {
    var processed := before.processedCommits;
    var done, seen :| Schedules(page, done, seen) && after == Merged(before, Interleaved(done, seen, processed));
    DistinctShasPermutation(done, page);
    forall k | 0 <= k < |done| ensures UrlEndsWithSha(done[k]) {
      assert done[k] in multiset(page);
    }
    DistinctShasScheduleIrrelevant(done, seen, processed);
    PageResultsPermutation(done, page, processed);
    CompletionOrderIrrelevant(PageResults(page, processed), PageResults(done, processed));
    var added := Somes(PageResults(done, processed));
    assert after.commitsInfo[|before.commitsInfo|..] == added;
    SomesLength(PageResults(page, processed));
    assert |added| == |multiset(added)|;
    assert |Somes(PageResults(page, processed))| == |multiset(Somes(PageResults(page, processed)))|;
  }

  /**
   * Resuming after a saved page skips every summary of it, whatever the
   * schedule, when every commit URL ends in its sha.
   */
  lemma {:induction false} MergedPageSkipsOnResume(page: seq<Summary>, before: Snapshot, after: Snapshot)
    requires MergedPage(page, before, after)
    requires forall i :: 0 <= i < |page| ==> UrlEndsWithSha(page[i])
    ensures forall i :: 0 <= i < |page| ==> ProcessCommit(page[i], after.processedCommits).None?
  {
    var done, seen :| Schedules(page, done, seen) && after == Merged(before, Interleaved(done, seen, before.processedCommits));
    ResumeSkipsMergedPage(page, done, seen, before.processedCommits);
  }

  /** Saving one more merged page extends the replay by that page. */
  lemma {:induction false} ReplaysExtend(listing: seq<Option<seq<Summary>>>, start: Snapshot,
                      checkpoints: seq<PersistedProgress>, page: seq<Summary>, file: PersistedProgress,
                      before: Snapshot, after: Snapshot)
    requires Replays(listing, start, checkpoints)
    requires ListedPage(listing, |checkpoints| + 1) == Some(page) && page != []
    requires before == LastSaved(start, checkpoints) && after == Decode(file)
    requires MergedPage(page, before, after)
    ensures Replays(listing, start, checkpoints + [file])
    ensures LastSaved(start, checkpoints + [file]) == after
  {
  }

  class GitHubCommitsFetcher {
    // Only stored: they shape the requests and the file writes, which are
    // outside this model (see `Commits.ProcessCommitWithDetail` for the latter).
    const repoOwner: string
    const repoName: string
    const perPage: int
    const commitHashEnd: Option<string>
    const saveFiles: bool
    const githubToken: string
    var commitsInfo: seq<Record>
    var processedCommits: set<string>

    ghost function State(): Snapshot
      reads this
    {
      Snapshot(commitsInfo, processedCommits)
    }

    /** `__init__` once the token resolved; the failing case is `Create`'s. */
    constructor (repoOwner: string, repoName: string, perPage: int, commitHashEnd: Option<string>,
                 saveFiles: bool, explicitToken: Option<string>, envToken: Option<string>,
                 progressFile: Option<PersistedProgress>)
      requires ResolveToken(explicitToken, envToken).Some?
      ensures this.repoOwner == repoOwner && this.repoName == repoName && this.perPage == perPage
      ensures this.commitHashEnd == commitHashEnd && this.saveFiles == saveFiles
      ensures githubToken == ResolveToken(explicitToken, envToken).value
      ensures State() == Initial(progressFile)
    {
      this.repoOwner := repoOwner;
      this.repoName := repoName;
      this.perPage := perPage;
      this.commitHashEnd := commitHashEnd;
      this.saveFiles := saveFiles;
      githubToken := ResolveToken(explicitToken, envToken).value;
      commitsInfo := [];
      processedCommits := {};
      new;
      Load(progressFile);
    }

    /**
     * `load_progress`: an existing file replaces both fields, a missing key
     * giving an empty value; without a file the processed set is emptied and
     * the record list is left as it is.
     */
    method Load(progressFile: Option<PersistedProgress>)
      modifies this
      ensures progressFile.Some? ==> State() == Decode(progressFile.value)
      ensures progressFile.None? ==> commitsInfo == old(commitsInfo) && processedCommits == {}
    {
      match progressFile
      case Some(p) =>
        commitsInfo := p.commitsInfo.GetOr([]);
        processedCommits := SetOf(p.processedCommits.GetOr([]));
      case None =>
        processedCommits := {};
    }

    /**
     * `save_progress`: writes the records as they are and the processed set as
     * a list in the set's own (arbitrary) iteration order. Loading the file
     * gives the current state back.
     */
    method Save() returns (file: PersistedProgress)
      ensures file.commitsInfo == Some(commitsInfo)
      ensures file.processedCommits.Some? && NoDuplicates(file.processedCommits.value)
      ensures Decode(file) == State()
    {
      var rest := processedCommits;
      var listed: seq<string> := [];
      while rest != {}
        invariant rest <= processedCommits
        invariant forall h :: h in processedCommits <==> h in rest || h in listed
        invariant forall h :: h in listed ==> h !in rest
        invariant NoDuplicates(listed)
        decreases |rest|
      {
        var h :| h in rest;
        listed := listed + [h];
        rest := rest - {h};
      }
      SetOfMembership(listed);
      file := PersistedProgress(Some(commitsInfo), Some(listed));
    }

    /**
     * The merge loop over `as_completed`: `completed` holds the page's results in
     * the order they completed; every record is appended and its URL hash added.
     */
    method MergePage(completed: seq<Option<Record>>)
      modifies this
      ensures commitsInfo == old(commitsInfo) + Somes(completed)
      ensures processedCommits == old(processedCommits) + Hashes(Somes(completed))
    {
      var i := 0;
      while i < |completed|
        invariant i <= |completed|
        invariant commitsInfo == old(commitsInfo) + Somes(completed[..i])
        invariant processedCommits == old(processedCommits) + Hashes(Somes(completed[..i]))
      {
        ghost var merged := Somes(completed[..i]);
        assert completed[..i + 1] == completed[..i] + [completed[i]];
        SomesAppend(completed[..i], [completed[i]]);
        assert [completed[i]][1..] == [];
        if completed[i].Some? {
          var info := completed[i].value;
          assert Somes(completed[..i + 1]) == merged + [info];
          HashesAppendOne(merged, info);
          commitsInfo := commitsInfo + [info];
          processedCommits := processedCommits + {CommitHash(info.commitUrl)};
        } else {
          assert Somes(completed[..i + 1]) == merged;
        }
        i := i + 1;
      }
      assert completed[..i] == completed;
    }

    /**
     * One page of `process_commits`: the pool runs one task per summary; the
     * tasks complete in the order `done`, the k-th of them having run its skip
     * test after `seen[k]` merges; the results are merged in completion order
     * and the progress is saved.
     */
    method ProcessPage(commitsData: seq<Summary>) returns (file: PersistedProgress)
      modifies this
      ensures MergedPage(commitsData, old(State()), State())
      ensures Decode(file) == State()
    {
      var done :| multiset(done) == multiset(commitsData);
      assert ScheduleFits(done, seq(|done|, k => 0));
      var seen :| ScheduleFits(done, seen);
      var completed := Interleaved(done, seen, processedCommits);
      MergePage(completed);
      assert Schedules(commitsData, done, seen);
      file := Save();
    }

    /**
     * `process_commits`: requests pages 1, 2, ... in turn; stops without merging
     * or saving at the first page whose fetch failed or came back empty; merges
     * and saves every other page, in an arbitrary completion order, and stops
     * after the first page that lists `commitHashEnd`.
     */
    method ProcessCommits(listing: seq<Option<seq<Summary>>>)
      returns (requested: seq<int>, checkpoints: seq<PersistedProgress>)
      modifies this
      ensures |requested| == PagesRequested(listing, commitHashEnd, 1)
      ensures forall k :: 0 <= k < |requested| ==> requested[k] == k + 1
      ensures |checkpoints| == if HasCommits(ListedPage(listing, |requested|)) then |requested| else |requested| - 1
      ensures Replays(listing, old(State()), checkpoints)
      ensures State() == LastSaved(old(State()), checkpoints)
    {
      ghost var start := State();
      var page := 1;
      var allCommitsFetched := false;
      requested, checkpoints := [], [];
      while !allCommitsFetched
        invariant 1 <= page <= |listing| + 1
        invariant |requested| == page - 1 == |checkpoints|
        invariant forall k :: 0 <= k < |requested| ==> requested[k] == k + 1
        invariant !allCommitsFetched ==>
                    PagesRequested(listing, commitHashEnd, 1) == page - 1 + PagesRequested(listing, commitHashEnd, page)
        invariant allCommitsFetched ==>
                    PagesRequested(listing, commitHashEnd, 1) == page - 1 && HasCommits(ListedPage(listing, page - 1))
        invariant Replays(listing, start, checkpoints)
        invariant State() == LastSaved(start, checkpoints)
        decreases if allCommitsFetched then 0 else |listing| + 2 - page
      {
        requested := requested + [page];
        var commitsData := ListedPage(listing, page);
        if !HasCommits(commitsData) {
          break;
        }
        ghost var before := State();
        var file := ProcessPage(commitsData.value);
        if ReachedEnd(commitsData.value, commitHashEnd) {
          allCommitsFetched := true;
        }
        page := page + 1;
        ReplaysExtend(listing, start, checkpoints, commitsData.value, file, before, State());
        checkpoints := checkpoints + [file];
      }
    }
  }

  /** Construction: fails (the source raises ValueError) exactly when no token resolves. */
  method Create(repoOwner: string, repoName: string, perPage: int, commitHashEnd: Option<string>,
                saveFiles: bool, explicitToken: Option<string>, envToken: Option<string>,
                progressFile: Option<PersistedProgress>)
    returns (f: Option<GitHubCommitsFetcher>)
    ensures f.None? <==> ResolveToken(explicitToken, envToken).None?
    ensures f.Some? ==> fresh(f.value)
    ensures f.Some? ==> f.value.githubToken == ResolveToken(explicitToken, envToken).value
    ensures f.Some? ==> f.value.State() == Initial(progressFile)
  {
    if ResolveToken(explicitToken, envToken).None? {
      return None;
    }
    var fetcher := new GitHubCommitsFetcher(repoOwner, repoName, perPage, commitHashEnd, saveFiles,
                                            explicitToken, envToken, progressFile);
    f := Some(fetcher);
  }
}
