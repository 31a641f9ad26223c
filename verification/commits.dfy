/**
 * Per-commit logic of the fetcher: the commit summary of the listing endpoint,
 * the normalised record kept in progress, the hash the merge step derives from
 * a record, the skip rule of `process_commit` and the pieces the page merge and
 * the pagination stop test are built from.
 */
module Commits {
  import opened Wrappers

  /** One entry of a listing page, reduced to the fields the fetcher reads. */
  datatype Summary = Summary(
    sha: string,            // commit["sha"]
    url: string,            // commit["url"], the detail endpoint; only mirrored here,
                            // since the detail fetch is reduced to a flag
    htmlUrl: string,        // commit["html_url"]
    authorName: string,     // commit["commit"]["author"]["name"]
    date: string,           // commit["commit"]["author"]["date"]
    message: string,        // commit["commit"]["message"]
    login: Option<string>   // commit["author"]["login"]; None when "author" is null
  )

  /** The normalised record appended to `commits_info`. */
  datatype Record = Record(
    commitUrl: string,
    authorName: string,
    authorUrl: string,
    commitDate: string,
    commitMessage: string
  )

  const ProfilePrefix: string := "https://github.com/"
  const NoAuthorUrl: string := "N/A"

  // ---------------------------------------------------------------------------
  // Splitting a URL on "/" (Python's str.split with an explicit separator)
  // ---------------------------------------------------------------------------

  /** Concatenation of `parts` with `sep` between neighbours (`sep.join(parts)`). */
  function Join(parts: seq<string>, sep: char): string
    requires |parts| >= 1
    decreases |parts|
  {
    var m := |parts| - 1;
    if m == 0 then parts[0] else Join(parts[..m], sep) + [sep] + parts[m]
  }

  /**
   * `s.split(sep)`, read from the end: a separator opens a new, empty last
   * part, any other character extends the last part.
   */
  function Split(s: string, sep: char): (parts: seq<string>)
    ensures |parts| >= 1
    decreases |s|
  {
    if s == [] then [[]]
    else
      var n := |s| - 1;
      var init := Split(s[..n], sep);
      var k := |init| - 1;
      if s[n] == sep then init + [[]]
      else init[..k] + [init[k] + [s[n]]]
  }

  /** No part holds the separator. */
  ghost predicate FreeOf(parts: seq<string>, sep: char) {
    forall i :: 0 <= i < |parts| ==> sep !in parts[i]
  }

  /** No part of `split` holds the separator. */
  lemma {:induction false} SplitPartsFreeOfSep(s: string, sep: char)
    ensures FreeOf(Split(s, sep), sep)
    decreases |s|
  {
    if s != [] {
      var n := |s| - 1;
      SplitPartsFreeOfSep(s[..n], sep);
      var init := Split(s[..n], sep);
      var k := |init| - 1;
      var parts := Split(s, sep);
      if s[n] != sep {
        forall i | 0 <= i < |parts| ensures sep !in parts[i] {
          if i < k {
            assert parts[i] == init[i];
          }
        }
      }
    }
  }

  /** Joining the parts of `split` with the separator gives `s` back. */
  lemma {:induction false} SplitJoin(s: string, sep: char)
    ensures Join(Split(s, sep), sep) == s
    decreases |s|
  {
    if s != [] {
      var n := |s| - 1;
      SplitJoin(s[..n], sep);
      var init := Split(s[..n], sep);
      var k := |init| - 1;
      var parts := Split(s, sep);
      assert s == s[..n] + [s[n]];
      if s[n] == sep {
        assert parts[..|init|] == init;
      } else if k > 0 {
        assert parts[..k] == init[..k];
      }
    }
  }

  /** `h` is the text after the last "/" of `url`, or all of `url` when it has none. */
  ghost predicate IsLastSegment(url: string, h: string) {
    && |h| <= |url|
    && url[|url| - |h|..] == h
    && '/' !in h
    && (|h| == |url| || url[|url| - |h| - 1] == '/')
  }

  /** At most one string is the last segment of a URL. */
  lemma LastSegmentUnique(url: string, h1: string, h2: string)
    requires IsLastSegment(url, h1) && IsLastSegment(url, h2)
    ensures h1 == h2
  {
  }

  /** The hash the merge step records for a record: `url.split("/")[-1]`. */
  function CommitHash(url: string): string {
    var parts := Split(url, '/');
    parts[|parts| - 1]
  }

  /** The hash is the text after the last "/" of the URL, or the whole URL without one. */
  lemma {:induction false} CommitHashIsLastSegment(url: string)
    ensures IsLastSegment(url, CommitHash(url))
    decreases |url|
  {
    if url != [] {
      var n := |url| - 1;
      var init := url[..n];
      CommitHashIsLastSegment(init);
      var h0, h := CommitHash(init), CommitHash(url);
      if url[n] != '/' {
        assert h == h0 + [url[n]];
        assert url == init + [url[n]];
        assert url[|url| - |h|..] == init[|init| - |h0|..] + [url[n]];
        if |h0| < |init| {
          assert url[|url| - |h| - 1] == init[|init| - |h0| - 1];
        }
      }
    }
  }

  /** A commit page URL of the usual shape ".../commit/<sha>" with a sha free of "/". */
  ghost predicate UrlEndsWithSha(c: Summary) {
    && '/' !in c.sha
    && |c.sha| < |c.htmlUrl|
    && c.htmlUrl[|c.htmlUrl| - |c.sha|..] == c.sha
    && c.htmlUrl[|c.htmlUrl| - |c.sha| - 1] == '/'
  }

  /** For such a URL the re-derived hash is the summary's own sha. */
  lemma {:induction false} HashOfCommitUrl(c: Summary)
    requires UrlEndsWithSha(c)
    ensures CommitHash(c.htmlUrl) == c.sha
  {
    assert IsLastSegment(c.htmlUrl, c.sha);
    CommitHashIsLastSegment(c.htmlUrl);
    LastSegmentUnique(c.htmlUrl, CommitHash(c.htmlUrl), c.sha);
  }

  // ---------------------------------------------------------------------------
  // process_commit
  // ---------------------------------------------------------------------------

  /** The "Author URL" field: a profile link when the author account is known. */
  function AuthorUrl(login: Option<string>): (u: string)
    ensures u == NoAuthorUrl <==> login.None?
    ensures login.Some? ==> ProfileLogin(u) == login
  {
    match login
    case Some(name) => ProfilePrefix + name
    case None => NoAuthorUrl
  }

  /** The account name a profile link points to, if it is one. */
  function ProfileLogin(u: string): Option<string> {
    if |ProfilePrefix| <= |u| && u[..|ProfilePrefix|] == ProfilePrefix
    then Some(u[|ProfilePrefix|..])
    else None
  }

  /** The record `process_commit` builds; it reads the summary only. */
  function RecordOf(c: Summary): Record {
    Record(c.htmlUrl, c.authorName, AuthorUrl(c.login), c.date, c.message)
  }

  /**
   * `process_commit`: nothing for a sha already processed, otherwise the record
   * built from the summary alone, whatever the detail fetch returned.
   */
  function ProcessCommit(c: Summary, processed: set<string>): (r: Option<Record>)
    ensures r.None? <==> c.sha in processed
    ensures r.Some? ==> r.value.commitUrl == c.htmlUrl
    ensures r.Some? ==> r.value.authorName == c.authorName
    ensures r.Some? ==> (r.value.authorUrl == NoAuthorUrl <==> c.login.None?)
    ensures r.Some? && c.login.Some? ==> ProfileLogin(r.value.authorUrl) == c.login
    ensures r.Some? ==> r.value.commitDate == c.date && r.value.commitMessage == c.message
  {
    if c.sha in processed then None else Some(RecordOf(c))
  }

  /** What one `process_commit` call yields: its result, and whether it dumps the commit's files. */
  datatype Outcome = Outcome(result: Option<Record>, writesFiles: bool)

  /**
   * `process_commit` with its detail fetch: `detailData` says whether the fetch
   * gave a non-empty body. A skipped commit is not fetched and writes nothing;
   * any other commit writes its files only with detail data and saving on, and
   * yields its record whatever the fetch gave.
   */
  function ProcessCommitWithDetail(c: Summary, processed: set<string>, detailData: bool, saveFiles: bool): (o: Outcome)
    ensures o.result == ProcessCommit(c, processed)
    ensures o.writesFiles <==> o.result.Some? && detailData && saveFiles
  {
    if c.sha in processed then Outcome(None, false)
    else Outcome(Some(RecordOf(c)), detailData && saveFiles)
  }

  // ---------------------------------------------------------------------------
  // A page's worth of results and their merge
  // ---------------------------------------------------------------------------

  /** One `process_commit` call per summary, every one against the same processed set. */
  function PageResults(page: seq<Summary>, processed: set<string>): (rs: seq<Option<Record>>)
    ensures |rs| == |page|
    decreases |page|
  {
    if page == [] then []
    else
      var n := |page| - 1;
      PageResults(page[..n], processed) + [ProcessCommit(page[n], processed)]
  }

  /** The i-th result is `process_commit` of the i-th summary. */
  lemma {:induction false} PageResultsAt(page: seq<Summary>, processed: set<string>, i: nat)
    requires i < |page|
    ensures PageResults(page, processed)[i] == ProcessCommit(page[i], processed)
    decreases |page|
  {
    var n := |page| - 1;
    if i < n {
      PageResultsAt(page[..n], processed, i);
    }
  }

  /** The records among `rs`, in order (the `if commit_info:` filter). */
  function Somes(rs: seq<Option<Record>>): seq<Record> {
    if rs == [] then []
    else
      var rest := Somes(rs[1..]);
      if rs[0].Some? then [rs[0].value] + rest else rest
  }

  /** One record per non-None result: the list grows by exactly that many. */
  lemma {:induction false} SomesLength(rs: seq<Option<Record>>)
    ensures |Somes(rs)| == |rs| - multiset(rs)[None]
  {
    if rs != [] {
      assert rs == [rs[0]] + rs[1..];
      SomesLength(rs[1..]);
    }
  }

  lemma {:induction false} SomesAppend(a: seq<Option<Record>>, b: seq<Option<Record>>)
    ensures Somes(a + b) == Somes(a) + Somes(b)
  {
    if a != [] {
      assert (a + b)[1..] == a[1..] + b;
      SomesAppend(a[1..], b);
    } else {
      assert a + b == b;
    }
  }

  /** Each record occurs among the merged records as often as it was returned. */
  lemma {:induction false} SomesCount(rs: seq<Option<Record>>, r: Record)
    ensures multiset(Somes(rs))[r] == multiset(rs)[Some(r)]
  {
    if rs != [] {
      assert rs == [rs[0]] + rs[1..];
      SomesCount(rs[1..], r);
    }
  }

  /** The set of hashes the merge step adds for `recs`. */
  function Hashes(recs: seq<Record>): set<string> {
    if recs == [] then {}
    else Hashes(recs[..|recs| - 1]) + {CommitHash(recs[|recs| - 1].commitUrl)}
  }

  lemma {:induction false} HashesAppendOne(recs: seq<Record>, r: Record)
    ensures Hashes(recs + [r]) == Hashes(recs) + {CommitHash(r.commitUrl)}
  {
  }

  /** A hash is added exactly when some merged record's URL yields it. */
  lemma {:induction false} HashesMembership(recs: seq<Record>, h: string)
    ensures h in Hashes(recs) <==> exists r :: r in recs && CommitHash(r.commitUrl) == h
  {
    if recs != [] {
      var init := recs[..|recs| - 1];
      assert recs == init + [recs[|recs| - 1]];
      HashesMembership(init, h);
    }
  }

  /**
   * Completion order does not matter: results merged in any order give the same
   * records up to order and the same hashes.
   */
  lemma {:induction false} CompletionOrderIrrelevant(results: seq<Option<Record>>, completed: seq<Option<Record>>)
    requires multiset(completed) == multiset(results)
    ensures multiset(Somes(completed)) == multiset(Somes(results))
    ensures Hashes(Somes(completed)) == Hashes(Somes(results))
  {
    forall r: Record
      ensures multiset(Somes(completed))[r] == multiset(Somes(results))[r]
    {
      SomesCount(completed, r);
      SomesCount(results, r);
    }
    var a, b := Somes(completed), Somes(results);
    assert forall r :: r in a <==> r in b by {
      forall r ensures r in a <==> r in b {
        assert r in a <==> r in multiset(a);
        assert r in b <==> r in multiset(b);
      }
    }
    forall h ensures h in Hashes(a) <==> h in Hashes(b) {
      HashesMembership(a, h);
      HashesMembership(b, h);
    }
  }

  /** Adding hashes that are all present already leaves the processed set as it was. */
  lemma {:induction false} AddKnownHashesIsNoOp(processed: set<string>, recs: seq<Record>)
    requires forall r :: r in recs ==> CommitHash(r.commitUrl) in processed
    ensures processed + Hashes(recs) == processed
  {
    forall h | h in Hashes(recs) ensures h in processed {
      HashesMembership(recs, h);
    }
  }

  // ---------------------------------------------------------------------------
  // The stop test of the pagination loop
  // ---------------------------------------------------------------------------

  /** `any(commit["sha"] == sha for commit in page)`. */
  function ContainsSha(page: seq<Summary>, sha: string): bool {
    if page == [] then false
    else page[0].sha == sha || ContainsSha(page[1..], sha)
  }

  /** The loop stops after a page when a non-empty end hash is set and the page lists it. */
  function ReachedEnd(page: seq<Summary>, commitHashEnd: Option<string>): bool {
    match commitHashEnd
    case None => false
    case Some(end) => end != "" && ContainsSha(page, end)
  }

  /**
   * The stop test holds exactly when an end hash is set, is non-empty, and some
   * summary anywhere on the page (not only the last one) carries it.
   */
  lemma {:induction false} ReachedEndMeans(page: seq<Summary>, commitHashEnd: Option<string>)
    ensures ReachedEnd(page, commitHashEnd) <==>
              commitHashEnd.Some? && commitHashEnd.value != "" &&
              exists i :: 0 <= i < |page| && page[i].sha == commitHashEnd.value
  {
    if commitHashEnd.Some? {
      ContainsShaMeans(page, commitHashEnd.value);
    }
  }

  lemma {:induction false} ContainsShaMeans(page: seq<Summary>, sha: string)
    ensures ContainsSha(page, sha) <==> exists i :: 0 <= i < |page| && page[i].sha == sha
  {
    if page != [] {
      ContainsShaMeans(page[1..], sha);
      if ContainsSha(page[1..], sha) && page[0].sha != sha {
        var i :| 0 <= i < |page[1..]| && page[1..][i].sha == sha;
        assert page[i + 1].sha == sha;
      }
      if !ContainsSha(page, sha) {
        forall i | 0 <= i < |page| ensures page[i].sha != sha {
          if i > 0 {
            assert page[i] == page[1..][i - 1];
          }
        }
      }
    }
  }

  // ---------------------------------------------------------------------------
  // Skip tests interleaved with merges
  // ---------------------------------------------------------------------------

  /**
   * A schedule of one page's tasks: `done` lists the summaries in the order
   * their results complete and are merged, and `seen[k]` is how many results
   * had been merged when the k-th task to complete ran its skip test (at most
   * k, since the task completes after its test).
   */
  predicate ScheduleFits(done: seq<Summary>, seen: seq<nat>) {
    |seen| == |done| && forall k :: 0 <= k < |seen| ==> seen[k] <= k
  }

  /** A schedule of the tasks of `page`: every summary runs once. */
  predicate Schedules(page: seq<Summary>, done: seq<Summary>, seen: seq<nat>) {
    multiset(done) == multiset(page) && ScheduleFits(done, seen)
  }

  /**
   * The results in completion order: the k-th task to complete tests its sha
   * against the processed set as it stood after the first `seen[k]` merges.
   */
  function Interleaved(done: seq<Summary>, seen: seq<nat>, processed: set<string>): (rs: seq<Option<Record>>)
    requires ScheduleFits(done, seen)
    ensures |rs| == |done|
    decreases |done|
  {
    if done == [] then []
    else
      var n := |done| - 1;
      var earlier := Interleaved(done[..n], seen[..n], processed);
      earlier + [ProcessCommit(done[n], processed + Hashes(Somes(earlier[..seen[n]])))]
  }

  /** Each task's result is `process_commit` against the set after the merges it saw. */
  lemma {:induction false} InterleavedAt(done: seq<Summary>, seen: seq<nat>, processed: set<string>, k: nat)
    requires ScheduleFits(done, seen) && k < |done|
    ensures var rs := Interleaved(done, seen, processed);
      rs[k] == ProcessCommit(done[k], processed + Hashes(Somes(rs[..seen[k]])))
    decreases |done|
  {
    var n := |done| - 1;
    var rs := Interleaved(done, seen, processed);
    var earlier := Interleaved(done[..n], seen[..n], processed);
    assert rs == earlier + [ProcessCommit(done[n], processed + Hashes(Somes(earlier[..seen[n]])))];
    assert rs[..seen[k]] == earlier[..seen[k]];
    if k < n {
      InterleavedAt(done[..n], seen[..n], processed, k);
    }
  }

  /** The hashes of a prefix of the results are among the hashes of all of them. */
  lemma {:induction false} HashesOfPrefix(rs: seq<Option<Record>>, j: nat)
    requires j <= |rs|
    ensures Hashes(Somes(rs[..j])) <= Hashes(Somes(rs))
  {
    assert rs == rs[..j] + rs[j..];
    SomesAppend(rs[..j], rs[j..]);
    forall h | h in Hashes(Somes(rs[..j])) ensures h in Hashes(Somes(rs)) {
      HashesMembership(Somes(rs[..j]), h);
      HashesMembership(Somes(rs), h);
    }
  }

  /** A record kept by the filter came from some result. */
  lemma SomesSource(rs: seq<Option<Record>>, r: Record)
    requires r in Somes(rs)
    ensures exists m :: 0 <= m < |rs| && rs[m] == Some(r)
  {
    SomesCount(rs, r);
    assert Some(r) in multiset(rs);
  }

  /** When every check runs before every merge, each task sees the set the page began with. */
  lemma {:induction false} ChecksBeforeMerges(done: seq<Summary>, seen: seq<nat>, processed: set<string>)
    requires ScheduleFits(done, seen)
    requires forall k :: 0 <= k < |seen| ==> seen[k] == 0
    ensures Interleaved(done, seen, processed) == PageResults(done, processed)
    decreases |done|
  {
    if done != [] {
      var n := |done| - 1;
      ChecksBeforeMerges(done[..n], seen[..n], processed);
      var earlier := Interleaved(done[..n], seen[..n], processed);
      assert earlier[..seen[n]] == [];
      assert Hashes(Somes(earlier[..seen[n]])) == {};
    }
  }

  /** No two summaries of the page carry the same sha. */
  predicate DistinctShas(page: seq<Summary>) {
    forall i, j :: 0 <= i < j < |page| ==> page[i].sha != page[j].sha
  }

  /**
   * Without duplicate shas the schedule does not matter: when every commit
   * URL ends in its sha, the hashes merged before a task's check belong to
   * other commits, so every task decides as against the set the page began with.
   */
  lemma {:induction false} DistinctShasScheduleIrrelevant(done: seq<Summary>, seen: seq<nat>, processed: set<string>)
    requires ScheduleFits(done, seen) && DistinctShas(done)
    requires forall k :: 0 <= k < |done| ==> UrlEndsWithSha(done[k])
    ensures Interleaved(done, seen, processed) == PageResults(done, processed)
    decreases |done|
  {
    if done != [] {
      var n := |done| - 1;
      var c := done[n];
      DistinctShasScheduleIrrelevant(done[..n], seen[..n], processed);
      var earlier := Interleaved(done[..n], seen[..n], processed);
      var merged := Somes(earlier[..seen[n]]);
      if c.sha in Hashes(merged) {
        HashesMembership(merged, c.sha);
        var r :| r in merged && CommitHash(r.commitUrl) == c.sha;
        SomesSource(earlier[..seen[n]], r);
        var m :| 0 <= m < seen[n] && earlier[m] == Some(r);
        PageResultsAt(done[..n], processed, m);
        HashOfCommitUrl(done[m]);
        assert false;
      }
      assert ProcessCommit(c, processed + Hashes(merged)) == ProcessCommit(c, processed);
    }
  }

  /** A value counted twice in a sequence sits at two different indices. */
  lemma TwoOccurrences(xs: seq<Summary>, x: Summary)
    requires multiset(xs)[x] >= 2
    ensures exists i, j :: 0 <= i < j < |xs| && xs[i] == x && xs[j] == x
  {
    assert x in multiset(xs);
    var i :| 0 <= i < |xs| && xs[i] == x;
    var rest := xs[..i] + xs[i + 1..];
    assert xs == xs[..i] + [x] + xs[i + 1..];
    assert multiset(rest)[x] >= 1;
    var q :| 0 <= q < |rest| && rest[q] == x;
    if q < i {
      assert xs[q] == x;
    } else {
      assert xs[q + 1] == x;
    }
  }

  /** Reordering a page keeps its shas distinct. */
  lemma {:induction false} DistinctShasPermutation(done: seq<Summary>, page: seq<Summary>)
    requires multiset(done) == multiset(page) && DistinctShas(page)
    ensures DistinctShas(done)
  {
    forall i, j | 0 <= i < j < |done| ensures done[i].sha != done[j].sha {
      var a, b := done[i], done[j];
      assert a in multiset(page) && b in multiset(page);
      var p :| 0 <= p < |page| && page[p] == a;
      var q :| 0 <= q < |page| && page[q] == b;
      if a == b {
        assert done == done[..j] + done[j..];
        assert a in done[..j] && b in done[j..];
        assert multiset(done)[a] == multiset(done[..j])[a] + multiset(done[j..])[a];
        TwoOccurrences(page, a);
      }
    }
  }

  /** `PageResults` of a concatenation. */
  lemma {:induction false} PageResultsAppend(xs: seq<Summary>, ys: seq<Summary>, processed: set<string>)
    ensures PageResults(xs + ys, processed) == PageResults(xs, processed) + PageResults(ys, processed)
    decreases |ys|
  {
    if ys == [] {
      assert xs + ys == xs;
    } else {
      var m := |ys| - 1;
      assert (xs + ys)[..|xs + ys| - 1] == xs + ys[..m];
      PageResultsAppend(xs, ys[..m], processed);
    }
  }

  /** Taking one summary out of a page takes its result out of the page's results. */
  lemma {:induction false} PageResultsRemove(done: seq<Summary>, i: nat, processed: set<string>)
    requires i < |done|
    ensures multiset(PageResults(done, processed)) ==
              multiset(PageResults(done[..i] + done[i + 1..], processed)) + multiset{ProcessCommit(done[i], processed)}
  {
    var x, before, after := done[i], done[..i], done[i + 1..];
    assert done == before + [x] + after;
    PageResultsAppend(before + [x], after, processed);
    PageResultsAppend(before, [x], processed);
    PageResultsAppend(before, after, processed);
  }

  /** Reordering the summaries reorders their results. */
  lemma {:induction false} PageResultsPermutation(done: seq<Summary>, page: seq<Summary>, processed: set<string>)
    requires multiset(done) == multiset(page)
    ensures multiset(PageResults(done, processed)) == multiset(PageResults(page, processed))
    decreases |page|
  {
    if page == [] {
      assert |done| == |multiset(done)| == 0;
    } else {
      var n := |page| - 1;
      var x := page[n];
      assert page == page[..n] + [x];
      assert x in multiset(done);
      var i :| 0 <= i < |done| && done[i] == x;
      assert done == done[..i] + [x] + done[i + 1..];
      var rest := done[..i] + done[i + 1..];
      assert multiset(rest) == multiset(done) - multiset{x};
      PageResultsPermutation(rest, page[..n], processed);
      PageResultsRemove(done, i, processed);
      PageResultsRemove(page, n, processed);
    }
  }

  // ---------------------------------------------------------------------------
  // Consequences for resuming and for duplicates
  // ---------------------------------------------------------------------------

  /**
   * Resuming skips a merged page: when every commit URL ends in its sha, after
   * a page has been merged under any schedule, every summary on it is skipped
   * when seen again.
   */
  lemma {:induction false} ResumeSkipsMergedPage(page: seq<Summary>, done: seq<Summary>, seen: seq<nat>,
                                                 processed: set<string>)
    requires Schedules(page, done, seen)
    requires forall i :: 0 <= i < |page| ==> UrlEndsWithSha(page[i])
    ensures forall i :: 0 <= i < |page| ==>
              ProcessCommit(page[i], processed + Hashes(Somes(Interleaved(done, seen, processed)))).None?
  {
    var rs := Interleaved(done, seen, processed);
    var after := processed + Hashes(Somes(rs));
    forall i | 0 <= i < |page|
      ensures page[i].sha in after
    {
      var c := page[i];
      assert c in multiset(done);
      var k :| 0 <= k < |done| && done[k] == c;
      InterleavedAt(done, seen, processed, k);
      HashesOfPrefix(rs, seen[k]);
      if c.sha !in processed + Hashes(Somes(rs[..seen[k]])) {
        var r := RecordOf(c);
        assert rs[k] == Some(r);
        SomesCount(rs, r);
        assert multiset(rs)[Some(r)] > 0;
        assert r in multiset(Somes(rs));
        HashOfCommitUrl(c);
        HashesMembership(Somes(rs), c.sha);
      }
    }
  }

  /**
   * No one-to-one link between records and hashes: a new sha listed twice on
   * one page is recorded twice when the second task checks before the first
   * result is merged, and once when it checks after.
   */
  lemma {:induction false} SamePageDuplicateRecordedOnceOrTwice(c: Summary, seen: seq<nat>, processed: set<string>)
    requires c.sha !in processed && UrlEndsWithSha(c)
    requires ScheduleFits([c, c], seen)
    ensures Somes(Interleaved([c, c], seen, processed)) ==
              if seen[1] == 0 then [RecordOf(c), RecordOf(c)] else [RecordOf(c)]
  {
    var r := RecordOf(c);
    var first := Interleaved([c], seen[..1], processed);
    assert [c, c][..1] == [c];
    assert [c][..0] == [];
    assert first == [Some(r)] by {
      assert Interleaved([c][..0], seen[..1][..0], processed) == [];
    }
    var view := processed + Hashes(Somes(first[..seen[1]]));
    assert Interleaved([c, c], seen, processed) == first + [ProcessCommit(c, view)];
    assert Somes([Some(r)]) == [r] by {
      assert [Some(r)][1..] == [];
    }
    if seen[1] == 0 {
      assert first[..0] == [];
      assert view == processed;
      assert Somes([Some(r), Some(r)]) == [r] + Somes([Some(r)]) by {
        assert [Some(r), Some(r)][1..] == [Some(r)];
      }
    } else {
      assert first[..1] == [Some(r)];
      assert Hashes([r]) == Hashes([]) + {CommitHash(r.commitUrl)};
      HashOfCommitUrl(c);
      assert view == processed + {c.sha};
      assert Somes([Some(r), None]) == [r] by {
        assert [Some(r), None][1..] == [None];
        var skipped: seq<Option<Record>> := [None];
        assert skipped[1..] == [];
        assert Somes(skipped) == [];
      }
    }
  }
  /**
   * A summary whose URL ends in another summary's sha can hide that summary
   * on the same page: recorded twice when the second test precedes the first
   * merge, once when it follows it, even though the two shas differ.
   */
  lemma {:induction false} CrossUrlScheduleMatters(d: Summary, c: Summary, processed: set<string>)
    requires d.sha !in processed && c.sha !in processed
    requires CommitHash(d.htmlUrl) == c.sha
    ensures Somes(Interleaved([d, c], [0, 0], processed)) == [RecordOf(d), RecordOf(c)]
    ensures Somes(Interleaved([d, c], [0, 1], processed)) == [RecordOf(d)]
  {
    var rd, rc := RecordOf(d), RecordOf(c);
    var first := Interleaved([d], [0], processed);
    assert [d, c][..1] == [d] && [0, 0][..1] == [0] && [0, 1][..1] == [0];
    assert first == [Some(rd)] by {
      assert [d][..0] == [] && [0][..0] == [];
      assert Interleaved([d][..0], [0][..0], processed) == [];
    }
    assert Somes([Some(rc)]) == [rc] by {
      assert [Some(rc)][1..] == [];
    }
    assert Somes([Some(rd), Some(rc)]) == [rd] + Somes([Some(rc)]) by {
      assert [Some(rd), Some(rc)][1..] == [Some(rc)];
    }
    assert first[..0] == [];
    assert Interleaved([d, c], [0, 0], processed) == [Some(rd), Some(rc)];
    assert first[..1] == [Some(rd)];
    assert Somes([Some(rd)]) == [rd] by {
      assert [Some(rd)][1..] == [];
    }
    assert Hashes([rd]) == Hashes([]) + {CommitHash(rd.commitUrl)};
    assert Interleaved([d, c], [0, 1], processed) == [Some(rd), None];
    assert Somes([Some(rd), None]) == [rd] by {
      assert [Some(rd), None][1..] == [None];
      var skipped: seq<Option<Record>> := [None];
      assert skipped[1..] == [];
      assert Somes(skipped) == [];
    }
  }
}
