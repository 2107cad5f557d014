/** The web layer's own logic, with the Flask routing, templates and
    responses taken away: the scan over all repositories, the parsing of
    archive tag names, the archive tag message, the exclusion-list field of
    the settings form and the cache lookups of the repository page. */
module App {
  import opened Wrappers
  import opened Json
  import opened Text
  import opened StableSort
  import opened GitHubClient
  import Models

  // ---------------------------------------------------------------------
  // The scan over all repositories
  // ---------------------------------------------------------------------

  /** A repository the scan leaves out: its full or its short name is in
      the exclusion set. */
  predicate IsExcluded(repo: Repo, excluded: set<string>)
  {
    repo.fullName in excluded || repo.name in excluded
  }

  /** `set(prefs.get("excluded_repos", []))`: the names in the stored list
      (an entry that is not a string can never equal a repository name). */
  function ExcludedSet(prefs: Dict): (names: set<string>)
    ensures "excluded_repos" !in prefs ==> names == {}
    ensures "excluded_repos" in prefs && prefs["excluded_repos"].JList? ==>
      forall n :: n in names <==> JStr(n) in prefs["excluded_repos"].items
  {
    if "excluded_repos" in prefs && prefs["excluded_repos"].JList? then
      set j | j in prefs["excluded_repos"].items && j.JStr? :: j.s
    else {}
  }

  /** The repositories that are not excluded, in fetch order. */
  function Kept(repos: seq<Repo>, excluded: set<string>): (kept: seq<Repo>)
    ensures |kept| <= |repos|
    ensures forall r :: r in kept <==> r in repos && !IsExcluded(r, excluded)
  {
    if repos == [] then []
    else
      var init := repos[..|repos| - 1];
      var last := repos[|repos| - 1];
      assert repos == init + [last];
      Kept(init, excluded) + (if IsExcluded(last, excluded) then [] else [last])
  }

  /** The record `scan` appends for a repository whose scan raised. */
  function ErrorRecord(repo: Repo, error: string): RepoScan
  {
    RepoScan(repo.owner, repo.name, repo.fullName, repo.defaultBranch.GetOr(DefaultBranchName), [], 0, false, Some(error))
  }

  /** What `scan` appends for one repository: the scan's result, or the
      degraded record when the GitHub calls (`fetch` Failure) or the scan
      itself raise. */
  function ScanOne(repo: Repo, fetch: Repo -> Result<RepoData>, now: int, parse: DateParser): RepoScan
  {
    match fetch(repo)
    case Failure(e) => ErrorRecord(repo, e)
    case Success(data) =>
      match ScanRepoSpec(repo, data, now, parse)
      case Failure(e) => ErrorRecord(repo, e)
      case Success(s) => s
  }

  /** One repository's record never depends on another's: it is its own
      scan when that succeeded, and otherwise a record of the same
      repository with no branches, a count of 0 and the error. */
  lemma ScanOneIsolated(repo: Repo, fetch: Repo -> Result<RepoData>, now: int, parse: DateParser)
    ensures var r := ScanOne(repo, fetch, now, parse);
      && r.owner == repo.owner && r.name == repo.name && r.fullName == repo.fullName
      && (r.error.None? <==> fetch(repo).Success? && ScanRepoSpec(repo, fetch(repo).value, now, parse).Success?)
      && (r.error.None? ==> r == ScanRepoSpec(repo, fetch(repo).value, now, parse).value)
      && (r.error.Some? ==> r.branches == [] && r.branchCount == 0 && !r.hasClaudeMd)
      && r.branchCount == |r.branches|
  {
    if fetch(repo).Success? {
      var data := fetch(repo).value;
      if ScanRepoSpec(repo, data, now, parse).Success? {
        ScanRepoRecords(repo, data, now, parse);
      }
    }
  }

  /** `results` after the loop has seen `repos`. */
  function Results(repos: seq<Repo>, excluded: set<string>, fetch: Repo -> Result<RepoData>,
                   now: int, parse: DateParser): seq<RepoScan>
  {
    if repos == [] then []
    else
      var last := repos[|repos| - 1];
      Results(repos[..|repos| - 1], excluded, fetch, now, parse)
        + (if IsExcluded(last, excluded) then [] else [ScanOne(last, fetch, now, parse)])
  }

  /** Exactly one record per repository that is not excluded, in fetch
      order, whether or not its scan raised. */
  lemma {:induction false} ResultsPerRepo(repos: seq<Repo>, excluded: set<string>, fetch: Repo -> Result<RepoData>,
                                          now: int, parse: DateParser)
    ensures var kept := Kept(repos, excluded);
      var rs := Results(repos, excluded, fetch, now, parse);
      && |rs| == |kept|
      && forall i :: 0 <= i < |kept| ==> rs[i] == ScanOne(kept[i], fetch, now, parse)
    decreases |repos|
  {
    if repos != [] {
      ResultsPerRepo(repos[..|repos| - 1], excluded, fetch, now, parse);
    }
  }

  /** The sort key of `results.sort(key=branch_count, reverse=True)`: a
      descending stable sort is the ascending stable sort by the negated
      count, because Python keeps equal elements in order under `reverse`. */
  function Descending(r: RepoScan): int
  {
    -r.branchCount
  }

  /** `sum(r["branch_count"] for r in results)`. */
  function SumCounts(rs: seq<RepoScan>): int
  {
    if rs == [] then 0 else rs[0].branchCount + SumCounts(rs[1..])
  }

  /** The totals of a scan and its repositories, most branches first. */
  datatype ScanSummary = ScanSummary(repos: seq<RepoScan>, totalRepos: int, totalBranches: int)

  /** `scan()` as a function of the repositories and what GitHub returns. */
  function ScanSpec(repos: seq<Repo>, excluded: set<string>, fetch: Repo -> Result<RepoData>,
                    now: int, parse: DateParser): ScanSummary
  {
    var sorted := SortBy(Results(repos, excluded, fetch, now, parse), Descending);
    ScanSummary(sorted, |sorted|, SumCounts(sorted))
  }

  /** The loop of `scan()` (app.py:142-174), with its per-repository
      try/except, the descending sort and the totals. */
  method Scan(repos: seq<Repo>, excluded: set<string>, fetch: Repo -> Result<RepoData>, now: int, parse: DateParser)
    returns (summary: ScanSummary)
    ensures summary == ScanSpec(repos, excluded, fetch, now, parse)
  {
    var results: seq<RepoScan> := [];
    var i := 0;
    while i < |repos|
      invariant 0 <= i <= |repos|
      invariant results == Results(repos[..i], excluded, fetch, now, parse)
    {
      var repo := repos[i];
      assert repos[..i + 1][..i] == repos[..i];
      if !(repo.fullName in excluded || repo.name in excluded) {
        var record: RepoScan;
        match fetch(repo) {
          case Failure(e) =>
            record := ErrorRecord(repo, e);
          case Success(data) =>
            var scanned := ScanRepo(repo, data, now, parse);
            if scanned.Failure? {
              record := ErrorRecord(repo, scanned.error);
            } else {
              record := scanned.value;
            }
        }
        results := results + [record];
      }
      i := i + 1;
    }
    assert repos[..i] == repos;
    var sorted := SortBy(results, Descending);
    summary := ScanSummary(sorted, |sorted|, SumCounts(sorted));
  }

  /** The count of a sum over an insertion is the inserted count plus the rest. */
  lemma {:induction false} SumCountsInsert(x: RepoScan, s: seq<RepoScan>)
    ensures SumCounts(InsertBefore(x, s, Descending)) == x.branchCount + SumCounts(s)
    decreases |s|
  {
    if s != [] && Descending(x) > Descending(s[0]) {
      SumCountsInsert(x, s[1..]);
    }
  }

  /** Sorting does not change the branch total. */
  lemma {:induction false} SumCountsSorted(s: seq<RepoScan>)
    ensures SumCounts(SortBy(s, Descending)) == SumCounts(s)
    decreases |s|
  {
    if s != [] {
      SumCountsSorted(s[1..]);
      SumCountsInsert(s[0], SortBy(s[1..], Descending));
    }
  }

  /** The scan's summary: one record per repository not excluded, ordered
      by branch count from most to fewest, repositories of equal count in
      fetch order, `total_repos` their number and `total_branches` the sum
      of their counts. */
  lemma ScanSummaryFacts(repos: seq<Repo>, excluded: set<string>, fetch: Repo -> Result<RepoData>,
                         now: int, parse: DateParser)
    ensures var s := ScanSpec(repos, excluded, fetch, now, parse);
      var rs := Results(repos, excluded, fetch, now, parse);
      && s.totalRepos == |s.repos| == |Kept(repos, excluded)|
      && (forall i, j :: 0 <= i < j < |s.repos| ==> s.repos[i].branchCount >= s.repos[j].branchCount)
      && multiset(s.repos) == multiset(rs)
      && (forall k :: WithKey(s.repos, Descending, k) == WithKey(rs, Descending, k))
      && s.totalBranches == SumCounts(rs)
  {
    var rs := Results(repos, excluded, fetch, now, parse);
    ResultsPerRepo(repos, excluded, fetch, now, parse);
    SumCountsSorted(rs);
    forall k ensures WithKey(SortBy(rs, Descending), Descending, k) == WithKey(rs, Descending, k) {
      SortByStable(rs, Descending, k);
    }
    var sorted := SortBy(rs, Descending);
    forall i, j | 0 <= i < j < |sorted| ensures sorted[i].branchCount >= sorted[j].branchCount {
      assert Descending(sorted[i]) <= Descending(sorted[j]);
    }
  }

  /** A repository is in the summary exactly when it is listed and not
      excluded: it appears under its full name, and an excluded one never. */
  lemma ScanSkipsExcluded(repos: seq<Repo>, excluded: set<string>, fetch: Repo -> Result<RepoData>,
                          now: int, parse: DateParser, repo: Repo)
    requires repo in repos
    ensures var s := ScanSpec(repos, excluded, fetch, now, parse);
      !IsExcluded(repo, excluded) <==> exists r :: r in s.repos && r.fullName == repo.fullName && r.name == repo.name
  {
    var kept := Kept(repos, excluded);
    var rs := Results(repos, excluded, fetch, now, parse);
    ResultsPerRepo(repos, excluded, fetch, now, parse);
    ScanSummaryFacts(repos, excluded, fetch, now, parse);
    var sorted := ScanSpec(repos, excluded, fetch, now, parse).repos;
    if !IsExcluded(repo, excluded) {
      var i :| 0 <= i < |kept| && kept[i] == repo;
      ScanOneIsolated(kept[i], fetch, now, parse);
      InMultiset(rs, sorted, i);
    } else {
      forall r | r in sorted ensures !(r.fullName == repo.fullName && r.name == repo.name) {
        var i := FromMultiset(sorted, rs, r);
        ScanOneIsolated(kept[i], fetch, now, parse);
        assert kept[i] in kept;
      }
    }
  }

  /** An element of a sequence is in every sequence with the same elements. */
  lemma InMultiset<T>(a: seq<T>, b: seq<T>, i: int)
    requires multiset(a) == multiset(b) && 0 <= i < |a|
    ensures a[i] in b
  {
    assert a[i] in multiset(a);
  }

  /** The position of an element in a sequence with the same elements. */
  lemma FromMultiset<T>(a: seq<T>, b: seq<T>, x: T) returns (i: int)
    requires multiset(a) == multiset(b) && x in a
    ensures 0 <= i < |b| && b[i] == x
  {
    assert x in multiset(b);
    i :| 0 <= i < |b| && b[i] == x;
  }

  // ---------------------------------------------------------------------
  // Archive tags
  // ---------------------------------------------------------------------

  /** The branch and date an archive tag's name records. */
  datatype ArchiveTag = ArchiveTag(branch: string, date: string)

  const ArchivePrefix := "archive/"

  /** The parsing of a tag name in `archive()`; None for a tag that does
      not start with "archive/", which the listing skips. */
  function ParseTag(name: string): (r: Option<ArchiveTag>)
    ensures r.Some? <==> ArchivePrefix <= name
  {
    if !(ArchivePrefix <= name) then None
    else
      ArchiveSplit(name[|ArchivePrefix|..]);
      assert name == ArchivePrefix + name[|ArchivePrefix|..];
      Some(TagOfParts(Split(name, '/')))
  }

  /** The branch and date read from the slash-separated pieces of an
      archive tag name: the pieces between the first and the last form the
      branch, the last the date; with only two pieces the date is unknown. */
  function TagOfParts(parts: seq<string>): ArchiveTag
    requires |parts| >= 2
  {
    var branch := if |parts| > 2 then Join(parts[1..|parts| - 1], '/') else parts[1];
    var date := if |parts| > 2 then parts[|parts| - 1] else "Unknown";
    ArchiveTag(branch, date)
  }

  /** The pieces of "archive/" + rest split at slashes. */
  lemma ArchiveSplit(rest: string)
    ensures Split(ArchivePrefix + rest, '/') == ["archive"] + Split(rest, '/')
  {
    assert ArchivePrefix + rest == "archive" + ['/'] + rest;
    SplitAppend("archive", rest, '/');
    SplitNoSep("archive", '/');
  }

  /** A name with one slash after the prefix names the branch after it and
      an unknown date. */
  lemma ParseTagNoDate(rest: string)
    requires '/' !in rest
    ensures ParseTag(ArchivePrefix + rest) == Some(ArchiveTag(rest, "Unknown"))
  {
    ParsePrefixed(rest);
    SplitNoSep(rest, '/');
  }

  /** A name with more slashes names the last piece as the date and the
      pieces between the prefix and the date, joined back with "/", as the
      branch. */
  lemma ParseTagWithDate(rest: string)
    requires '/' in rest
    ensures var pieces := Split(rest, '/');
      && |pieces| >= 2
      && ParseTag(ArchivePrefix + rest) == Some(ArchiveTag(Join(pieces[..|pieces| - 1], '/'), pieces[|pieces| - 1]))
  {
    var pieces := Split(rest, '/');
    SlashMeansTwoPieces(rest);
    var tag := ArchiveTag(Join(pieces[..|pieces| - 1], '/'), pieces[|pieces| - 1]);
    ParsePrefixed(rest);
    ParseOfPieces(ArchivePrefix + rest, pieces);
    assert ParseTag(ArchivePrefix + rest) == Some(tag);
  }

  /** A name that parses as the pieces after "archive", at least two of
      them, carries the middle pieces as its branch and the last as its
      date. */
  lemma ParseOfPieces(name: string, pieces: seq<string>)
    requires |pieces| >= 2
    requires ParseTag(name) == Some(TagOfParts(["archive"] + pieces))
    ensures ParseTag(name) == Some(ArchiveTag(Join(pieces[..|pieces| - 1], '/'), pieces[|pieces| - 1]))
  {
    PrefixedTag("archive", pieces);
  }

  /** The parse of "archive/" + rest, in terms of the pieces of `rest`. */
  lemma ParsePrefixed(rest: string)
    ensures ParseTag(ArchivePrefix + rest) == Some(TagOfParts(["archive"] + Split(rest, '/')))
  {
    ParseTagParts(ArchivePrefix + rest);
    ArchiveSplit(rest);
  }

  /** The tag read from a first piece followed by at least two more: the
      middle pieces form the branch, the last the date. */
  lemma PrefixedTag(head: string, pieces: seq<string>)
    requires |pieces| >= 2
    ensures TagOfParts([head] + pieces) == ArchiveTag(Join(pieces[..|pieces| - 1], '/'), pieces[|pieces| - 1])
  {
    var parts := [head] + pieces;
    assert parts[1..] == pieces;
    assert parts[1..|parts| - 1] == pieces[..|pieces| - 1];
  }

  /** A string with a slash splits into at least two pieces. */
  lemma SlashMeansTwoPieces(s: string)
    requires '/' in s
    ensures |Split(s, '/')| >= 2
  {
    var pieces := Split(s, '/');
    if |pieces| == 1 {
      JoinSplit(s, '/');
      assert false;
    }
  }

  /** Parsing recovers the branch and date that `create_archive_tag` wrote
      into the tag name, for any branch (slashes included) and any date
      without a slash. */
  lemma ParseTagRoundTrip(branch: string, today: string)
    requires '/' !in today
    ensures ParseTag(TagName(branch, today)) == Some(ArchiveTag(branch, today))
  {
    var rest := branch + ['/'] + today;
    assert TagName(branch, today) == ArchivePrefix + rest;
    assert '/' in rest by { assert rest[|branch|] == '/'; }
    ParseTagWithDate(rest);
    SplitAppend(branch, today, '/');
    SplitNoSep(today, '/');
    var pieces := Split(rest, '/');
    assert pieces == Split(branch, '/') + [today];
    assert pieces[..|pieces| - 1] == Split(branch, '/');
    JoinSplit(branch, '/');
  }

  /** The parse of an archive tag name, piece by piece. */
  lemma ParseTagParts(name: string)
    requires ArchivePrefix <= name
    ensures |Split(name, '/')| >= 2 && ParseTag(name) == Some(TagOfParts(Split(name, '/')))
  {
    ArchiveSplit(name[|ArchivePrefix|..]);
    assert name == ArchivePrefix + name[|ArchivePrefix|..];
  }

  /** A tag as the tag listing returns it. */
  datatype Tag = Tag(name: string, sha: string)

  /** One row of the archive page; the cached analysis and the page URL
      are not modelled. */
  datatype ArchiveEntry = ArchiveEntry(
    repoName: string,
    repoFullName: string,
    owner: string,
    branchName: string,
    tagName: string,
    archiveDate: string,
    sha: string)

  /** The row for one tag, none when it is not an archive tag. */
  function EntryOf(repo: RepoScan, t: Tag): seq<ArchiveEntry>
  {
    match ParseTag(t.name)
    case None => []
    case Some(a) => [ArchiveEntry(repo.name, repo.fullName, repo.owner, a.branch, t.name, a.date, t.sha)]
  }

  /** The rows for one repository's tags. */
  function EntriesFor(repo: RepoScan, tags: seq<Tag>): seq<ArchiveEntry>
  {
    if tags == [] then []
    else EntriesFor(repo, tags[..|tags| - 1]) + EntryOf(repo, tags[|tags| - 1])
  }

  /** The rows for all scanned repositories, in order. */
  function Archives(repos: seq<RepoScan>, tagsOf: (string, string) -> seq<Tag>): seq<ArchiveEntry>
  {
    if repos == [] then []
    else
      var r := repos[|repos| - 1];
      Archives(repos[..|repos| - 1], tagsOf) + EntriesFor(r, tagsOf(r.owner, r.name))
  }

  /** A row is listed exactly when it is a row of one of the repositories. */
  lemma {:induction false} ArchivesMembers(repos: seq<RepoScan>, tagsOf: (string, string) -> seq<Tag>, e: ArchiveEntry)
    ensures e in Archives(repos, tagsOf) <==> exists r :: r in repos && e in EntriesFor(r, tagsOf(r.owner, r.name))
    decreases |repos|
  {
    if repos != [] {
      ArchivesMembers(repos[..|repos| - 1], tagsOf, e);
      ArchivesMembersStep(repos, tagsOf, e);
    }
  }

  /** The inductive step of `ArchivesMembers`: one more repository. */
  lemma ArchivesMembersStep(repos: seq<RepoScan>, tagsOf: (string, string) -> seq<Tag>, e: ArchiveEntry)
    requires repos != []
    requires var init := repos[..|repos| - 1];
      e in Archives(init, tagsOf) <==> exists r :: r in init && e in EntriesFor(r, tagsOf(r.owner, r.name))
    ensures e in Archives(repos, tagsOf) <==> exists r :: r in repos && e in EntriesFor(r, tagsOf(r.owner, r.name))
  {
    var init := repos[..|repos| - 1];
    var last := repos[|repos| - 1];
    assert repos == init + [last];
    assert Archives(repos, tagsOf) == Archives(init, tagsOf) + EntriesFor(last, tagsOf(last.owner, last.name));
    if e in Archives(init, tagsOf) {
      var r :| r in init && e in EntriesFor(r, tagsOf(r.owner, r.name));
      assert r in repos;
    }
    if exists r :: r in repos && e in EntriesFor(r, tagsOf(r.owner, r.name)) {
      var r :| r in repos && e in EntriesFor(r, tagsOf(r.owner, r.name));
      if r != last {
        assert r in init;
      }
    }
  }

  /** Every row comes from an archive tag of its repository, and its branch
      and date are those the tag name records. */
  lemma {:induction false} EntriesForParsed(repo: RepoScan, tags: seq<Tag>)
    ensures forall e :: e in EntriesFor(repo, tags) ==>
      && e.repoName == repo.name && e.owner == repo.owner
      && Tag(e.tagName, e.sha) in tags
      && ParseTag(e.tagName) == Some(ArchiveTag(e.branchName, e.archiveDate))
    ensures |EntriesFor(repo, tags)| <= |tags|
    decreases |tags|
  {
    if tags != [] {
      EntriesForParsed(repo, tags[..|tags| - 1]);
      assert forall t :: t in tags[..|tags| - 1] ==> t in tags;
    }
  }

  /** An archive tag always gets a row. */
  lemma {:induction false} EntriesForComplete(repo: RepoScan, tags: seq<Tag>, t: Tag)
    requires t in tags && ArchivePrefix <= t.name
    ensures var a := ParseTag(t.name).value;
      ArchiveEntry(repo.name, repo.fullName, repo.owner, a.branch, t.name, a.date, t.sha) in EntriesFor(repo, tags)
    decreases |tags|
  {
    if tags[|tags| - 1] != t {
      var i :| 0 <= i < |tags| && tags[i] == t;
      assert tags[..|tags| - 1][i] == t;
      EntriesForComplete(repo, tags[..|tags| - 1], t);
    }
  }

  /** The inner loop of `archive()` (app.py:345-369): the rows for the
      archive tags of one repository, in tag order. */
  method ArchivesOfRepo(repo: RepoScan, tags: seq<Tag>) returns (entries: seq<ArchiveEntry>)
    ensures entries == EntriesFor(repo, tags)
  {
    entries := [];
    var j := 0;
    while j < |tags|
      invariant 0 <= j <= |tags|
      invariant entries == EntriesFor(repo, tags[..j])
    {
      var tag := tags[j];
      assert tags[..j + 1][..j] == tags[..j];
      if ArchivePrefix <= tag.name {
        ParseTagParts(tag.name);
        var parts := Split(tag.name, '/');
        var branchName := if |parts| > 2 then Join(parts[1..|parts| - 1], '/') else parts[1];
        var archiveDate := if |parts| > 2 then parts[|parts| - 1] else "Unknown";
        entries := entries + [ArchiveEntry(repo.name, repo.fullName, repo.owner, branchName, tag.name, archiveDate, tag.sha)];
      }
      j := j + 1;
    }
    assert tags[..j] == tags;
  }

  /** The outer loop of `archive()` (app.py:343-369): every tag of every
      scanned repository, in order, that starts with "archive/". */
  method ListArchives(repos: seq<RepoScan>, tagsOf: (string, string) -> seq<Tag>) returns (archives: seq<ArchiveEntry>)
    ensures archives == Archives(repos, tagsOf)
  {
    archives := [];
    var i := 0;
    while i < |repos|
      invariant 0 <= i <= |repos|
      invariant archives == Archives(repos[..i], tagsOf)
    {
      var repo := repos[i];
      assert repos[..i + 1][..i] == repos[..i];
      var tags := tagsOf(repo.owner, repo.name);
      var found := ArchivesOfRepo(repo, tags);
      archives := archives + found;
      i := i + 1;
    }
    assert repos[..i] == repos;
  }

  // ---------------------------------------------------------------------
  // The archive tag message
  // ---------------------------------------------------------------------

  /** The AI summary `create_archive` puts in the message: the cached
      analysis's "plain_english_summary", or "" when there is none. */
  function SummaryOf(cached: Option<Dict>): (summary: string)
    ensures summary != "" ==>
      cached.Some? && "plain_english_summary" in cached.value && cached.value["plain_english_summary"] == JStr(summary)
    ensures cached.Some? && "plain_english_summary" in cached.value && cached.value["plain_english_summary"].JStr? ==>
      summary == cached.value["plain_english_summary"].s
  {
    if cached.Some? && "plain_english_summary" in cached.value && cached.value["plain_english_summary"].JStr? then
      cached.value["plain_english_summary"].s
    else ""
  }

  /** The lines of the tag message: branch, repository and short commit
      always, then the summary and the note when they are not empty. */
  function MessageLines(owner: string, repoName: string, branchName: string, commitSha: string,
                        summary: string, note: string): (lines: seq<string>)
    ensures |lines| == 3 + (if summary != "" then 1 else 0) + (if note != "" then 1 else 0)
    ensures lines[0] == "Archived branch: " + branchName
    ensures lines[1] == "Repository: " + owner + "/" + repoName
    ensures lines[2] == "Commit: " + Take(commitSha, ShortShaLength)
    ensures summary != "" ==> lines[3] == "AI Summary: " + summary
    ensures note != "" ==> lines[|lines| - 1] == "User note: " + note
  {
    ["Archived branch: " + branchName, "Repository: " + owner + "/" + repoName, "Commit: " + Take(commitSha, ShortShaLength)]
      + (if summary != "" then ["AI Summary: " + summary] else [])
      + (if note != "" then ["User note: " + note] else [])
  }

  /** `create_archive` up to the tag message (app.py:388-407): Failure when
      one of the four required fields is empty, otherwise the message lines
      joined with newlines, the summary taken from the analysis cached for
      this repository, branch and commit. */
  method ArchiveMessage(store: Models.Store, owner: string, repoName: string, branchName: string,
                        commitSha: string, note: string) returns (message: Result<string>)
    ensures message.Failure? <==> owner == "" || repoName == "" || branchName == "" || commitSha == ""
    ensures message.Success? ==>
      var cached := Models.Lookup(store.cache, repoName, branchName, commitSha);
      message.value == Join(MessageLines(owner, repoName, branchName, commitSha, SummaryOf(cached), note), '\n')
  {
    if owner == "" || repoName == "" || branchName == "" || commitSha == "" {
      return Failure("Missing required fields");
    }
    var cached := store.GetCachedAnalysis(repoName, branchName, commitSha);
    assert cached == Models.Lookup(store.cache, repoName, branchName, commitSha);
    var summary := "";
    if cached.Some? && "plain_english_summary" in cached.value && cached.value["plain_english_summary"].JStr? {
      summary := cached.value["plain_english_summary"].s;
    }
    var messageParts := ["Archived branch: " + branchName, "Repository: " + owner + "/" + repoName,
                         "Commit: " + Take(commitSha, ShortShaLength)];
    if summary != "" {
      messageParts := messageParts + ["AI Summary: " + summary];
    }
    if note != "" {
      messageParts := messageParts + ["User note: " + note];
    }
    assert summary == SummaryOf(cached);
    assert messageParts == MessageLines(owner, repoName, branchName, commitSha, summary, note);
    message := Success(Join(messageParts, '\n'));
  }

  /** Reading the message back line by line gives its lines, when none of
      the fields holds a newline: the summary line is there exactly when
      the summary is not empty, and the note line exactly when the note is
      not. */
  lemma MessageLinesRecovered(owner: string, repoName: string, branchName: string, commitSha: string,
                              summary: string, note: string)
    requires '\n' !in owner + repoName + branchName + commitSha + summary + note
    ensures var lines := MessageLines(owner, repoName, branchName, commitSha, summary, note);
      Split(Join(lines, '\n'), '\n') == lines
  {
    var lines := MessageLines(owner, repoName, branchName, commitSha, summary, note);
    forall i | 0 <= i < |lines| ensures '\n' !in lines[i] {
      NoNewlineIn(owner, repoName, branchName, commitSha, summary, note, i);
    }
    SplitJoin(lines, '\n');
  }

  /** No line of the message holds a newline when no field does. */
  lemma NoNewlineIn(owner: string, repoName: string, branchName: string, commitSha: string,
                    summary: string, note: string, i: int)
    requires '\n' !in owner + repoName + branchName + commitSha + summary + note
    requires 0 <= i < |MessageLines(owner, repoName, branchName, commitSha, summary, note)|
    ensures '\n' !in MessageLines(owner, repoName, branchName, commitSha, summary, note)[i]
  {
    var all := owner + repoName + branchName + commitSha + summary + note;
    assert forall c :: c in owner || c in repoName || c in branchName || c in commitSha || c in summary || c in note ==> c in all;
    assert forall c :: c in Take(commitSha, ShortShaLength) ==> c in commitSha;
  }

  // ---------------------------------------------------------------------
  // Settings: the exclusion list
  // ---------------------------------------------------------------------

  /** The stripped pieces that are not blank, in order. */
  function NonBlankStripped(pieces: seq<string>): (names: seq<string>)
    ensures |names| <= |pieces|
    ensures forall i :: 0 <= i < |names| ==> names[i] != "" && Trimmed(names[i])
  {
    if pieces == [] then []
    else
      var s := Strip(pieces[0]);
      (if s != "" then [s] else []) + NonBlankStripped(pieces[1..])
  }

  /** One piece is kept, stripped, exactly when it is not blank. */
  lemma NonBlankStrippedOne(p: string)
    ensures NonBlankStripped([p]) == if Strip(p) == "" then [] else [Strip(p)]
  {
    assert [p][1..] == [];
  }

  /** The kept names of two runs of pieces are those of the first run
      followed by those of the second: the input order is kept. */
  lemma {:induction false} NonBlankStrippedAppend(a: seq<string>, b: seq<string>)
    ensures NonBlankStripped(a + b) == NonBlankStripped(a) + NonBlankStripped(b)
    decreases |a|
  {
    if a == [] {
      assert a + b == b;
    } else {
      NonBlankStrippedAppend(a[1..], b);
      NonBlankStrippedStep(a, b);
    }
  }

  /** The inductive step of `NonBlankStrippedAppend`. */
  lemma NonBlankStrippedStep(a: seq<string>, b: seq<string>)
    requires a != []
    requires NonBlankStripped(a[1..] + b) == NonBlankStripped(a[1..]) + NonBlankStripped(b)
    ensures NonBlankStripped(a + b) == NonBlankStripped(a) + NonBlankStripped(b)
  {
    var rest := a[1..];
    Uncons(a, b);
    NonBlankStrippedCons(a[0], rest + b);
    NonBlankStrippedCons(a[0], rest);
    Regroup(if Strip(a[0]) != "" then [Strip(a[0])] else [], NonBlankStripped(rest), NonBlankStripped(b));
  }

  /** The kept names of a first piece and the rest. */
  lemma NonBlankStrippedCons(p: string, rest: seq<string>)
    ensures NonBlankStripped([p] + rest)
         == (if Strip(p) != "" then [Strip(p)] else []) + NonBlankStripped(rest)
  {
    assert ([p] + rest)[1..] == rest;
  }

  /** `[r.strip() for r in excluded.split(",") if r.strip()]`. */
  function ParseExcludedRepos(field: string): (names: seq<string>)
    ensures forall i :: 0 <= i < |names| ==> names[i] != "" && Trimmed(names[i]) && ',' !in names[i]
  {
    var pieces := Split(field, ',');
    SplitPiecesFree(field, ',');
    NoCommaInStripped(pieces);
    NonBlankStripped(pieces)
  }

  /** The parser keeps the stripped, non-blank pieces between commas. */
  lemma ParseExcludedReposIs(field: string)
    ensures ParseExcludedRepos(field) == NonBlankStripped(Split(field, ','))
  {
  }

  /** A field with padding and a blank entry: `" a , ,b "` gives
      `["a", "b"]`. */
  lemma ParseExcludedExample()
    ensures ParseExcludedRepos(" a , ,b ") == ["a", "b"]
  {
    ExampleSplit();
    ExampleKept();
    ParseExcludedReposIs(" a , ,b ");
  }

  /** The pieces of the example field. */
  lemma ExampleSplit()
    ensures Split(" a , ,b ", ',') == [" a ", " ", "b "]
  {
    assert " a , ,b " == " a " + [','] + " ,b ";
    SplitAppend(" a ", " ,b ", ',');
    SplitNoSep(" a ", ',');
    ExampleSplitTail();
  }

  /** The pieces of the example field after its first comma. */
  lemma ExampleSplitTail()
    ensures Split(" ,b ", ',') == [" ", "b "]
  {
    assert " ,b " == " " + [','] + "b ";
    SplitAppend(" ", "b ", ',');
    SplitNoSep(" ", ',');
    SplitNoSep("b ", ',');
  }

  /** The kept names of the example's pieces. */
  lemma ExampleKept()
    ensures NonBlankStripped([" a ", " ", "b "]) == ["a", "b"]
  {
    ExampleKeptFirst();
    ExampleStrips();
    NonBlankStrippedOne("b ");
    assert [" a ", " "] + ["b "] == [" a ", " ", "b "];
    NonBlankStrippedAppend([" a ", " "], ["b "]);
  }

  /** The kept names of the example's first two pieces. */
  lemma ExampleKeptFirst()
    ensures NonBlankStripped([" a ", " "]) == ["a"]
  {
    ExampleStrips();
    NonBlankStrippedOne(" a ");
    NonBlankStrippedOne(" ");
    assert [" a "] + [" "] == [" a ", " "];
    NonBlankStrippedAppend([" a "], [" "]);
  }

  /** The strips of the example's pieces. */
  lemma ExampleStrips()
    ensures Strip(" a ") == "a" && Strip(" ") == "" && Strip("b ") == "b"
  {
    assert " a "[1..2] == "a";
    StripUnique(" a ", 1, 2);
    StripUnique(" ", 1, 1);
    assert "b "[0..1] == "b";
    StripUnique("b ", 0, 1);
  }

  /** The kept names come from comma-free pieces and hold no comma. */
  lemma {:induction false} NoCommaInStripped(pieces: seq<string>)
    requires forall i :: 0 <= i < |pieces| ==> ',' !in pieces[i]
    ensures forall i :: 0 <= i < |NonBlankStripped(pieces)| ==> ',' !in NonBlankStripped(pieces)[i]
    decreases |pieces|
  {
    if pieces != [] {
      NoCommaInStripped(pieces[1..]);
    }
  }

  /** Names that are not empty, have no whitespace at either end and hold no
      comma come back from the field they were joined into, in order. */
  lemma {:induction false} ExcludedRoundTrip(names: seq<string>)
    requires forall i :: 0 <= i < |names| ==> names[i] != "" && Trimmed(names[i]) && ',' !in names[i]
    ensures ParseExcludedRepos(Join(names, ',')) == names
  {
    var field := Join(names, ',');
    if names != [] {
      SplitJoin(names, ',');
      assert Split(field, ',') == names;
    } else {
      assert Split(field, ',') == [""];
    }
    KeepsTrimmed(names);
    ParseExcludedReposIs(field);
  }

  /** Pieces that are already non-empty and trimmed all survive unchanged. */
  lemma {:induction false} KeepsTrimmed(pieces: seq<string>)
    requires forall i :: 0 <= i < |pieces| ==> pieces[i] != "" && Trimmed(pieces[i])
    ensures NonBlankStripped(pieces) == pieces
    decreases |pieces|
  {
    if pieces != [] {
      StripTrimmed(pieces[0]);
      KeepsTrimmed(pieces[1..]);
      assert pieces == [pieces[0]] + pieces[1..];
    }
  }

  // ---------------------------------------------------------------------
  // The repository page
  // ---------------------------------------------------------------------

  /** The repository `repo_detail` shows: its owner and short name are the
      ones asked for. */
  predicate Names(r: RepoScan, owner: string, name: string)
  {
    r.owner == owner && r.name == name
  }

  /** The lookup loop of `repo_detail`: the first scanned repository with the
      requested owner and name, or nothing (the page then reports it as not
      found). */
  method FindRepo(repos: seq<RepoScan>, owner: string, name: string) returns (repo: Option<RepoScan>)
    ensures repo.None? <==> forall i :: 0 <= i < |repos| ==> !Names(repos[i], owner, name)
    ensures repo.Some? ==> exists i ::
      && 0 <= i < |repos|
      && repos[i] == repo.value
      && Names(repos[i], owner, name)
      && forall j :: 0 <= j < i ==> !Names(repos[j], owner, name)
  {
    var i := 0;
    while i < |repos|
      invariant 0 <= i <= |repos|
      invariant forall j :: 0 <= j < i ==> !Names(repos[j], owner, name)
    {
      if repos[i].owner == owner && repos[i].name == name {
        return Some(repos[i]);
      }
      i := i + 1;
    }
    return None;
  }

  /** The loop of `repo_detail` (app.py:203-207): each branch's cached
      analysis, looked up under the key `cache_analysis` stores it under. */
  method CachedAnalyses(repoName: string, branches: seq<BranchRecord>, cache: map<string, Dict>)
    returns (analyses: seq<Option<Dict>>)
    ensures |analyses| == |branches|
    ensures forall i :: 0 <= i < |branches| ==>
      (analyses[i].Some? <==> Models.CacheKey(repoName, branches[i].name, branches[i].commitSha) in cache)
    ensures forall i :: 0 <= i < |branches| && analyses[i].Some? ==>
      analyses[i].value == cache[Models.CacheKey(repoName, branches[i].name, branches[i].commitSha)]
  {
    analyses := [];
    var i := 0;
    while i < |branches|
      invariant 0 <= i <= |branches|
      invariant |analyses| == i
      invariant forall k :: 0 <= k < i ==> analyses[k] == Models.Lookup(cache, repoName, branches[k].name, branches[k].commitSha)
    {
      var branch := branches[i];
      var key := repoName + "/" + branch.name + "/" + branch.commitSha;
      if key in cache {
        analyses := analyses + [Some(cache[key])];
      } else {
        analyses := analyses + [None];
      }
      i := i + 1;
    }
  }

  /** An analysis cached through the store is the one the repository
      page then finds for that branch. */
  method RepoPageFindsStored(store: Models.Store, repoName: string, branch: BranchRecord,
                             analysis: Dict, timestamp: string) returns (analyses: seq<Option<Dict>>)
    modifies store
    ensures analyses == [Some(Models.Cached(analysis, timestamp))]
  {
    store.CacheAnalysis(repoName, branch.name, branch.commitSha, analysis, timestamp);
    analyses := CachedAnalyses(repoName, [branch], store.cache);
  }
}
