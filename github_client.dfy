/** Branch classification and the per-repository scan of the GitHub client.
    The REST calls are not modelled: the branch listing, the open pull
    requests, the comparison of each branch with the default branch and the
    CLAUDE.md probe reach the scanner as a `RepoData` value; the clock
    (`now`) and the ISO-8601 parser are parameters. */
module GitHubClient {
  import opened Wrappers
  import opened Text
  import opened StableSort

  // ---------------------------------------------------------------------
  // Classification
  // ---------------------------------------------------------------------

  /** The five labels `classify_branch` returns. */
  datatype Label = ActivePr | SafeToDelete | Stale | Diverged | AheadOnly

  /** The label as the source spells it in a branch record. */
  function LabelText(l: Label): string
  {
    match l
    case ActivePr => "ACTIVE PR"
    case SafeToDelete => "SAFE TO DELETE"
    case Stale => "STALE"
    case Diverged => "DIVERGED"
    case AheadOnly => "AHEAD ONLY"
  }

  /** The scanner's sort key, `sort_order.get(classification, 5)`. */
  function SortOrder(text: string): int
  {
    if text == "DIVERGED" then 0
    else if text == "AHEAD ONLY" then 1
    else if text == "STALE" then 2
    else if text == "SAFE TO DELETE" then 3
    else if text == "ACTIVE PR" then 4
    else 5
  }

  /** Every label has its own key below the fallback 5, in the order
      DIVERGED, AHEAD ONLY, STALE, SAFE TO DELETE, ACTIVE PR. */
  lemma SortOrderOfLabels()
    ensures SortOrder(LabelText(Diverged)) == 0
    ensures SortOrder(LabelText(AheadOnly)) == 1
    ensures SortOrder(LabelText(Stale)) == 2
    ensures SortOrder(LabelText(SafeToDelete)) == 3
    ensures SortOrder(LabelText(ActivePr)) == 4
  {
  }

  /** What `datetime.fromisoformat` makes of a commit date (after "Z" is
      rewritten to "+00:00"): the instant in microseconds since the epoch,
      and whether it carries a UTC offset. */
  datatype Instant = Instant(micros: int, aware: bool)

  /** The ISO-8601 parser; None when it raises ValueError. */
  type DateParser = string -> Option<Instant>

  const MicrosPerDay: int := 86_400_000_000
  const StaleAfterDays: int := 30

  /** `(now - last).days`: whole days elapsed, rounded down as Python's
      `timedelta` does. */
  function DaysBetween(now: int, last: int): (days: int)
    ensures days * MicrosPerDay <= now - last < (days + 1) * MicrosPerDay
  {
    (now - last) / MicrosPerDay
  }

  /** The date test of the staleness rule: the date is a non-empty string
      that parses, carries an offset (a naive date makes the subtraction
      raise TypeError, which is caught) and is more than 30 whole days
      before `now`. */
  predicate OlderThanThreshold(lastCommitDate: Option<string>, now: int, parse: DateParser)
  {
    && lastCommitDate.Some?
    && lastCommitDate.value != ""
    && match parse(lastCommitDate.value)
       case None => false
       case Some(t) => t.aware && DaysBetween(now, t.micros) > StaleAfterDays
  }

  datatype Commit = Commit(sha: string, message: string, author: Option<string>, committerDate: Option<string>)

  /** One entry of the comparison's `files`; `patch` stands for the fields
      the scanner does not copy. */
  datatype FileEntry = FileEntry(filename: string, additions: int, deletions: int, status: string, patch: Option<string>)

  /** The comparison of a branch with the default branch; a missing
      `ahead_by` or `behind_by` is None, a missing list is empty. */
  datatype Comparison = Comparison(aheadBy: Option<int>, behindBy: Option<int>, commits: seq<Commit>, files: seq<FileEntry>)

  /** `classify_branch`: the first rule that matches wins. */
  function Classify(cmp: Comparison, lastCommitDate: Option<string>, hasPr: bool, now: int, parse: DateParser): Label
  {
    var ahead := cmp.aheadBy.GetOr(0);
    var behind := cmp.behindBy.GetOr(0);
    if hasPr then ActivePr
    else if ahead == 0 then SafeToDelete
    else if OlderThanThreshold(lastCommitDate, now, parse) && ahead > 0 then Stale
    else if ahead > 0 && behind > 0 then Diverged
    else if ahead > 0 && behind == 0 then AheadOnly
    else AheadOnly
  }

  /** The rule table as a set of mutually exclusive conditions, one per
      label (`aged` is the outcome of the date test). */
  predicate Describes(l: Label, ahead: int, behind: int, aged: bool, hasPr: bool)
  {
    match l
    case ActivePr => hasPr
    case SafeToDelete => !hasPr && ahead == 0
    case Stale => !hasPr && ahead > 0 && aged
    case Diverged => !hasPr && ahead > 0 && !aged && behind > 0
    case AheadOnly => !hasPr && ahead != 0 && !(ahead > 0 && aged) && !(ahead > 0 && behind > 0)
  }

  /** The classifier returns a label exactly when the table describes it. */
  lemma ClassifyMatchesTable(cmp: Comparison, lastCommitDate: Option<string>, hasPr: bool, now: int, parse: DateParser, l: Label)
    ensures Classify(cmp, lastCommitDate, hasPr, now, parse) == l
        <==> Describes(l, cmp.aheadBy.GetOr(0), cmp.behindBy.GetOr(0), OlderThanThreshold(lastCommitDate, now, parse), hasPr)
  {
  }

  /** An open pull request beats every other signal, merged or not. */
  lemma OpenPrWins(cmp: Comparison, lastCommitDate: Option<string>, now: int, parse: DateParser)
    ensures Classify(cmp, lastCommitDate, true, now, parse) == ActivePr
  {
  }

  /** Without a pull request, nothing ahead (a missing count is 0) means
      safe to delete, whatever the date and the behind count. */
  lemma NothingAheadIsSafe(cmp: Comparison, lastCommitDate: Option<string>, now: int, parse: DateParser)
    requires cmp.aheadBy.GetOr(0) == 0
    ensures Classify(cmp, lastCommitDate, false, now, parse) == SafeToDelete
  {
  }

  /** Ahead, no pull request, and a dated commit more than 30 whole days
      old: stale, even when the branch is also behind. */
  lemma OldCommitIsStale(cmp: Comparison, date: string, now: int, parse: DateParser, t: Instant)
    requires cmp.aheadBy.GetOr(0) > 0
    requires date != "" && parse(date) == Some(t) && t.aware
    requires (now - t.micros) / MicrosPerDay > 30
    ensures Classify(cmp, Some(date), false, now, parse) == Stale
  {
  }

  /** A missing, empty, unparsable or offset-less date never decides
      anything: the result is the one for no date at all. */
  lemma UnusableDateFallsThrough(cmp: Comparison, date: Option<string>, hasPr: bool, now: int, parse: DateParser)
    requires date.None? || date.value == "" || parse(date.value).None? || !parse(date.value).value.aware
    ensures Classify(cmp, date, hasPr, now, parse) == Classify(cmp, None, hasPr, now, parse)
  {
  }

  /** Ahead and not stale: diverged when also behind, otherwise ahead only. */
  lemma FreshBranchByBehind(cmp: Comparison, date: Option<string>, now: int, parse: DateParser)
    requires cmp.aheadBy.GetOr(0) > 0 && !OlderThanThreshold(date, now, parse)
    ensures Classify(cmp, date, false, now, parse) == if cmp.behindBy.GetOr(0) > 0 then Diverged else AheadOnly
  {
  }

  /** The scenarios of the test suite, with `now` and the parse results of
      the three dates written out. */
  lemma ClassifyScenarios(parse: DateParser)
    requires parse("2026-02-13T00:00:00Z") == Some(Instant(1770940800000000, true))
    requires parse("2025-12-01T00:00:00Z") == Some(Instant(1764547200000000, true))
    ensures Classify(Comparison(Some(0), Some(5), [], []), None, false, 1771027200000000, parse) == SafeToDelete
    ensures Classify(Comparison(Some(3), Some(0), [], []), Some("2026-02-13T00:00:00Z"), false, 1771027200000000, parse) == AheadOnly
    ensures Classify(Comparison(Some(3), Some(2), [], []), Some("2026-02-13T00:00:00Z"), false, 1771027200000000, parse) == Diverged
    ensures Classify(Comparison(Some(1), Some(0), [], []), Some("2025-12-01T00:00:00Z"), false, 1770940800000000, parse) == Stale
    ensures Classify(Comparison(Some(5), Some(2), [], []), Some("2026-02-13T00:00:00Z"), true, 1771027200000000, parse) == ActivePr
    ensures Classify(Comparison(Some(0), Some(0), [], []), None, true, 1771027200000000, parse) == ActivePr
  {
  }

  // ---------------------------------------------------------------------
  // Branch records
  // ---------------------------------------------------------------------

  /** A branch as the branch listing gives it: its name and tip sha. */
  datatype BranchRef = BranchRef(name: string, sha: string)

  datatype FileChange = FileChange(filename: string, additions: int, deletions: int, status: string)

  datatype CommitSummary = CommitSummary(sha: string, message: string, author: string, date: Option<string>)

  datatype BranchRecord = BranchRecord(
    name: string,
    classification: Label,
    aheadBy: int,
    behindBy: int,
    lastCommitDate: Option<string>,
    lastCommitAuthor: Option<string>,
    hasPr: bool,
    commitSha: string,
    filesChanged: seq<FileChange>,
    commitMessages: seq<CommitSummary>)

  const UnknownAuthor := "Unknown"
  const ShortShaLength: nat := 7

  /** What Python reports when the newest commit's committer is null and
      `["committer"]["date"]` is taken of it. */
  const NullCommitterError := "'NoneType' object is not subscriptable"

  /** One entry of `commit_messages`. */
  function Summarize(c: Commit): (s: CommitSummary)
    ensures s.sha <= c.sha && |s.sha| == if |c.sha| < 7 then |c.sha| else 7
    ensures s.message <= c.message && '\n' !in s.message
    ensures |s.message| < |c.message| ==> c.message[|s.message|] == '\n'
    ensures '\n' !in c.message ==> s.message == c.message
    ensures s.author == if c.author.Some? then c.author.value else UnknownAuthor
    ensures s.date == c.committerDate
  {
    CommitSummary(Take(c.sha, ShortShaLength), FirstLine(c.message), c.author.GetOr(UnknownAuthor), c.committerDate)
  }

  /** One entry of `files_changed`: the four copied fields. */
  function Project(f: FileEntry): (c: FileChange)
    ensures c.filename == f.filename && c.additions == f.additions
    ensures c.deletions == f.deletions && c.status == f.status
  {
    FileChange(f.filename, f.additions, f.deletions, f.status)
  }

  /** The inner loop over the comparison's commits (github_client.py:233-240). */
  method CommitMessages(commits: seq<Commit>) returns (msgs: seq<CommitSummary>)
    ensures |msgs| == |commits|
    ensures forall i :: 0 <= i < |commits| ==> msgs[i] == Summarize(commits[i])
  {
    msgs := [];
    var i := 0;
    while i < |commits|
      invariant 0 <= i <= |commits|
      invariant |msgs| == i
      invariant forall k :: 0 <= k < i ==> msgs[k] == Summarize(commits[k])
    {
      var c := commits[i];
      msgs := msgs + [CommitSummary(Take(c.sha, ShortShaLength), FirstLine(c.message),
                                    if c.author.Some? then c.author.value else UnknownAuthor,
                                    if c.committerDate.Some? then c.committerDate else None)];
      i := i + 1;
    }
  }

  /** The inner loop over the comparison's files (github_client.py:224-231). */
  method FilesChanged(files: seq<FileEntry>) returns (changed: seq<FileChange>)
    ensures |changed| == |files|
    ensures forall i :: 0 <= i < |files| ==> changed[i] == Project(files[i])
  {
    changed := [];
    var i := 0;
    while i < |files|
      invariant 0 <= i <= |files|
      invariant |changed| == i
      invariant forall k :: 0 <= k < i ==> changed[k] == Project(files[k])
    {
      var f := files[i];
      changed := changed + [FileChange(f.filename, f.additions, f.deletions, f.status)];
      i := i + 1;
    }
  }

  /** The newest unique commit has no committer date. */
  predicate NullCommitter(cmp: Comparison)
  {
    cmp.commits != [] && cmp.commits[|cmp.commits| - 1].committerDate.None?
  }

  /** The record built for one branch whose comparison succeeded;
      Failure when the newest unique commit has a null committer, which the
      source reads without a guard. */
  function RecordFor(b: BranchRef, cmp: Comparison, prHeads: set<string>, now: int, parse: DateParser): Result<BranchRecord>
  {
    if NullCommitter(cmp) then
      Failure(NullCommitterError)
    else
      var last := if cmp.commits == [] then None else Some(cmp.commits[|cmp.commits| - 1]);
      var date := if last.None? then None else last.value.committerDate;
      var author := if last.None? then None else Some(last.value.author.GetOr(UnknownAuthor));
      var hasPr := b.name in prHeads;
      Success(BranchRecord(
        b.name,
        Classify(cmp, date, hasPr, now, parse),
        cmp.aheadBy.GetOr(0),
        cmp.behindBy.GetOr(0),
        date,
        author,
        hasPr,
        b.sha,
        seq(|cmp.files|, i requires 0 <= i < |cmp.files| => Project(cmp.files[i])),
        seq(|cmp.commits|, i requires 0 <= i < |cmp.commits| => Summarize(cmp.commits[i]))))
  }

  /** The fields of a branch record: name and tip sha from the listing,
      `has_pr` exactly when the name is an open pull request's head, the
      counts with 0 for a missing one, date and author of the newest commit
      (both None when there is none), one summary per commit and one entry
      per file, in order. */
  lemma RecordFields(b: BranchRef, cmp: Comparison, prHeads: set<string>, now: int, parse: DateParser)
    ensures var r := RecordFor(b, cmp, prHeads, now, parse);
      && (r.Failure? <==> cmp.commits != [] && cmp.commits[|cmp.commits| - 1].committerDate.None?)
      && (r.Failure? ==> r.error == NullCommitterError)
      && (r.Success? ==>
            var rec := r.value;
            && rec.name == b.name
            && rec.commitSha == b.sha
            && (rec.hasPr <==> b.name in prHeads)
            && rec.aheadBy == cmp.aheadBy.GetOr(0) && rec.behindBy == cmp.behindBy.GetOr(0)
            && (rec.lastCommitDate.None? <==> cmp.commits == [])
            && (rec.lastCommitAuthor.None? <==> cmp.commits == [])
            && (cmp.commits != [] ==>
                  var last := cmp.commits[|cmp.commits| - 1];
                  rec.lastCommitDate == last.committerDate
                  && rec.lastCommitAuthor == Some(last.author.GetOr(UnknownAuthor)))
            && rec.classification == Classify(cmp, rec.lastCommitDate, rec.hasPr, now, parse)
            && |rec.commitMessages| == |cmp.commits|
            && (forall i :: 0 <= i < |cmp.commits| ==> rec.commitMessages[i] == Summarize(cmp.commits[i]))
            && |rec.filesChanged| == |cmp.files|
            && (forall i :: 0 <= i < |cmp.files| ==> rec.filesChanged[i] == Project(cmp.files[i])))
  {
  }

  // ---------------------------------------------------------------------
  // The repository scan
  // ---------------------------------------------------------------------

  datatype Repo = Repo(owner: string, name: string, fullName: string, defaultBranch: Option<string>)

  /** What the GitHub calls return for one repository: the branch listing in
      its order, the head refs of the open pull requests, the comparison of
      each branch with the default branch (None when the request fails) and
      whether CLAUDE.md exists. */
  datatype RepoData = RepoData(
    branches: seq<BranchRef>,
    pullHeads: seq<string>,
    compare: string -> Option<Comparison>,
    hasClaudeMd: bool)

  /** The result of scanning one repository; `error` is set only on the
      degraded record the aggregator builds for a repository that failed. */
  datatype RepoScan = RepoScan(
    owner: string,
    name: string,
    fullName: string,
    defaultBranch: string,
    branches: seq<BranchRecord>,
    branchCount: int,
    hasClaudeMd: bool,
    error: Option<string>)

  const DefaultBranchName := "main"

  /** A branch that gets a record, with its comparison. */
  datatype Candidate = Candidate(branch: BranchRef, comparison: Comparison)

  /** The branches the loop does not skip, in listing order: not the default
      branch, and the comparison succeeded. */
  function Candidates(bs: seq<BranchRef>, defaultBranch: string, compare: string -> Option<Comparison>): (cs: seq<Candidate>)
    ensures |cs| <= |bs|
    ensures forall b, c :: Candidate(b, c) in cs <==> b in bs && b.name != defaultBranch && compare(b.name) == Some(c)
  {
    if bs == [] then []
    else
      var init := bs[..|bs| - 1];
      var b := bs[|bs| - 1];
      assert bs == init + [b];
      var rest := Candidates(init, defaultBranch, compare);
      if b.name != defaultBranch && compare(b.name).Some? then rest + [Candidate(b, compare(b.name).value)]
      else rest
  }

  /** The candidates keep the listing order: each one comes from its own
      position in `bs`, and those positions increase. */
  lemma {:induction false} CandidatesInOrder(bs: seq<BranchRef>, defaultBranch: string,
                                             compare: string -> Option<Comparison>) returns (idx: seq<int>)
    ensures var cs := Candidates(bs, defaultBranch, compare);
      && |idx| == |cs|
      && (forall i :: 0 <= i < |idx| ==> 0 <= idx[i] < |bs| && cs[i].branch == bs[idx[i]])
      && (forall i, j :: 0 <= i < j < |idx| ==> idx[i] < idx[j])
  {
    if bs == [] {
      idx := [];
    } else {
      var init := bs[..|bs| - 1];
      var b := bs[|bs| - 1];
      var rest := CandidatesInOrder(init, defaultBranch, compare);
      if b.name != defaultBranch && compare(b.name).Some? {
        idx := rest + [|bs| - 1];
      } else {
        idx := rest;
      }
    }
  }

  /** `branch_data` after the loop has seen `bs`; a Failure stops the scan. */
  function Collect(bs: seq<BranchRef>, defaultBranch: string, prHeads: set<string>,
                   compare: string -> Option<Comparison>, now: int, parse: DateParser): Result<seq<BranchRecord>>
  {
    if bs == [] then Success([])
    else
      var b := bs[|bs| - 1];
      match Collect(bs[..|bs| - 1], defaultBranch, prHeads, compare, now, parse)
      case Failure(e) => Failure(e)
      case Success(rs) =>
        if b.name == defaultBranch || compare(b.name).None? then Success(rs)
        else match RecordFor(b, compare(b.name).value, prHeads, now, parse)
          case Failure(e) => Failure(e)
          case Success(r) => Success(rs + [r])
  }

  /** No candidate's newest commit lacks a committer date. */
  predicate NoNullCommitter(cs: seq<Candidate>)
  {
    forall i :: 0 <= i < |cs| ==> !NullCommitter(cs[i].comparison)
  }

  /** One more candidate: the property holds of the longer list iff it holds
      of the shorter one and of the new candidate. */
  lemma NoNullCommitterSnoc(cs: seq<Candidate>, c: Candidate)
    ensures NoNullCommitter(cs + [c]) <==> NoNullCommitter(cs) && !NullCommitter(c.comparison)
  {
    if NoNullCommitter(cs) && !NullCommitter(c.comparison) {
      forall i | 0 <= i < |cs + [c]| ensures !NullCommitter((cs + [c])[i].comparison) {
        if i < |cs| { assert (cs + [c])[i] == cs[i]; }
      }
    }
    if NoNullCommitter(cs + [c]) {
      forall i | 0 <= i < |cs| ensures !NullCommitter(cs[i].comparison) {
        assert (cs + [c])[i] == cs[i];
      }
      assert (cs + [c])[|cs|] == c;
    }
  }

  /** The collection succeeds exactly when no candidate's newest commit
      lacks a committer date. */
  lemma {:induction false} CollectSucceeds(bs: seq<BranchRef>, defaultBranch: string, prHeads: set<string>,
                                           compare: string -> Option<Comparison>, now: int, parse: DateParser)
    ensures Collect(bs, defaultBranch, prHeads, compare, now, parse).Success?
        <==> NoNullCommitter(Candidates(bs, defaultBranch, compare))
    decreases |bs|
  {
    if bs != [] {
      var init := bs[..|bs| - 1];
      var b := bs[|bs| - 1];
      CollectSucceeds(init, defaultBranch, prHeads, compare, now, parse);
      var before := Candidates(init, defaultBranch, compare);
      var cs := Candidates(bs, defaultBranch, compare);
      if b.name != defaultBranch && compare(b.name).Some? {
        var c := Candidate(b, compare(b.name).value);
        assert cs == before + [c];
        NoNullCommitterSnoc(before, c);
      } else {
        assert cs == before;
      }
    }
  }

  /** The collected records are, in order, the records of the candidates. */
  lemma {:induction false} CollectRecords(bs: seq<BranchRef>, defaultBranch: string, prHeads: set<string>,
                                          compare: string -> Option<Comparison>, now: int, parse: DateParser)
    requires Collect(bs, defaultBranch, prHeads, compare, now, parse).Success?
    ensures var cs := Candidates(bs, defaultBranch, compare);
      var rs := Collect(bs, defaultBranch, prHeads, compare, now, parse).value;
      && |rs| == |cs|
      && forall i :: 0 <= i < |cs| ==> RecordFor(cs[i].branch, cs[i].comparison, prHeads, now, parse) == Success(rs[i])
    decreases |bs|
  {
    if bs != [] {
      var init := bs[..|bs| - 1];
      var b := bs[|bs| - 1];
      var prev := Collect(init, defaultBranch, prHeads, compare, now, parse);
      var cur := Collect(bs, defaultBranch, prHeads, compare, now, parse);
      assert prev.Success?;
      CollectRecords(init, defaultBranch, prHeads, compare, now, parse);
      var before := Candidates(init, defaultBranch, compare);
      var cs := Candidates(bs, defaultBranch, compare);
      if b.name != defaultBranch && compare(b.name).Some? {
        var c := Candidate(b, compare(b.name).value);
        assert cs == before + [c];
        var rec := RecordFor(b, c.comparison, prHeads, now, parse);
        assert rec.Success?;
        assert cur.value == prev.value + [rec.value];
        forall i | 0 <= i < |cs|
          ensures RecordFor(cs[i].branch, cs[i].comparison, prHeads, now, parse) == Success(cur.value[i])
        {
          if i < |before| {
            assert cs[i] == before[i] && cur.value[i] == prev.value[i];
          } else {
            assert cs[i] == c && cur.value[i] == rec.value;
          }
        }
      } else {
        assert cs == before;
        assert cur == prev;
      }
    }
  }

  /** Once the collection of a prefix has failed, the whole scan fails with
      the same error. */
  lemma {:induction false} CollectFailureSticks(bs: seq<BranchRef>, j: int, defaultBranch: string, prHeads: set<string>,
                                                compare: string -> Option<Comparison>, now: int, parse: DateParser)
    requires 0 <= j <= |bs|
    requires Collect(bs[..j], defaultBranch, prHeads, compare, now, parse).Failure?
    ensures Collect(bs, defaultBranch, prHeads, compare, now, parse) == Collect(bs[..j], defaultBranch, prHeads, compare, now, parse)
    decreases |bs| - j
  {
    if j < |bs| {
      assert bs[..j + 1][..j] == bs[..j];
      CollectFailureSticks(bs, j + 1, defaultBranch, prHeads, compare, now, parse);
    } else {
      assert bs[..j] == bs;
    }
  }

  /** The scanner's sort key of a record. */
  function PriorityKey(r: BranchRecord): int
  {
    SortOrder(LabelText(r.classification))
  }

  /** `pr_branches`: the head refs of the open pull requests. */
  function PrHeads(pullHeads: seq<string>): set<string>
  {
    set h | h in pullHeads
  }

  /** `scan_repo` as a function of what the GitHub calls returned. */
  function ScanRepoSpec(repo: Repo, data: RepoData, now: int, parse: DateParser): Result<RepoScan>
  {
    var defaultBranch := repo.defaultBranch.GetOr(DefaultBranchName);
    match Collect(data.branches, defaultBranch, PrHeads(data.pullHeads), data.compare, now, parse)
    case Failure(e) => Failure(e)
    case Success(rs) =>
      var sorted := SortBy(rs, PriorityKey);
      Success(RepoScan(repo.owner, repo.name, repo.fullName, defaultBranch, sorted, |sorted|, data.hasClaudeMd, None))
  }

  /** The body of the scanner's loop for a branch whose comparison
      succeeded (github_client.py:210-253). */
  method BuildRecord(branch: BranchRef, cmp: Comparison, prBranches: set<string>, now: int, parse: DateParser)
    returns (record: Result<BranchRecord>)
    ensures record == RecordFor(branch, cmp, prBranches, now, parse)
  {
    var lastCommitDate: Option<string> := None;
    var lastCommitAuthor: Option<string> := None;
    if |cmp.commits| > 0 {
      var lastCommit := cmp.commits[|cmp.commits| - 1];
      if lastCommit.committerDate.None? {
        return Failure(NullCommitterError);
      }
      lastCommitDate := lastCommit.committerDate;
      lastCommitAuthor := Some(if lastCommit.author.Some? then lastCommit.author.value else UnknownAuthor);
    }
    var hasPr := branch.name in prBranches;
    var classification := Classify(cmp, lastCommitDate, hasPr, now, parse);
    var filesChanged := FilesChanged(cmp.files);
    var commitMessages := CommitMessages(cmp.commits);
    assert filesChanged == seq(|cmp.files|, i requires 0 <= i < |cmp.files| => Project(cmp.files[i]));
    assert commitMessages == seq(|cmp.commits|, i requires 0 <= i < |cmp.commits| => Summarize(cmp.commits[i]));
    record := Success(BranchRecord(branch.name, classification, cmp.aheadBy.GetOr(0), cmp.behindBy.GetOr(0),
                                   lastCommitDate, lastCommitAuthor, hasPr, branch.sha, filesChanged, commitMessages));
  }

  /** `scan_repo` (github_client.py:190-273). */
  method ScanRepo(repo: Repo, data: RepoData, now: int, parse: DateParser) returns (result: Result<RepoScan>)
    ensures result == ScanRepoSpec(repo, data, now, parse)
  {
    var defaultBranch := repo.defaultBranch.GetOr(DefaultBranchName);
    var branches := data.branches;
    var prBranches := PrHeads(data.pullHeads);
    var branchData: seq<BranchRecord> := [];
    var i := 0;
    while i < |branches|
      invariant 0 <= i <= |branches|
      invariant Collect(branches[..i], defaultBranch, prBranches, data.compare, now, parse) == Success(branchData)
    {
      var branch := branches[i];
      assert branches[..i + 1][..i] == branches[..i];
      assert branches[..i + 1][i] == branch;
      var comparison := if branch.name == defaultBranch then None else data.compare(branch.name);
      if comparison.Some? {
        var record := BuildRecord(branch, comparison.value, prBranches, now, parse);
        if record.Failure? {
          CollectFailureSticks(branches, i + 1, defaultBranch, prBranches, data.compare, now, parse);
          return Failure(record.error);
        }
        branchData := branchData + [record.value];
      }
      i := i + 1;
    }
    assert branches[..i] == branches;
    var sorted := SortBy(branchData, PriorityKey);
    result := Success(RepoScan(repo.owner, repo.name, repo.fullName, defaultBranch, sorted, |sorted|, data.hasClaudeMd, None));
  }

  /** The records of a successful scan: one per candidate branch, never the
      default branch, `branch_count` their number, ordered by priority key,
      and equal keys in listing order. */
  lemma {:induction false} ScanRepoRecords(repo: Repo, data: RepoData, now: int, parse: DateParser)
    requires ScanRepoSpec(repo, data, now, parse).Success?
    ensures var scan := ScanRepoSpec(repo, data, now, parse).value;
      var defaultBranch := repo.defaultBranch.GetOr(DefaultBranchName);
      var cs := Candidates(data.branches, defaultBranch, data.compare);
      var rs := Collect(data.branches, defaultBranch, PrHeads(data.pullHeads), data.compare, now, parse).value;
      && scan.branchCount == |scan.branches| == |cs|
      && scan.defaultBranch == defaultBranch
      && SortedBy(scan.branches, PriorityKey)
      && multiset(scan.branches) == multiset(rs)
      && (forall k :: WithKey(scan.branches, PriorityKey, k) == WithKey(rs, PriorityKey, k))
      && (forall i :: 0 <= i < |cs| ==> RecordFor(cs[i].branch, cs[i].comparison, PrHeads(data.pullHeads), now, parse) == Success(rs[i]))
      && (forall r :: r in scan.branches ==> r.name != defaultBranch)
  {
    var defaultBranch := repo.defaultBranch.GetOr(DefaultBranchName);
    var heads := PrHeads(data.pullHeads);
    var cs := Candidates(data.branches, defaultBranch, data.compare);
    CollectRecords(data.branches, defaultBranch, heads, data.compare, now, parse);
    var rs := Collect(data.branches, defaultBranch, heads, data.compare, now, parse).value;
    var sorted := SortBy(rs, PriorityKey);
    forall k ensures WithKey(sorted, PriorityKey, k) == WithKey(rs, PriorityKey, k) {
      SortByStable(rs, PriorityKey, k);
    }
    forall r | r in sorted ensures r.name != defaultBranch {
      assert r in multiset(rs);
      var i :| 0 <= i < |rs| && rs[i] == r;
      assert cs[i] in cs;
      assert Candidate(cs[i].branch, cs[i].comparison) == cs[i];
    }
  }

  /** Each record's position in the output follows the priority order:
      a record of a lower-ranked label never comes after one of a higher. */
  lemma ScanRepoPriority(repo: Repo, data: RepoData, now: int, parse: DateParser)
    requires ScanRepoSpec(repo, data, now, parse).Success?
    ensures var bs := ScanRepoSpec(repo, data, now, parse).value.branches;
      forall i, j :: 0 <= i < |bs| && 0 <= j < |bs| && PriorityKey(bs[i]) < PriorityKey(bs[j]) ==> i < j
  {
    ScanRepoRecords(repo, data, now, parse);
    SortedByOrder(ScanRepoSpec(repo, data, now, parse).value.branches, PriorityKey);
  }

  /** The scan fails exactly when a candidate branch's newest commit has a
      null committer; a failed comparison never makes it fail. */
  lemma ScanRepoFails(repo: Repo, data: RepoData, now: int, parse: DateParser)
    ensures var cs := Candidates(data.branches, repo.defaultBranch.GetOr(DefaultBranchName), data.compare);
      ScanRepoSpec(repo, data, now, parse).Failure? <==> (exists i :: 0 <= i < |cs| && NullCommitter(cs[i].comparison))
  {
    var defaultBranch := repo.defaultBranch.GetOr(DefaultBranchName);
    CollectSucceeds(data.branches, defaultBranch, PrHeads(data.pullHeads), data.compare, now, parse);
  }

  /** Three branches besides `main`, one of whose comparisons fails: the
      scan has two records and does not fail. */
  lemma OneFailedComparison(cmp: Comparison, now: int, parse: DateParser)
    requires cmp.commits == []
    ensures var data := RepoData(
              [BranchRef("main", "m"), BranchRef("a", "1"), BranchRef("b", "2"), BranchRef("c", "3")],
              [],
              (n: string) => if n == "b" then None else Some(cmp),
              false);
      var scan := ScanRepoSpec(Repo("o", "r", "o/r", None), data, now, parse);
      scan.Success? && scan.value.branchCount == 2
  {
    var data := RepoData(
      [BranchRef("main", "m"), BranchRef("a", "1"), BranchRef("b", "2"), BranchRef("c", "3")],
      [],
      (n: string) => if n == "b" then None else Some(cmp),
      false);
    var bs := data.branches;
    var heads := PrHeads(data.pullHeads);
    var r1 := RecordFor(bs[1], cmp, heads, now, parse);
    var r3 := RecordFor(bs[3], cmp, heads, now, parse);
    assert r1.Success? && r3.Success?;
    assert Collect(bs[..0], "main", heads, data.compare, now, parse) == Success([]);
    assert bs[..1][..0] == bs[..0] && bs[..1][0] == bs[0];
    assert Collect(bs[..1], "main", heads, data.compare, now, parse) == Success([]);
    assert bs[..2][..1] == bs[..1] && bs[..2][1] == bs[1];
    assert bs[1].name == "a" && data.compare(bs[1].name) == Some(cmp);
    assert [] + [r1.value] == [r1.value];
    assert Collect(bs[..2], "main", heads, data.compare, now, parse) == Success([r1.value]);
    assert bs[..3][..2] == bs[..2] && bs[..3][2] == bs[2];
    assert bs[2].name == "b" && data.compare(bs[2].name) == None;
    assert Collect(bs[..3], "main", heads, data.compare, now, parse) == Success([r1.value]);
    assert bs[..3] == bs[..|bs| - 1];
    assert bs[3].name == "c" && data.compare(bs[3].name) == Some(cmp);
    assert bs[|bs| - 1] == bs[3] && |bs| == 4;
    assert [r1.value] + [r3.value] == [r1.value, r3.value];
    assert Collect(bs, "main", heads, data.compare, now, parse) == Success([r1.value, r3.value]);
  }

  // ---------------------------------------------------------------------
  // Archive tags
  // ---------------------------------------------------------------------

  /** The tag name `create_archive_tag` gives an archived branch. */
  function TagName(branch: string, today: string): (tag: string)
    ensures "archive/" <= tag
  {
    "archive/" + branch + "/" + today
  }
}
