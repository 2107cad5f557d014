/** The local store: preferences, scan history, the analysis cache and the
    action log, each of which the source keeps in a JSON file, and the
    per-session token counters. The files become fields of a `Store`
    object; the clock reading stamped on records is a parameter. */
module Models {
  import opened Wrappers
  import opened Json
  import opened Text

  // ---------------------------------------------------------------------
  // Session cost
  // ---------------------------------------------------------------------

  /** The counters after a run of `add` calls, each given as its
      (input, output) token counts: the sums of the two columns and the
      number of calls. */
  function Totals(calls: seq<(int, int)>): (t: (int, int, int))
    ensures t.2 == |calls|
  {
    if calls == [] then (0, 0, 0)
    else
      var before := Totals(calls[..|calls| - 1]);
      var c := calls[|calls| - 1];
      (before.0 + c.0, before.1 + c.1, before.2 + 1)
  }

  /** The token totals of a run of calls are the sums of its parts. */
  lemma {:induction false} TotalsAppend(a: seq<(int, int)>, b: seq<(int, int)>)
    ensures Totals(a + b).0 == Totals(a).0 + Totals(b).0
    ensures Totals(a + b).1 == Totals(a).1 + Totals(b).1
    ensures Totals(a + b).2 == Totals(a).2 + Totals(b).2
    decreases |b|
  {
    if b != [] {
      assert (a + b)[..|a + b| - 1] == a + b[..|b| - 1];
      TotalsAppend(a, b[..|b| - 1]);
    } else {
      assert a + b == a;
    }
  }

  /** The integer counters of `SessionCost`; the float cost is not
      modelled. `calls` records the arguments of every `add` so far. */
  class SessionCost {
    var totalInputTokens: int
    var totalOutputTokens: int
    var analysesCount: int
    ghost var calls: seq<(int, int)>

    /** The counters are the totals of the calls made. */
    ghost predicate Valid()
      reads this
    {
      (totalInputTokens, totalOutputTokens, analysesCount) == Totals(calls)
    }

    constructor ()
      ensures Valid() && calls == []
      ensures totalInputTokens == 0 && totalOutputTokens == 0 && analysesCount == 0
    {
      totalInputTokens := 0;
      totalOutputTokens := 0;
      analysesCount := 0;
      calls := [];
    }

    /** One more analysis, with its token counts. */
    method Add(inputTokens: int, outputTokens: int)
      requires Valid()
      modifies this
      ensures Valid() && calls == old(calls) + [(inputTokens, outputTokens)]
      ensures totalInputTokens == old(totalInputTokens) + inputTokens
      ensures totalOutputTokens == old(totalOutputTokens) + outputTokens
      ensures analysesCount == old(analysesCount) + 1
    {
      totalInputTokens := totalInputTokens + inputTokens;
      totalOutputTokens := totalOutputTokens + outputTokens;
      analysesCount := analysesCount + 1;
      calls := calls + [(inputTokens, outputTokens)];
      assert calls[..|calls| - 1] == old(calls);
    }
  }

  /** The two calls of the session-cost test: 300 input and 150 output
      tokens over 2 analyses. */
  lemma SessionCostScenario()
    ensures Totals([(100, 50), (200, 100)]) == (300, 150, 2)
  {
    assert [(100, 50), (200, 100)][..1] == [(100, 50)];
    assert [(100, 50)][..0] == [];
  }

  // ---------------------------------------------------------------------
  // Preferences
  // ---------------------------------------------------------------------

  /** `DEFAULT_PREFS`, in its order. */
  const DefaultPrefs: seq<(string, Json)> := [
    ("local_root", JStr("~/claudesync2")),
    ("sort_repos_by", JStr("branch_count")),
    ("sort_branches_by", JStr("classification")),
    ("excluded_repos", JList([])),
    ("ai_model", JStr("claude-haiku-4-5-20251001")),
    ("display_mode", JStr("plain_english"))]

  /** The dictionary of a list of key/value pairs; a later pair wins. */
  function AsMap(entries: seq<(string, Json)>): (m: Dict)
    ensures forall k :: k in m <==> exists i :: 0 <= i < |entries| && entries[i].0 == k
  {
    if entries == [] then map[]
    else
      var init := entries[..|entries| - 1];
      var last := entries[|entries| - 1];
      var m := AsMap(init)[last.0 := last.1];
      assert forall i :: 0 <= i < |init| ==> init[i] == entries[i];
      m
  }

  /** Each key maps to the value of its last pair. */
  lemma {:induction false} AsMapValues(entries: seq<(string, Json)>, i: int)
    requires 0 <= i < |entries|
    requires forall j :: i < j < |entries| ==> entries[j].0 != entries[i].0
    ensures entries[i].0 in AsMap(entries) && AsMap(entries)[entries[i].0] == entries[i].1
    decreases |entries|
  {
    var init := entries[..|entries| - 1];
    if i < |init| {
      assert init[i] == entries[i];
      assert forall j :: i < j < |init| ==> init[j] == entries[j];
      AsMapValues(init, i);
    }
  }

  /** No key occurs twice, as in the items of a Python dict. */
  predicate DistinctKeys(entries: seq<(string, Json)>)
  {
    forall i, j :: 0 <= i < j < |entries| ==> entries[i].0 != entries[j].0
  }

  /** `DEFAULT_PREFS` as a dictionary. */
  function DefaultMap(): Dict
  {
    AsMap(DefaultPrefs)
  }

  /** The loop of `get_preferences` that fills in the missing defaults: every
      default key is present afterwards, keys already stored keep their
      values, and nothing else is added. */
  method FillDefaults(prefs: Dict, defaults: seq<(string, Json)>) returns (filled: Dict)
    requires DistinctKeys(defaults)
    ensures forall k :: k in filled <==> k in prefs || k in AsMap(defaults)
    ensures forall k :: k in prefs ==> filled[k] == prefs[k]
    ensures forall k :: k in AsMap(defaults) && k !in prefs ==> filled[k] == AsMap(defaults)[k]
  {
    filled := prefs;
    var i := 0;
    while i < |defaults|
      invariant 0 <= i <= |defaults|
      invariant forall k :: k in filled <==> k in prefs || k in AsMap(defaults[..i])
      invariant forall k :: k in prefs ==> filled[k] == prefs[k]
      invariant forall k :: k in AsMap(defaults[..i]) && k !in prefs ==> filled[k] == AsMap(defaults[..i])[k]
    {
      assert defaults[..i + 1][..i] == defaults[..i];
      var (k, v) := defaults[i];
      assert k !in AsMap(defaults[..i]);
      assert AsMap(defaults[..i + 1]) == AsMap(defaults[..i])[k := v];
      if k !in filled {
        filled := filled[k := v];
      }
      i := i + 1;
    }
    assert defaults[..i] == defaults;
  }

  // ---------------------------------------------------------------------
  // Scan history and the analysis cache
  // ---------------------------------------------------------------------

  /** How many scans the history keeps. */
  const MaxScans: nat := 50

  /** Python's `s[-n:]` for n > 0: the last `n` elements, or all of them. */
  function KeepLast<T>(s: seq<T>, n: nat): (r: seq<T>)
    requires n > 0
    ensures |r| == if |s| < n then |s| else n
    ensures forall i :: 0 <= i < |r| ==> r[i] == s[|s| - |r| + i]
  {
    if |s| <= n then s else s[|s| - n..]
  }

  /** A record with a timestamp field written into it. */
  function Stamp(d: Dict, field: string, timestamp: string): (r: Dict)
    ensures r.Keys == d.Keys + {field}
    ensures r[field] == JStr(timestamp)
    ensures forall k :: k in d && k != field ==> r[k] == d[k]
  {
    d[field := JStr(timestamp)]
  }

  /** After a save, the history keeps at most 50 scans, its newest entry is
      the saved scan, and the scans before it are the newest ones of the
      old history, in order. */
  lemma SaveKeepsNewest(history: seq<Dict>, scan: Dict)
    ensures var h := KeepLast(history + [scan], MaxScans);
      && 0 < |h| <= MaxScans
      && h[|h| - 1] == scan
      && h[..|h| - 1] == history[|history| - (|h| - 1)..]
      && (|history| < MaxScans ==> h == history + [scan])
  {
    var all := history + [scan];
    var h := KeepLast(all, MaxScans);
    if |history| < MaxScans {
      assert h == all;
      assert all[..|all| - 1] == history;
      assert history[|history| - |history|..] == history;
    } else {
      assert h == all[|all| - MaxScans..];
      var k := MaxScans - 1;
      assert |h| == MaxScans && h[k] == all[|all| - 1] == scan;
      var tail := history[|history| - k..];
      forall i | 0 <= i < k ensures h[..k][i] == tail[i] {
        assert h[i] == all[|all| - MaxScans + i];
        assert all[|all| - MaxScans + i] == history[|history| - k + i];
      }
      assert h[..k] == tail;
    }
  }

  /** The analysis cache key, `"{repo}/{branch}/{sha}"`. */
  function CacheKey(repo: string, branch: string, sha: string): (key: string)
    ensures repo + "/" + branch + "/" <= key
  {
    repo + "/" + branch + "/" + sha
  }

  /** When neither the repository name nor the sha holds a slash, the key
      determines all three parts, so two different triples never share a
      cache entry (a branch name may hold slashes). */
  lemma CacheKeyInjective(r1: string, b1: string, s1: string, r2: string, b2: string, s2: string)
    requires '/' !in r1 && '/' !in s1 && '/' !in r2 && '/' !in s2
    requires CacheKey(r1, b1, s1) == CacheKey(r2, b2, s2)
    ensures r1 == r2 && b1 == b2 && s1 == s2
  {
    CacheKeySplit(r1, b1, s1);
    CacheKeySplit(r2, b2, s2);
    var p1, p2 := Split(b1, '/'), Split(b2, '/');
    var parts := Split(CacheKey(r1, b1, s1), '/');
    assert parts[0] == r1 && parts[0] == r2;
    assert parts[|parts| - 1] == s1 && parts[|parts| - 1] == s2;
    assert p1 == parts[1..|parts| - 1] == p2;
    JoinSplit(b1, '/');
    JoinSplit(b2, '/');
  }

  /** The pieces of a cache key split at slashes. */
  lemma CacheKeySplit(repo: string, branch: string, sha: string)
    requires '/' !in repo && '/' !in sha
    ensures Split(CacheKey(repo, branch, sha), '/') == [repo] + Split(branch, '/') + [sha]
  {
    assert CacheKey(repo, branch, sha) == repo + ['/'] + (branch + ['/'] + sha);
    SplitAppend(repo, branch + ['/'] + sha, '/');
    SplitAppend(branch, sha, '/');
    SplitNoSep(repo, '/');
    SplitNoSep(sha, '/');
  }

  /** `get_cached_analysis` on a cache. */
  function Lookup(cache: map<string, Dict>, repo: string, branch: string, sha: string): Option<Dict>
  {
    var key := CacheKey(repo, branch, sha);
    if key in cache then Some(cache[key]) else None
  }

  /** The analysis stored by `cache_analysis`, with its `_cached_at` stamp. */
  function Cached(analysis: Dict, timestamp: string): Dict
  {
    Stamp(analysis, "_cached_at", timestamp)
  }

  /** Storing an analysis then looking it up gives it back with its stamp;
      a lookup of any other triple (slash-free names and shas) sees the
      cache as it was before. */
  lemma CacheRoundTrip(cache: map<string, Dict>, repo: string, branch: string, sha: string,
                       analysis: Dict, timestamp: string, r: string, b: string, s: string)
    requires '/' !in repo && '/' !in sha && '/' !in r && '/' !in s
    ensures var after := cache[CacheKey(repo, branch, sha) := Cached(analysis, timestamp)];
      && Lookup(after, repo, branch, sha) == Some(Cached(analysis, timestamp))
      && ((r, b, s) != (repo, branch, sha) ==> Lookup(after, r, b, s) == Lookup(cache, r, b, s))
  {
    if CacheKey(r, b, s) == CacheKey(repo, branch, sha) {
      CacheKeyInjective(r, b, s, repo, branch, sha);
    }
  }

  // ---------------------------------------------------------------------
  // The action log
  // ---------------------------------------------------------------------

  /** `get_action_log` on the JSON the log file holds (an absent file reads
      as `{}`): a bare list, the list under "actions", or empty when that key
      is absent. A stored "actions" that is not a list, and a file holding
      neither a list nor an object, make the caller raise: Failure. */
  function ActionsIn(data: Json): (r: Result<seq<Json>>)
    ensures data.JList? ==> r == Success(data.items)
    ensures data.JObject? && "actions" !in data.fields ==> r == Success([])
    ensures (data.JObject? && "actions" in data.fields && data.fields["actions"].JList?)
      ==> r == Success(data.fields["actions"].items)
    ensures r.Success? <==> data.JList? || (data.JObject? && ("actions" in data.fields ==> data.fields["actions"].JList?))
  {
    match data
    case JList(items) => Success(items)
    case JObject(fields) =>
      if "actions" !in fields then Success([])
      else if fields["actions"].JList? then Success(fields["actions"].items)
      else Failure("'actions' is not a list")
    case _ => Failure("the action log is neither a list nor an object")
  }

  /** One entry of the action log. */
  function ActionEntry(actionType: string, repo: string, branch: string, details: string, timestamp: string): Json
  {
    JObject(map["type" := JStr(actionType), "repo" := JStr(repo), "branch" := JStr(branch),
                "details" := JStr(details), "timestamp" := JStr(timestamp)])
  }

  /** What `log_action` writes back: the old entries and one more, always
      in the `{"actions": [...]}` form. */
  function Logged(actions: seq<Json>, entry: Json): Json
  {
    JObject(map["actions" := JList(actions + [entry])])
  }

  /** Reading back a written log gives the old entries, unchanged and in
      order, followed by exactly the new one with its type, repo and branch. */
  lemma LogThenRead(data: Json, actionType: string, repo: string, branch: string, details: string, timestamp: string)
    requires ActionsIn(data).Success?
    ensures var old_ := ActionsIn(data).value;
      var back := ActionsIn(Logged(old_, ActionEntry(actionType, repo, branch, details, timestamp)));
      && back.Success?
      && |back.value| == |old_| + 1
      && back.value[..|old_|] == old_
      && back.value[|old_|].JObject?
      && back.value[|old_|].fields["type"] == JStr(actionType)
      && back.value[|old_|].fields["repo"] == JStr(repo)
      && back.value[|old_|].fields["branch"] == JStr(branch)
  {
    var old_ := ActionsIn(data).value;
    var e := ActionEntry(actionType, repo, branch, details, timestamp);
    assert (old_ + [e])[..|old_|] == old_;
  }

  // ---------------------------------------------------------------------
  // The store
  // ---------------------------------------------------------------------

  /** The four JSON files, held in memory. */
  class Store {
    var prefs: Dict
    var scans: seq<Dict>
    var cache: map<string, Dict>
    var actionFile: Json

    /** No file written yet: each reads as an empty object. */
    constructor ()
      ensures prefs == map[] && scans == [] && cache == map[] && actionFile == JObject(map[])
    {
      prefs := map[];
      scans := [];
      cache := map[];
      actionFile := JObject(map[]);
    }

    /** `get_preferences`: an empty store is first written with the
        defaults; the result holds every default key, and the stored keys
        keep their values. */
    method GetPreferences() returns (result: Dict)
      modifies this
      ensures old(prefs) == map[] ==> prefs == DefaultMap() && result == DefaultMap()
      ensures old(prefs) != map[] ==> prefs == old(prefs)
      ensures forall k :: k in result <==> k in old(prefs) || k in DefaultMap()
      ensures forall k :: k in old(prefs) ==> result[k] == old(prefs)[k]
      ensures forall k :: k in DefaultMap() && k !in old(prefs) ==> result[k] == DefaultMap()[k]
      ensures scans == old(scans) && cache == old(cache) && actionFile == old(actionFile)
    {
      var loaded := prefs;
      if loaded == map[] {
        loaded := AsMap(DefaultPrefs);
        prefs := loaded;
      }
      result := FillDefaults(loaded, DefaultPrefs);
      if old(prefs) == map[] {
        assert forall k :: k in result ==> k in DefaultMap() && result[k] == DefaultMap()[k];
      }
    }

    /** `save_preferences`. */
    method SavePreferences(p: Dict)
      modifies this
      ensures prefs == p
      ensures scans == old(scans) && cache == old(cache) && actionFile == old(actionFile)
    {
      prefs := p;
    }

    /** `save_scan`: the scan, stamped, goes at the end and only the last
        50 scans are kept. */
    method SaveScan(scan: Dict, timestamp: string)
      modifies this
      ensures scans == KeepLast(old(scans) + [Stamp(scan, "timestamp", timestamp)], MaxScans)
      ensures 0 < |scans| <= MaxScans && scans[|scans| - 1] == Stamp(scan, "timestamp", timestamp)
      ensures prefs == old(prefs) && cache == old(cache) && actionFile == old(actionFile)
    {
      var history := scans + [Stamp(scan, "timestamp", timestamp)];
      scans := KeepLast(history, MaxScans);
    }

    /** `get_latest_scan`: the newest scan, None when there is none. */
    method GetLatestScan() returns (latest: Option<Dict>)
      ensures latest.None? <==> scans == []
      ensures latest.Some? ==> latest.value == scans[|scans| - 1]
    {
      if |scans| > 0 {
        latest := Some(scans[|scans| - 1]);
      } else {
        latest := None;
      }
    }

    /** `cache_analysis`: the stamped analysis under its key; other keys keep
        their entries. */
    method CacheAnalysis(repo: string, branch: string, sha: string, analysis: Dict, timestamp: string)
      modifies this
      ensures cache == old(cache)[CacheKey(repo, branch, sha) := Cached(analysis, timestamp)]
      ensures prefs == old(prefs) && scans == old(scans) && actionFile == old(actionFile)
    {
      var key := repo + "/" + branch + "/" + sha;
      cache := cache[key := analysis["_cached_at" := JStr(timestamp)]];
    }

    /** `get_cached_analysis`: the entry under the key, None when absent. */
    method GetCachedAnalysis(repo: string, branch: string, sha: string) returns (found: Option<Dict>)
      ensures found.Some? <==> CacheKey(repo, branch, sha) in cache
      ensures found.Some? ==> found.value == cache[CacheKey(repo, branch, sha)]
    {
      var key := repo + "/" + branch + "/" + sha;
      if key in cache {
        found := Some(cache[key]);
      } else {
        found := None;
      }
    }

    /** `get_action_log`. */
    method GetActionLog() returns (actions: Result<seq<Json>>)
      ensures actions == ActionsIn(actionFile)
    {
      match actionFile
      case JList(items) => actions := Success(items);
      case JObject(fields) =>
        if "actions" !in fields {
          actions := Success([]);
        } else if fields["actions"].JList? {
          actions := Success(fields["actions"].items);
        } else {
          actions := Failure("'actions' is not a list");
        }
      case _ => actions := Failure("the action log is neither a list nor an object");
    }

    /** `log_action`: one entry appended at the end of the log; when the
        stored log cannot be read the call raises and nothing is written. */
    method LogAction(actionType: string, repo: string, branch: string, details: string, timestamp: string)
      returns (ok: bool)
      modifies this
      ensures ok <==> ActionsIn(old(actionFile)).Success?
      ensures ok ==> actionFile == Logged(ActionsIn(old(actionFile)).value,
                                          ActionEntry(actionType, repo, branch, details, timestamp))
      ensures !ok ==> actionFile == old(actionFile)
      ensures prefs == old(prefs) && scans == old(scans) && cache == old(cache)
    {
      var actions := GetActionLog();
      if actions.Failure? {
        return false;
      }
      var entry := JObject(map["type" := JStr(actionType), "repo" := JStr(repo), "branch" := JStr(branch),
                               "details" := JStr(details), "timestamp" := JStr(timestamp)]);
      actionFile := JObject(map["actions" := JList(actions.value + [entry])]);
      ok := true;
    }
  }
}
