/** Review comments against the threads already there: `planActions` of `tools/review/src/github.ts`. */
module ReviewThreads {
  import opened Options
  import opened Findings

  type Key = string

  datatype Thread = Thread(
    key: Key,
    pass: Option<string>,
    path: Option<string>,
    line: Option<nat>,
    resolved: bool,
    closedByUs: bool,      // carries our "Resolved" reply
    dismissReply: bool,
    acked: bool,
    retracted: bool)

  /** What one run of the tool is given. */
  datatype Run = Run(
    keyOf: Finding -> Key,
    findings: seq<Finding>,
    failed: set<string>,             // passes that errored
    window: nat,
    postable: Finding -> bool)

  // ---------------------------------------------------------------------------
  // `new Map(...)` over pairs: the last value wins, at the place of the first
  // ---------------------------------------------------------------------------

  datatype Entry = Entry(key: Key, finding: Finding)

  predicate HasKey(m: seq<Entry>, k: Key) {
    exists e :: e in m && e.key == k
  }

  function Put(m: seq<Entry>, e: Entry): seq<Entry> {
    if m == [] then [e]
    else if m[0].key == e.key then [e] + m[1..]
    else [m[0]] + Put(m[1..], e)
  }

  function EntryOf(keyOf: Finding -> Key, f: Finding): Entry {
    Entry(keyOf(f), f)
  }

  function FindingMap(keyOf: Finding -> Key, findings: seq<Finding>): seq<Entry> {
    if findings == [] then []
    else Put(FindingMap(keyOf, findings[..|findings| - 1]), EntryOf(keyOf, findings[|findings| - 1]))
  }

  ghost predicate KeysDistinct(m: seq<Entry>) {
    forall i, j :: 0 <= i < j < |m| ==> m[i].key != m[j].key
  }

  lemma {:induction false} PutContents(m: seq<Entry>, e: Entry, x: Entry)
    requires KeysDistinct(m)
    ensures x in Put(m, e) <==> x == e || (x in m && x.key != e.key)
  {
    if m != [] {
      assert m == [m[0]] + m[1..];
      if m[0].key != e.key {
        PutContents(m[1..], e, x);
      }
    }
  }

  lemma {:induction false} PutDistinct(m: seq<Entry>, e: Entry)
    requires KeysDistinct(m)
    ensures KeysDistinct(Put(m, e))
  {
    if m != [] && m[0].key != e.key {
      PutDistinct(m[1..], e);
      forall x | x in Put(m[1..], e) ensures x.key != m[0].key {
        PutContents(m[1..], e, x);
      }
    }
  }

  lemma {:induction false} FindingMapDistinct(keyOf: Finding -> Key, findings: seq<Finding>)
    ensures KeysDistinct(FindingMap(keyOf, findings))
  {
    if findings != [] {
      FindingMapDistinct(keyOf, findings[..|findings| - 1]);
      PutDistinct(FindingMap(keyOf, findings[..|findings| - 1]), EntryOf(keyOf, findings[|findings| - 1]));
    }
  }

  predicate Reported(keyOf: Finding -> Key, findings: seq<Finding>, k: Key) {
    exists f :: f in findings && keyOf(f) == k
  }

  /** The last finding reported under its key. */
  ghost predicate IsLast(keyOf: Finding -> Key, findings: seq<Finding>, i: nat, x: Entry) {
    i < |findings| && x == EntryOf(keyOf, findings[i]) && !Reported(keyOf, findings[i + 1..], x.key)
  }

  lemma ReportedSnoc(keyOf: Finding -> Key, findings: seq<Finding>, last: Finding, k: Key)
    ensures Reported(keyOf, findings + [last], k) <==> Reported(keyOf, findings, k) || keyOf(last) == k
  {
    if Reported(keyOf, findings, k) {
      var f :| f in findings && keyOf(f) == k;
      assert f in findings + [last];
    }
    assert (findings + [last])[|findings|] == last;
  }

  lemma IsLastSnoc(keyOf: Finding -> Key, findings: seq<Finding>, last: Finding, i: nat, x: Entry)
    ensures IsLast(keyOf, findings + [last], i, x) <==>
      if i < |findings| then IsLast(keyOf, findings, i, x) && x.key != keyOf(last)
        else i == |findings| && x == EntryOf(keyOf, last)
  {
    if i < |findings| {
      assert (findings + [last])[i + 1..] == findings[i + 1..] + [last];
      ReportedSnoc(keyOf, findings[i + 1..], last, x.key);
    }
  }

  /** Each reported key once, with the last finding reported under it. */
  lemma {:induction false} FindingMapContents(keyOf: Finding -> Key, findings: seq<Finding>, x: Entry)
    ensures x in FindingMap(keyOf, findings) <==> exists i :: IsLast(keyOf, findings, i, x)
  {
    if findings != [] {
      var n := |findings| - 1;
      FindingMapContents(keyOf, findings[..n], x);
      FindingMapDistinct(keyOf, findings[..n]);
      PutContents(FindingMap(keyOf, findings[..n]), EntryOf(keyOf, findings[n]), x);
      assert findings == findings[..n] + [findings[n]];
      IsLastSnoc(keyOf, findings[..n], findings[n], n, x);
      if i :| IsLast(keyOf, findings, i, x) {
        IsLastSnoc(keyOf, findings[..n], findings[n], i, x);
      }
      if i :| IsLast(keyOf, findings[..n], i, x) {
        IsLastSnoc(keyOf, findings[..n], findings[n], i, x);
      }
    }
  }

  lemma {:induction false} PutKeys(m: seq<Entry>, e: Entry, k: Key)
    ensures HasKey(Put(m, e), k) <==> HasKey(m, k) || k == e.key
  {
    if m == [] {
      assert e in Put(m, e);
    } else {
      assert m == [m[0]] + m[1..];
      if m[0].key != e.key {
        PutKeys(m[1..], e, k);
        ConsKeys(m[0], Put(m[1..], e), k);
      } else {
        ConsKeys(e, m[1..], k);
      }
      ConsKeys(m[0], m[1..], k);
    }
  }

  lemma ConsKeys(e: Entry, m: seq<Entry>, k: Key)
    ensures HasKey([e] + m, k) <==> e.key == k || HasKey(m, k)
  {
    assert e in [e] + m;
    if HasKey(m, k) {
      var x :| x in m && x.key == k;
      assert x in [e] + m;
    }
  }

  lemma {:induction false} FindingMapKeys(keyOf: Finding -> Key, findings: seq<Finding>, k: Key)
    ensures HasKey(FindingMap(keyOf, findings), k) <==> Reported(keyOf, findings, k)
  {
    if findings != [] {
      var n := |findings| - 1;
      FindingMapKeys(keyOf, findings[..n], k);
      PutKeys(FindingMap(keyOf, findings[..n]), EntryOf(keyOf, findings[n]), k);
      ReportedSnoc(keyOf, findings[..n], findings[n], k);
      assert findings == findings[..n] + [findings[n]];
    }
  }

  // ---------------------------------------------------------------------------
  // planActions
  // ---------------------------------------------------------------------------

  datatype ActionPlan = ActionPlan(toCreate: seq<Finding>, toResolve: seq<Thread>, toReopen: seq<Thread>)

  /** Both lines known, same file, at most `window` apart. */
  predicate Nearby(window: nat, file: string, line: Option<nat>, path: Option<string>, other: Option<nat>) {
    line.Some? && other.Some? && path == Some(file) && -(window as int) <= other.value - line.value <= window
  }

  predicate NearThread(window: nat, threads: seq<Thread>, f: Finding) {
    exists t :: t in threads && !t.resolved && Nearby(window, f.file, f.line, t.path, t.line)
  }

  predicate NearFinding(window: nat, created: seq<Finding>, f: Finding) {
    exists c :: c in created && Nearby(window, f.file, f.line, Some(c.file), c.line)
  }

  predicate HasThread(threads: seq<Thread>, k: Key) {
    exists t :: t in threads && t.key == k
  }

  /** Findings that get a comment, in order: no thread of their own, no open thread near, and none
      created before them near. */
  function Created(window: nat, threads: seq<Thread>, current: seq<Entry>): seq<Finding> {
    if current == [] then []
    else
      var created := Created(window, threads, current[..|current| - 1]);
      var Entry(k, f) := current[|current| - 1];
      if HasThread(threads, k) || NearThread(window, threads, f) || NearFinding(window, created, f) then created
      else created + [f]
  }

  /** A thread without a pass is held back by any failure, another by the failure of its own pass. */
  predicate HeldBack(failed: set<string>, t: Thread) {
    match t.pass
    case Some(p) => p in failed
    case None => failed != {}
  }

  predicate Resolves(failed: set<string>, current: seq<Entry>, t: Thread) {
    !t.resolved && !HasKey(current, t.key) && !HeldBack(failed, t)
  }

  predicate Reopens(current: seq<Entry>, t: Thread) {
    t.resolved && HasKey(current, t.key)
  }

  ghost predicate UniqueKeys(threads: seq<Thread>) {
    forall i, j :: 0 <= i < j < |threads| ==> threads[i].key != threads[j].key
  }

  /** `planActions` */
  method PlanActions(run: Run, findings: seq<Finding>, threads: seq<Thread>) returns (plan: ActionPlan)
    requires UniqueKeys(threads)
    ensures plan.toCreate == Created(run.window, threads, FindingMap(run.keyOf, findings))
    ensures forall t :: t in plan.toResolve <==>
      t in threads && Resolves(run.failed, FindingMap(run.keyOf, findings), t)
    ensures forall t :: t in plan.toReopen <==> t in threads && Reopens(FindingMap(run.keyOf, findings), t)
  {
    var current := FindingMap(run.keyOf, findings);
    var toCreate, toReopen, toResolve := [], [], [];
    for i := 0 to |current|
      invariant toCreate == Created(run.window, threads, current[..i])
      invariant forall t :: t in toReopen <==> t in threads && Reopens(current[..i], t)
    {
      assert current[..i + 1][..i] == current[..i];
      var Entry(key, finding) := current[i];
      HasKeyStep(current, i);
      var own := FindThread(threads, key);
      match own {
        case Some(thread) =>
          OnlyThread(threads, thread);
          if thread.resolved {
            toReopen := toReopen + [thread];
          }
        case None =>
          if !NearThread(run.window, threads, finding) && !NearFinding(run.window, toCreate, finding) {
            toCreate := toCreate + [finding];
          }
      }
    }
    assert current[..|current|] == current;
    for i := 0 to |threads|
      invariant forall t :: t in toResolve <==> t in threads[..i] && Resolves(run.failed, current, t)
    {
      var thread := threads[i];
      if thread.resolved || HasKey(current, thread.key) {
        continue;
      }
      if match thread.pass { case Some(p) => p in run.failed case None => run.failed != {} } {
        continue;
      }
      toResolve := toResolve + [thread];
    }
    return ActionPlan(toCreate, toResolve, toReopen);
  }

  method FindThread(threads: seq<Thread>, k: Key) returns (r: Option<Thread>)
    ensures r.None? <==> !HasThread(threads, k)
    ensures r.Some? ==> r.value in threads && r.value.key == k
  {
    for i := 0 to |threads|
      invariant forall j :: 0 <= j < i ==> threads[j].key != k
    {
      if threads[i].key == k {
        return Some(threads[i]);
      }
    }
    return None;
  }

  lemma OnlyThread(threads: seq<Thread>, t: Thread)
    requires UniqueKeys(threads) && t in threads
    ensures forall u :: u in threads && u.key == t.key ==> u == t
  {
  }

  lemma HasKeyStep(m: seq<Entry>, i: nat)
    requires i < |m|
    ensures forall k :: HasKey(m[..i + 1], k) <==> HasKey(m[..i], k) || k == m[i].key
  {
    assert m[..i + 1] == m[..i] + [m[i]];
    forall k ensures HasKey(m[..i + 1], k) <==> HasKey(m[..i], k) || k == m[i].key {
      if HasKey(m[..i], k) {
        var e :| e in m[..i] && e.key == k;
        assert e in m[..i + 1];
      }
    }
  }

  // ---------------------------------------------------------------------------
  // The plan, field by field
  // ---------------------------------------------------------------------------

  /** A thread is resolved when it is open, no current finding has its key, and no pass that could have
      reported it failed: its own pass or, for a thread without one, any.  It is reopened when it is
      resolved and a current finding has its key. */
  lemma {:induction false} ThreadActions(keyOf: Finding -> Key, findings: seq<Finding>, failed: set<string>, t: Thread)
    ensures Resolves(failed, FindingMap(keyOf, findings), t) <==>
      && !t.resolved && (forall f :: f in findings ==> keyOf(f) != t.key)
      && (t.pass.None? ==> failed == {}) && (t.pass.Some? ==> t.pass.value !in failed)
    ensures Reopens(FindingMap(keyOf, findings), t) <==> t.resolved && exists f :: f in findings && keyOf(f) == t.key
  {
    FindingMapKeys(keyOf, findings, t.key);
  }

  /** Two places of one file, both known, at most `window` lines apart. */
  predicate Close(window: nat, file: string, line: Option<nat>, file': Option<string>, line': Option<nat>) {
    && file' == Some(file) && line.Some? && line'.Some?
    && line.value <= line'.value + window && line'.value <= line.value + window
  }

  /** Which findings get a comment: those without a thread of their own, away from every open thread, and
      away from every finding that gets one before them.  `n` entries of the plan's input are done. */
  lemma {:induction false} CreatedInFields(window: nat, threads: seq<Thread>, current: seq<Entry>, n: nat)
    requires n < |current|
    ensures var (f, before) := (current[n].finding, Created(window, threads, current[..n]));
      Created(window, threads, current[..n + 1]) ==
        if || (exists t :: t in threads && t.key == current[n].key)
           || (exists t :: t in threads && !t.resolved && Close(window, f.file, f.line, t.path, t.line))
           || (exists c :: c in before && Close(window, f.file, f.line, Some(c.file), c.line))
        then before else before + [f]
  {
    var f := current[n].finding;
    assert current[..n + 1][..n] == current[..n];
    assert forall path, line :: Close(window, f.file, f.line, path, line) <==>
      Nearby(window, f.file, f.line, path, line);
  }
}
