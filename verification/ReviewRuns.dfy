/** Repeated runs of the review tool over the same findings: two runs reach a fixed point, one run
    need not.  `tools/review/src/github.ts`.  */
module ReviewRuns {
  import opened Options
  import opened Findings
  import opened ReviewThreads
  import opened ReviewSink

  // ---------------------------------------------------------------------------
  // Which findings a plan creates
  // ---------------------------------------------------------------------------

  /** The entry at `i` passes every test of the planning loop. */
  predicate CreatedAt(window: nat, threads: seq<Thread>, current: seq<Entry>, i: nat) {
    && i < |current|
    && !HasThread(threads, current[i].key)
    && !NearThread(window, threads, current[i].finding)
    && !NearFinding(window, Created(window, threads, current[..i]), current[i].finding)
  }

  lemma {:induction false} CreatedContents(window: nat, threads: seq<Thread>, current: seq<Entry>, n: nat, f: Finding)
    requires n <= |current|
    ensures f in Created(window, threads, current[..n]) <==>
      exists i :: 0 <= i < n && CreatedAt(window, threads, current, i) && current[i].finding == f
  {
    if n > 0 {
      assert current[..n][..n - 1] == current[..n - 1];
      CreatedContents(window, threads, current, n - 1, f);
    }
  }

  /** No two findings created together are near each other. */
  lemma CreatedApart(window: nat, threads: seq<Thread>, current: seq<Entry>, i: nat, j: nat)
    requires i < j && CreatedAt(window, threads, current, i) && CreatedAt(window, threads, current, j)
    ensures var f, g := current[i].finding, current[j].finding; !Nearby(window, f.file, f.line, Some(g.file), g.line)
  {
    CreatedContents(window, threads, current, j, current[i].finding);
  }

  ghost predicate Keyed(run: Run, current: seq<Entry>) {
    KeysDistinct(current) && forall e :: e in current ==> e.key == run.keyOf(e.finding)
  }

  lemma CurrentIsKeyed(run: Run, retract: set<Key>, threads: seq<Thread>)
    ensures Keyed(run, Current(run, retract, threads))
  {
    var live := LiveFindings(run, retract, threads, run.findings);
    FindingMapDistinct(run.keyOf, live);
    forall e | e in FindingMap(run.keyOf, live) ensures e.key == run.keyOf(e.finding) {
      FindingMapContents(run.keyOf, live, e);
    }
  }

  // ---------------------------------------------------------------------------
  // Planning again once the comments are there
  // ---------------------------------------------------------------------------

  predicate NearPosted(run: Run, created: seq<Finding>, f: Finding) {
    exists c :: c in created && Posts(run, c) && Nearby(run.window, f.file, f.line, Some(c.file), c.line)
  }

  /** `live'` is `live` with a thread for each posted finding of `created`. */
  ghost predicate Joined(run: Run, live: seq<Thread>, live': seq<Thread>, created: seq<Finding>) {
    && (forall k :: HasThread(live', k) <==>
      HasThread(live, k) || exists c :: c in created && Posts(run, c) && run.keyOf(c) == k)
    && (forall f :: NearThread(run.window, live', f) <==>
      NearThread(run.window, live, f) || NearPosted(run, created, f))
  }

  /** With the posted comments there, exactly the findings that could not be posted are planned again. */
  lemma {:induction false} CreatedAgain(run: Run, live: seq<Thread>, live': seq<Thread>, current: seq<Entry>, i: nat)
    requires i < |current| && Keyed(run, current)
    requires Joined(run, live, live', Created(run.window, live, current))
    ensures CreatedAt(run.window, live', current, i) <==>
      CreatedAt(run.window, live, current, i) && !Posts(run, current[i].finding)
  {
    var w := run.window;
    var f := current[i].finding;
    assert current[..|current|] == current;
    forall j | 0 <= j < i
      ensures CreatedAt(w, live', current, j) <==> CreatedAt(w, live, current, j) && !Posts(run, current[j].finding)
    {
      CreatedAgain(run, live, live', current, j);
    }
    if CreatedAt(w, live, current, i) && !Posts(run, f) {
      PostedElsewhere(run, live, current, i);
      EarlierCreated(run, live, live', current, i);
    } else if CreatedAt(w, live', current, i) {
      LaterCreated(run, live, live', current, i);
      CreatedContents(w, live, current, |current|, f);
    }
  }

  /** A posted finding is neither this one nor near it. */
  lemma PostedElsewhere(run: Run, live: seq<Thread>, current: seq<Entry>, i: nat)
    requires Keyed(run, current) && CreatedAt(run.window, live, current, i) && !Posts(run, current[i].finding)
    ensures forall c :: c in Created(run.window, live, current) && Posts(run, c) ==>
      run.keyOf(c) != current[i].key
        && !Nearby(run.window, current[i].finding.file, current[i].finding.line, Some(c.file), c.line)
  {
    var w := run.window;
    assert current[..|current|] == current;
    forall c | c in Created(w, live, current) && Posts(run, c)
      ensures run.keyOf(c) != current[i].key
        && !Nearby(w, current[i].finding.file, current[i].finding.line, Some(c.file), c.line)
    {
      CreatedContents(w, live, current, |current|, c);
      var j :| 0 <= j < |current| && CreatedAt(w, live, current, j) && current[j].finding == c;
      if j < i {
        CreatedApart(w, live, current, j, i);
      } else {
        CreatedApart(w, live, current, i, j);
      }
      assert current[j] in current;
    }
  }

  lemma EarlierCreated(run: Run, live: seq<Thread>, live': seq<Thread>, current: seq<Entry>, i: nat)
    requires i < |current|
    requires forall j :: 0 <= j < i && CreatedAt(run.window, live', current, j) ==>
      CreatedAt(run.window, live, current, j)
    requires !NearFinding(run.window, Created(run.window, live, current[..i]), current[i].finding)
    ensures !NearFinding(run.window, Created(run.window, live', current[..i]), current[i].finding)
  {
    forall c | c in Created(run.window, live', current[..i]) ensures c in Created(run.window, live, current[..i]) {
      CreatedContents(run.window, live', current, i, c);
      CreatedContents(run.window, live, current, i, c);
    }
  }

  lemma LaterCreated(run: Run, live: seq<Thread>, live': seq<Thread>, current: seq<Entry>, i: nat)
    requires i < |current| && CreatedAt(run.window, live', current, i)
    requires Joined(run, live, live', Created(run.window, live, current))
    requires forall j :: 0 <= j < i ==>
      (CreatedAt(run.window, live', current, j) <==>
        CreatedAt(run.window, live, current, j) && !Posts(run, current[j].finding))
    ensures CreatedAt(run.window, live, current, i)
  {
    var w := run.window;
    var f := current[i].finding;
    assert current[..|current|] == current;
    forall c | c in Created(w, live, current[..i]) ensures !Nearby(w, f.file, f.line, Some(c.file), c.line) {
      CreatedContents(w, live, current, i, c);
      var j :| 0 <= j < i && CreatedAt(w, live, current, j) && current[j].finding == c;
      CreatedContents(w, live, current, |current|, c);
      CreatedContents(w, live', current, i, c);
    }
  }

  // ---------------------------------------------------------------------------
  // From one thread list to the next
  // ---------------------------------------------------------------------------

  function Plan(run: Run, retract: set<Key>, threads: seq<Thread>): seq<Finding> {
    Created(run.window, LiveThreads(run, retract, threads), Current(run, retract, threads))
  }

  ghost predicate FromLive(run: Run, retract: set<Key>, before: seq<Thread>, t': Thread) {
    exists t :: t in LiveThreads(run, retract, before) && t' == Settled(run, retract, Current(run, retract, before), t)
  }

  lemma LiveAfter(run: Run, retract: set<Key>, before: seq<Thread>, after: seq<Thread>, t': Thread)
    requires Follows(run, retract, before, after)
    ensures t' in LiveThreads(run, {}, after) <==>
      FromLive(run, retract, before, t') || t' in News(run, Plan(run, retract, before))
  {
    var current := Current(run, retract, before);
    var news := News(run, Plan(run, retract, before));
    LiveThreadsContents(run, retract, before);
    LiveThreadsContents(run, {}, after);
    forall i | 0 <= i < |before| ensures Excluded(run, {}, after[i]) <==> Excluded(run, retract, before[i]) {
      CurrentKeys(run, retract, before, before[i].key);
      SettledStaysExcluded(run, retract, current, before[i]);
    }
    if t' in LiveThreads(run, {}, after) {
      var i :| 0 <= i < |after| && after[i] == t';
      if i < |before| {
        assert before[i] in LiveThreads(run, retract, before);
      } else {
        assert t' == after[|before|..][i - |before|];
      }
    }
    if t :| t in LiveThreads(run, retract, before) && t' == Settled(run, retract, current, t) {
      var i :| 0 <= i < |before| && before[i] == t;
      assert after[i] in after;
    }
    if t' in news {
      var i :| 0 <= i < |news| && news[i] == t';
      assert after[|before|..][i] == after[|before| + i];
      NewsAreLive(run, Plan(run, retract, before), {}, t');
    }
  }

  lemma PlannedEntry(run: Run, live: seq<Thread>, current: seq<Entry>, f: Finding) returns (i: nat)
    requires f in Created(run.window, live, current)
    ensures CreatedAt(run.window, live, current, i) && current[i].finding == f
  {
    assert current[..|current|] == current;
    CreatedContents(run.window, live, current, |current|, f);
    i :| 0 <= i < |current| && CreatedAt(run.window, live, current, i) && current[i].finding == f;
  }

  /** A posted finding is one planned for: its key is current, and no thread had it. */
  lemma NewsAreCurrent(run: Run, live: seq<Thread>, current: seq<Entry>, t: Thread)
    requires Keyed(run, current) && t in News(run, Created(run.window, live, current))
    ensures HasKey(current, t.key) && !HasThread(live, t.key)
  {
    NewsContents(run, Created(run.window, live, current), t);
    var f :| f in Created(run.window, live, current) && t == NewThread(run, f);
    var i := PlannedEntry(run, live, current, f);
    var e := current[i];
    assert e in current && e.finding == f;
    assert t == NewThread(run, f);
    assert t.key == run.keyOf(f);
  }

  ghost predicate Quiet(run: Run, threads: seq<Thread>) {
    forall t :: t in LiveThreads(run, {}, threads) ==>
      !Resolves(run.failed, Current(run, {}, threads), t) && !Reopens(Current(run, {}, threads), t)
  }

  /** After any run the next plan resolves and reopens nothing. */
  lemma {:induction false} NextRunIsQuiet(run: Run, retract: set<Key>, before: seq<Thread>, after: seq<Thread>)
    requires Follows(run, retract, before, after)
    ensures Quiet(run, after)
  {
    var current := Current(run, retract, before);
    FollowsKeepsCurrent(run, retract, before, after);
    LiveThreadsContents(run, retract, before);
    forall t' | t' in LiveThreads(run, {}, after) ensures !Resolves(run.failed, current, t') && !Reopens(current, t') {
      LiveAfter(run, retract, before, after, t');
      if t :| t in LiveThreads(run, retract, before) && t' == Settled(run, retract, current, t) {
        SettledIsQuiet(run, retract, current, t);
      } else {
        CurrentIsKeyed(run, retract, before);
        NewsAreCurrent(run, LiveThreads(run, retract, before), current, t');
        NewsContents(run, Plan(run, retract, before), t');
      }
    }
  }

  /** A run from a quiet state only adds threads. */
  lemma QuietRunAdds(run: Run, before: seq<Thread>, after: seq<Thread>, t: Thread)
    requires Follows(run, {}, before, after) && Quiet(run, before)
    ensures t in LiveThreads(run, {}, after) <==>
      t in LiveThreads(run, {}, before) || t in News(run, Plan(run, {}, before))
  {
    LiveAfter(run, {}, before, after, t);
    LiveThreadsContents(run, {}, before);
    assert forall u :: u in LiveThreads(run, {}, before) ==> Settled(run, {}, Current(run, {}, before), u) == u;
  }

  lemma QuietRunJoins(run: Run, before: seq<Thread>, after: seq<Thread>)
    requires Follows(run, {}, before, after) && Quiet(run, before)
    ensures Joined(run, LiveThreads(run, {}, before), LiveThreads(run, {}, after), Plan(run, {}, before))
  {
    var live, live', created := LiveThreads(run, {}, before), LiveThreads(run, {}, after), Plan(run, {}, before);
    forall t ensures t in live' <==> t in live || exists c :: c in created && Posts(run, c) && t == NewThread(run, c) {
      QuietRunAdds(run, before, after, t);
      NewsContents(run, created, t);
    }
    MembersJoin(run, live, live', created);
  }

  lemma MembersJoin(run: Run, live: seq<Thread>, live': seq<Thread>, created: seq<Finding>)
    requires forall t :: t in live' <==>
      t in live || exists c :: c in created && Posts(run, c) && t == NewThread(run, c)
    ensures Joined(run, live, live', created)
  {
    forall c | c in created && Posts(run, c) ensures NewThread(run, c) in live' {
    }
    forall f
      ensures NearThread(run.window, live', f) <==> NearThread(run.window, live, f) || NearPosted(run, created, f)
    {
      if c :| c in created && Posts(run, c) && Nearby(run.window, f.file, f.line, Some(c.file), c.line) {
        assert NewThread(run, c) in live';
      }
    }
    forall k
      ensures HasThread(live', k) <==>
        HasThread(live, k) || exists c :: c in created && Posts(run, c) && run.keyOf(c) == k
    {
      if c :| c in created && Posts(run, c) && run.keyOf(c) == k {
        assert NewThread(run, c) in live';
      }
    }
  }

  // ---------------------------------------------------------------------------
  // Main results
  // ---------------------------------------------------------------------------

  lemma NewKeysAreNew(run: Run, retract: set<Key>, before: seq<Thread>, t: Thread)
    requires t in News(run, Plan(run, retract, before))
    ensures !HasThread(before, t.key)
  {
    CurrentIsKeyed(run, retract, before);
    NewsAreCurrent(run, LiveThreads(run, retract, before), Current(run, retract, before), t);
    CurrentKeys(run, retract, before, t.key);
    LiveThreadsContents(run, retract, before);
  }

  lemma UniqueJoin(before: seq<Thread>, kept: seq<Thread>, news: seq<Thread>)
    requires UniqueKeys(before) && UniqueKeys(news)
    requires |kept| == |before| && forall i :: 0 <= i < |before| ==> kept[i].key == before[i].key
    requires forall t :: t in news ==> !HasThread(before, t.key)
    ensures UniqueKeys(kept + news)
  {
    forall i, j | 0 <= i < |before| && 0 <= j < |news| ensures kept[i].key != news[j].key {
      assert before[i] in before && news[j] in news;
    }
  }

  /** No thread is ever given the key of another. */
  lemma {:induction false} KeysStayUnique(run: Run, retract: set<Key>, before: seq<Thread>, after: seq<Thread>)
    requires UniqueKeys(before) && after == After(run, retract, before)
    ensures UniqueKeys(after)
  {
    FollowsExactly(run, retract, before, after);
    var current := Current(run, retract, before);
    var news := News(run, Plan(run, retract, before));
    CurrentIsKeyed(run, retract, before);
    NewsUnique(run, LiveThreads(run, retract, before), current, |current|);
    assert current[..|current|] == current;
    assert after == after[..|before|] + news;
    forall t | t in news ensures !HasThread(before, t.key) {
      NewKeysAreNew(run, retract, before, t);
    }
    UniqueJoin(before, after[..|before|], news);
  }

  lemma {:induction false} NewsUnique(run: Run, live: seq<Thread>, current: seq<Entry>, n: nat)
    requires Keyed(run, current) && n <= |current|
    ensures UniqueKeys(News(run, Created(run.window, live, current[..n])))
  {
    if n > 0 {
      NewsUnique(run, live, current, n - 1);
      assert current[..n][..n - 1] == current[..n - 1];
      var created := Created(run.window, live, current[..n - 1]);
      forall t | t in News(run, created) ensures t.key != current[n - 1].key {
        assert Keyed(run, current[..n - 1]);
        NewsAreCurrent(run, live, current[..n - 1], t);
      }
      if CreatedAt(run.window, live, current, n - 1) {
        assert (created + [current[n - 1].finding])[..|created|] == created;
        assert current[n - 1] in current;
      }
    }
  }

  lemma {:induction false} ThirdFollows(run: Run, retract: set<Key>, t0: seq<Thread>, t1: seq<Thread>,
      t2: seq<Thread>, t3: seq<Thread>)
    requires Follows(run, retract, t0, t1) && Follows(run, {}, t1, t2) && Follows(run, {}, t2, t3)
    ensures Quiet(run, t2)
    ensures forall f :: f in Plan(run, {}, t2) ==> !Posts(run, f)
    ensures t3 == t2
  {
    NextRunIsQuiet(run, retract, t0, t1);
    NextRunIsQuiet(run, {}, t1, t2);
    NothingMorePosted(run, t1, t2);
    FollowsKeepsCurrent(run, {}, t1, t2);
    NothingPosted(run, Plan(run, {}, t2));
    forall i | 0 <= i < |t2| ensures t3[i] == t2[i] {
      SettledAgain(run, t1, t2, i);
    }
  }

  lemma NothingMorePosted(run: Run, t1: seq<Thread>, t2: seq<Thread>)
    requires Follows(run, {}, t1, t2) && Quiet(run, t1)
    ensures forall f :: f in Plan(run, {}, t2) ==> !Posts(run, f)
  {
    var live, live', current := LiveThreads(run, {}, t1), LiveThreads(run, {}, t2), Current(run, {}, t1);
    QuietRunJoins(run, t1, t2);
    CurrentIsKeyed(run, {}, t1);
    FollowsKeepsCurrent(run, {}, t1, t2);
    assert current[..|current|] == current;
    forall f | f in Plan(run, {}, t2) ensures !Posts(run, f) {
      CreatedContents(run.window, live', current, |current|, f);
      var i :| 0 <= i < |current| && CreatedAt(run.window, live', current, i) && current[i].finding == f;
      CreatedAgain(run, live, live', current, i);
    }
  }

  lemma {:induction false} NothingPosted(run: Run, created: seq<Finding>)
    requires forall f :: f in created ==> !Posts(run, f)
    ensures News(run, created) == []
  {
    if created != [] {
      NothingPosted(run, created[..|created| - 1]);
    }
  }

  lemma SettledAgain(run: Run, t1: seq<Thread>, t2: seq<Thread>, i: nat)
    requires Follows(run, {}, t1, t2) && i < |t2|
    ensures Settled(run, {}, Current(run, {}, t1), t2[i]) == t2[i]
  {
    var current := Current(run, {}, t1);
    if i < |t1| {
      CurrentKeys(run, {}, t1, t1[i].key);
      SettledOnce(run, current, t1[i]);
    } else {
      assert t2[i] == t2[|t1|..][i - |t1|];
      CurrentIsKeyed(run, {}, t1);
      NewsAreCurrent(run, LiveThreads(run, {}, t1), current, t2[i]);
      NewsContents(run, Plan(run, {}, t1), t2[i]);
    }
  }

  /** Two runs reach a fixed point: from the third on, nothing is resolved, reopened or posted, and
      the threads stay exactly as they are.  No assumption on lines, failed passes or what the first
      run withdrew. */
  lemma {:induction false} ThirdRunIsIdle(run: Run, retract: set<Key>, threads: seq<Thread>)
    ensures var t2 := After(run, {}, After(run, retract, threads));
      && Quiet(run, t2)
      && (forall f :: f in Plan(run, {}, t2) ==> !Posts(run, f))
      && After(run, {}, t2) == t2
  {
    var t1 := After(run, retract, threads);
    var t2 := After(run, {}, t1);
    FollowsExactly(run, retract, threads, t1);
    FollowsExactly(run, {}, t1, t2);
    FollowsExactly(run, {}, t2, After(run, {}, t2));
    ThirdFollows(run, retract, threads, t1, t2, After(run, {}, t2));
  }

  /** When every comment can be posted, the third plan is empty outright. */
  lemma {:induction false} ThirdPlanIsEmpty(run: Run, retract: set<Key>, threads: seq<Thread>)
    requires forall f :: f in run.findings ==> Posts(run, f)
    ensures Plan(run, {}, After(run, {}, After(run, retract, threads))) == []
  {
    var t2 := After(run, {}, After(run, retract, threads));
    ThirdRunIsIdle(run, retract, threads);
    forall f | f in Plan(run, {}, t2) ensures f in run.findings {
      PlannedIsReported(run, {}, t2, f);
    }
    EmptyIfNoMember(Plan(run, {}, t2));
  }

  lemma EmptyIfNoMember(s: seq<Finding>)
    ensures s == [] || exists f :: f in s
  {
    assert s == [] || s[0] in s;
  }

  lemma PlannedIsReported(run: Run, retract: set<Key>, threads: seq<Thread>, f: Finding)
    requires f in Plan(run, retract, threads)
    ensures f in run.findings
  {
    var current := Current(run, retract, threads);
    var live := LiveFindings(run, retract, threads, run.findings);
    assert current[..|current|] == current;
    CreatedContents(run.window, LiveThreads(run, retract, threads), current, |current|, f);
    var i :| 0 <= i < |current| && current[i].finding == f;
    FindingMapContents(run.keyOf, live, current[i]);
    LiveFindingsContents(run, retract, threads, run.findings);
  }

  // ---------------------------------------------------------------------------
  // One run is not enough
  // ---------------------------------------------------------------------------

  /** Still open after a run: reported, or kept open by a failed pass. */
  predicate Survives(run: Run, current: seq<Entry>, t: Thread) {
    HasKey(current, t.key) || (!t.resolved && HeldBack(run.failed, t))
  }

  predicate NearSurvivor(run: Run, live: seq<Thread>, current: seq<Entry>, f: Finding) {
    exists t :: t in live && Survives(run, current, t) && Nearby(run.window, f.file, f.line, t.path, t.line)
  }

  /** No finding without a thread is suppressed only by threads that this run resolves. */
  ghost predicate NoneOrphaned(run: Run, retract: set<Key>, threads: seq<Thread>) {
    var live, current := LiveThreads(run, retract, threads), Current(run, retract, threads);
    forall e :: e in current && !HasThread(live, e.key) && NearThread(run.window, live, e.finding) ==>
      NearSurvivor(run, live, current, e.finding) || NearPosted(run, Plan(run, retract, threads), e.finding)
  }

  predicate IsNews(run: Run, created: seq<Finding>, t: Thread) {
    exists c :: c in created && Posts(run, c) && t == NewThread(run, c)
  }

  lemma LiveAfterAll(run: Run, retract: set<Key>, before: seq<Thread>, after: seq<Thread>)
    requires Follows(run, retract, before, after)
    ensures forall t' :: t' in LiveThreads(run, {}, after) <==>
      FromLive(run, retract, before, t') || IsNews(run, Plan(run, retract, before), t')
  {
    forall t'
      ensures t' in LiveThreads(run, {}, after) <==>
        FromLive(run, retract, before, t') || IsNews(run, Plan(run, retract, before), t')
    {
      LiveAfter(run, retract, before, after, t');
      NewsContents(run, Plan(run, retract, before), t');
    }
  }

  predicate PostedKey(run: Run, created: seq<Finding>, k: Key) {
    exists c :: c in created && Posts(run, c) && run.keyOf(c) == k
  }

  lemma SettledIsLive(run: Run, retract: set<Key>, before: seq<Thread>, after: seq<Thread>, t: Thread)
    requires Follows(run, retract, before, after) && t in LiveThreads(run, retract, before)
    ensures Settled(run, retract, Current(run, retract, before), t) in LiveThreads(run, {}, after)
  {
    LiveAfter(run, retract, before, after, Settled(run, retract, Current(run, retract, before), t));
  }

  lemma PostedIsLive(run: Run, retract: set<Key>, before: seq<Thread>, after: seq<Thread>, c: Finding)
    requires Follows(run, retract, before, after) && c in Plan(run, retract, before) && Posts(run, c)
    ensures NewThread(run, c) in LiveThreads(run, {}, after)
  {
    NewsContents(run, Plan(run, retract, before), NewThread(run, c));
    LiveAfter(run, retract, before, after, NewThread(run, c));
  }

  lemma HasThreadAfter(run: Run, retract: set<Key>, before: seq<Thread>, after: seq<Thread>, k: Key)
    requires Follows(run, retract, before, after)
    ensures HasThread(LiveThreads(run, {}, after), k) <==>
      HasThread(LiveThreads(run, retract, before), k) || PostedKey(run, Plan(run, retract, before), k)
  {
    if HasThread(LiveThreads(run, {}, after), k) {
      OldOrPosted(run, retract, before, after, k);
    }
    if HasThread(LiveThreads(run, retract, before), k) {
      OldKeyStays(run, retract, before, after, k);
    }
    if PostedKey(run, Plan(run, retract, before), k) {
      PostedKeyArrives(run, retract, before, after, k);
    }
  }

  lemma OldKeyStays(run: Run, retract: set<Key>, before: seq<Thread>, after: seq<Thread>, k: Key)
    requires Follows(run, retract, before, after) && HasThread(LiveThreads(run, retract, before), k)
    ensures HasThread(LiveThreads(run, {}, after), k)
  {
    var t :| t in LiveThreads(run, retract, before) && t.key == k;
    SettledIsLive(run, retract, before, after, t);
  }

  lemma PostedKeyArrives(run: Run, retract: set<Key>, before: seq<Thread>, after: seq<Thread>, k: Key)
    requires Follows(run, retract, before, after) && PostedKey(run, Plan(run, retract, before), k)
    ensures HasThread(LiveThreads(run, {}, after), k)
  {
    var c :| c in Plan(run, retract, before) && Posts(run, c) && run.keyOf(c) == k;
    PostedIsLive(run, retract, before, after, c);
  }

  lemma OldOrPosted(run: Run, retract: set<Key>, before: seq<Thread>, after: seq<Thread>, k: Key)
    requires Follows(run, retract, before, after) && HasThread(LiveThreads(run, {}, after), k)
    ensures HasThread(LiveThreads(run, retract, before), k) || PostedKey(run, Plan(run, retract, before), k)
  {
    var t' :| t' in LiveThreads(run, {}, after) && t'.key == k;
    LiveAfter(run, retract, before, after, t');
    if t' in News(run, Plan(run, retract, before)) {
      NewsHaveKeys(run, Plan(run, retract, before), t');
    } else {
      FromLiveHasThread(run, retract, before, t');
    }
  }

  lemma FromLiveHasThread(run: Run, retract: set<Key>, before: seq<Thread>, t': Thread)
    requires FromLive(run, retract, before, t')
    ensures HasThread(LiveThreads(run, retract, before), t'.key)
  {
    var t :| t in LiveThreads(run, retract, before) && t' == Settled(run, retract, Current(run, retract, before), t);
    assert t.key == t'.key;
  }

  lemma NewsHaveKeys(run: Run, created: seq<Finding>, t: Thread)
    requires t in News(run, created)
    ensures PostedKey(run, created, t.key)
  {
    NewsContents(run, created, t);
    var c :| c in created && Posts(run, c) && t == NewThread(run, c);
    assert run.keyOf(c) == t.key;
  }

  lemma NearThreadAfter(run: Run, retract: set<Key>, before: seq<Thread>, after: seq<Thread>, f: Finding)
    requires Follows(run, retract, before, after)
    ensures NearThread(run.window, LiveThreads(run, {}, after), f) <==>
      NearSurvivor(run, LiveThreads(run, retract, before), Current(run, retract, before), f)
        || NearPosted(run, Plan(run, retract, before), f)
  {
    var live, live', current := LiveThreads(run, retract, before), LiveThreads(run, {}, after),
      Current(run, retract, before);
    var plan := Plan(run, retract, before);
    LiveThreadsContents(run, retract, before);
    LiveAfterAll(run, retract, before, after);
    if t :| t in live && Survives(run, current, t) && Nearby(run.window, f.file, f.line, t.path, t.line) {
      var t' := Settled(run, retract, current, t);
      assert FromLive(run, retract, before, t') && !t'.resolved;
    }
    if c :| c in plan && Posts(run, c) && Nearby(run.window, f.file, f.line, Some(c.file), c.line) {
      assert IsNews(run, plan, NewThread(run, c));
    }
  }

  /** Left without any thread by a run: none had its key or was posted with it, and every open thread
      near it was resolved by that run. */
  predicate Orphaned(run: Run, retract: set<Key>, threads: seq<Thread>, e: Entry) {
    var (live, current, plan) := (LiveThreads(run, retract, threads), Current(run, retract, threads),
      Plan(run, retract, threads));
    && !HasThread(live, e.key) && !PostedKey(run, plan, e.key)
    && !NearSurvivor(run, live, current, e.finding) && !NearPosted(run, plan, e.finding)
  }

  /** The orphaned findings among the first `n` that have no line in the diff, without near repeats:
      those the next run plans for and cannot post. */
  function Unpostable(run: Run, retract: set<Key>, threads: seq<Thread>, n: nat): seq<Finding>
    requires n <= |Current(run, retract, threads)|
  {
    if n == 0 then []
    else
      var (held, e) := (Unpostable(run, retract, threads, n - 1), Current(run, retract, threads)[n - 1]);
      if Orphaned(run, retract, threads, e) && !Posts(run, e.finding) && !NearFinding(run.window, held, e.finding)
      then held + [e.finding] else held
  }

  /** Each postable orphan is near an earlier finding that cannot be posted. */
  ghost predicate NoneLost(run: Run, retract: set<Key>, threads: seq<Thread>, n: nat)
    requires n <= |Current(run, retract, threads)|
  {
    forall i :: 0 <= i < n ==>
      var e := Current(run, retract, threads)[i];
      Orphaned(run, retract, threads, e) && Posts(run, e.finding) ==>
        NearFinding(run.window, Unpostable(run, retract, threads, i), e.finding)
  }

  lemma OrphanedExactly(run: Run, retract: set<Key>, before: seq<Thread>, after: seq<Thread>, e: Entry)
    requires Follows(run, retract, before, after)
    ensures var live' := LiveThreads(run, {}, after);
      Orphaned(run, retract, before, e) <==> !HasThread(live', e.key) && !NearThread(run.window, live', e.finding)
  {
    HasThreadAfter(run, retract, before, after, e.key);
    NearThreadAfter(run, retract, before, after, e.finding);
  }

  ghost predicate PostsNone(run: Run, created: seq<Finding>) {
    forall f :: f in created ==> !Posts(run, f)
  }

  lemma PostsNoneSnoc(run: Run, created: seq<Finding>, f: Finding)
    ensures PostsNone(run, created + [f]) <==> PostsNone(run, created) && !Posts(run, f)
  {
    assert f in created + [f];
    assert forall g :: g in created ==> g in created + [f];
  }

  /** Among `live'`, exactly the orphans have no thread. */
  ghost predicate Exposes(run: Run, retract: set<Key>, before: seq<Thread>, live': seq<Thread>) {
    forall e :: Orphaned(run, retract, before, e) <==>
      !HasThread(live', e.key) && !NearThread(run.window, live', e.finding)
  }

  /** As long as nothing can be posted, the second plan is the unpostable orphans. */
  lemma {:induction false} SecondPlan(run: Run, retract: set<Key>, before: seq<Thread>, live': seq<Thread>, n: nat)
    requires Exposes(run, retract, before, live') && n <= |Current(run, retract, before)|
    ensures var created := Created(run.window, live', Current(run, retract, before)[..n]);
      && (PostsNone(run, created) <==> NoneLost(run, retract, before, n))
      && (PostsNone(run, created) ==> created == Unpostable(run, retract, before, n))
  {
    if n > 0 {
      SecondPlan(run, retract, before, live', n - 1);
      SecondPlanStep(run, retract, before, live', n);
    }
  }

  lemma CreatedStep(window: nat, threads: seq<Thread>, current: seq<Entry>, n: nat)
    requires 0 < n <= |current|
    ensures var (created, e) := (Created(window, threads, current[..n - 1]), current[n - 1]);
      Created(window, threads, current[..n]) ==
      if HasThread(threads, e.key) || NearThread(window, threads, e.finding) || NearFinding(window, created, e.finding)
      then created else created + [e.finding]
  {
    assert current[..n][..n - 1] == current[..n - 1];
  }

  lemma SecondPlanStep(run: Run, retract: set<Key>, before: seq<Thread>, live': seq<Thread>, n: nat)
    requires 0 < n <= |Current(run, retract, before)| && Exposes(run, retract, before, live')
    requires var created := Created(run.window, live', Current(run, retract, before)[..n - 1]);
      && (PostsNone(run, created) <==> NoneLost(run, retract, before, n - 1))
      && (PostsNone(run, created) ==> created == Unpostable(run, retract, before, n - 1))
    ensures var created := Created(run.window, live', Current(run, retract, before)[..n]);
      && (PostsNone(run, created) <==> NoneLost(run, retract, before, n))
      && (PostsNone(run, created) ==> created == Unpostable(run, retract, before, n))
  {
    var current := Current(run, retract, before);
    CreatedStep(run.window, live', current, n);
    NoneLostStep(run, retract, before, n);
    PostsNoneSnoc(run, Created(run.window, live', current[..n - 1]), current[n - 1].finding);
  }

  lemma NoneLostStep(run: Run, retract: set<Key>, before: seq<Thread>, n: nat)
    requires 0 < n <= |Current(run, retract, before)|
    ensures var e := Current(run, retract, before)[n - 1];
      var held := Unpostable(run, retract, before, n - 1);
      var lost := Orphaned(run, retract, before, e) && Posts(run, e.finding)
        && !NearFinding(run.window, held, e.finding);
      NoneLost(run, retract, before, n) <==> (NoneLost(run, retract, before, n - 1) && !lost)
  {
  }

  /** The second run posts nothing exactly when the first left no postable finding without a thread,
      other than near one that cannot be posted.  Without withdrawals, one run is then a fixed point,
      and otherwise it is not. */
  lemma {:induction false} OneRunSettles(run: Run, retract: set<Key>, before: seq<Thread>, after: seq<Thread>)
    requires after == After(run, retract, before)
    ensures PostsNone(run, Plan(run, {}, after)) <==>
      NoneLost(run, retract, before, |Current(run, retract, before)|)
    ensures retract == {} ==>
      (After(run, {}, after) == after <==> NoneLost(run, retract, before, |Current(run, retract, before)|))
  {
    FollowsExactly(run, retract, before, after);
    FollowsKeepsCurrent(run, retract, before, after);
    var current := Current(run, retract, before);
    assert current[..|current|] == current;
    var live' := LiveThreads(run, {}, after);
    forall e
      ensures Orphaned(run, retract, before, e) <==>
        !HasThread(live', e.key) && !NearThread(run.window, live', e.finding)
    {
      OrphanedExactly(run, retract, before, after, e);
    }
    SecondPlan(run, retract, before, live', |current|);
    if retract == {} {
      FixedExactly(run, before, after);
    }
  }

  lemma FixedExactly(run: Run, before: seq<Thread>, after: seq<Thread>)
    requires Follows(run, {}, before, after)
    ensures After(run, {}, after) == after <==> PostsNone(run, Plan(run, {}, after))
  {
    var (again, plan) := (After(run, {}, after), Plan(run, {}, after));
    FollowsExactly(run, {}, after, again);
    FollowsKeepsCurrent(run, {}, before, after);
    forall i | 0 <= i < |after| ensures again[i] == after[i] {
      SettledAgain(run, before, after, i);
    }
    if PostsNone(run, plan) {
      NothingPosted(run, plan);
    } else {
      var f :| f in plan && Posts(run, f);
      NewsContents(run, plan, NewThread(run, f));
    }
  }

  /** When every comment can be posted: the second run plans nothing exactly when the first
      suppresses no finding only because of threads that it resolves itself. */
  lemma {:induction false} PostableRunSettles(run: Run, retract: set<Key>, before: seq<Thread>, after: seq<Thread>)
    requires after == After(run, retract, before)
    requires forall f :: f in run.findings ==> Posts(run, f)
    ensures Plan(run, {}, after) == [] <==> NoneOrphaned(run, retract, before)
  {
    FollowsExactly(run, retract, before, after);
    var live, live', current := LiveThreads(run, retract, before), LiveThreads(run, {}, after),
      Current(run, retract, before);
    var plan := Plan(run, retract, before);
    FollowsKeepsCurrent(run, retract, before, after);
    CurrentIsKeyed(run, retract, before);
    forall f | f in plan ensures Posts(run, f) {
      PlannedIsReported(run, retract, before, f);
    }
    if NoneOrphaned(run, retract, before) {
      forall i | 0 <= i < |current| ensures !CreatedAt(run.window, live', current, i) {
        NotCreatedAgain(run, retract, before, after, i);
      }
      CreatedNone(run.window, live', current);
    } else {
      var e :| e in current && !HasThread(live, e.key) && NearThread(run.window, live, e.finding)
            && !NearSurvivor(run, live, current, e.finding) && !NearPosted(run, plan, e.finding);
      Orphan(run, retract, before, after, e);
    }
  }

  lemma {:induction false} CreatedNone(window: nat, threads: seq<Thread>, current: seq<Entry>)
    requires forall i :: 0 <= i < |current| ==> !CreatedAt(window, threads, current, i)
    ensures Created(window, threads, current) == []
  {
    assert current[..|current|] == current;
    var created := Created(window, threads, current);
    if created != [] {
      CreatedContents(window, threads, current, |current|, created[0]);
    }
  }

  lemma NotCreatedAgain(run: Run, retract: set<Key>, before: seq<Thread>, after: seq<Thread>, i: nat)
    requires Follows(run, retract, before, after) && NoneOrphaned(run, retract, before)
    requires forall f :: f in Plan(run, retract, before) ==> Posts(run, f)
    requires i < |Current(run, retract, before)|
    ensures !CreatedAt(run.window, LiveThreads(run, {}, after), Current(run, retract, before), i)
  {
    var live, current, plan := LiveThreads(run, retract, before), Current(run, retract, before),
      Plan(run, retract, before);
    var e := current[i];
    assert e in current;
    assert current[..|current|] == current;
    CurrentIsKeyed(run, retract, before);
    HasThreadAfter(run, retract, before, after, e.key);
    NearThreadAfter(run, retract, before, after, e.finding);
    CreatedContents(run.window, live, current, |current|, e.finding);
    forall c | c in Created(run.window, live, current[..i]) ensures c in plan {
      CreatedContents(run.window, live, current, i, c);
      CreatedContents(run.window, live, current, |current|, c);
    }
  }

  /** The finding whose only open neighbours are resolved is left out by the first run and found by the second. */
  lemma Orphan(run: Run, retract: set<Key>, before: seq<Thread>, after: seq<Thread>, e: Entry)
    requires Follows(run, retract, before, after) && Keyed(run, Current(run, retract, before))
      && e in Current(run, retract, before)
    requires !HasThread(LiveThreads(run, retract, before), e.key)
    requires NearThread(run.window, LiveThreads(run, retract, before), e.finding)
    requires !NearSurvivor(run, LiveThreads(run, retract, before), Current(run, retract, before), e.finding)
    requires !NearPosted(run, Plan(run, retract, before), e.finding)
    ensures Plan(run, {}, after) != []
  {
    var live, live', current, plan := LiveThreads(run, retract, before), LiveThreads(run, {}, after),
      Current(run, retract, before), Plan(run, retract, before);
    FollowsKeepsCurrent(run, retract, before, after);
    assert current[..|current|] == current;
    var i :| 0 <= i < |current| && current[i] == e;
    forall c | c in plan ensures run.keyOf(c) != e.key {
      var j := PlannedEntry(run, live, current, c);
      assert current[j] in current;
    }
    HasThreadAfter(run, retract, before, after, e.key);
    NearThreadAfter(run, retract, before, after, e.finding);
    if Created(run.window, live', current) == [] {
      CreatedContents(run.window, live', current, |current|, e.finding);
      forall c ensures c !in Created(run.window, live', current[..i]) {
        CreatedContents(run.window, live', current, i, c);
        CreatedContents(run.window, live', current, |current|, c);
      }
    }
  }

  function Reworded(): Finding {
    Finding(High, "a.ts", Some(10), "Reworded", "detail", "review")
  }

  function RewordedRun(): Run {
    Run((f: Finding) => "new", [Reworded()], {}, 3, (f: Finding) => true)
  }

  function OldThread(resolved: bool): Thread {
    Thread("old", Some("review"), Some("a.ts"), Some(10), resolved, resolved, false, false, false)
  }

  lemma RewordedPlan(resolved: bool)
    ensures var t := OldThread(resolved);
      && Current(RewordedRun(), {}, [t]) == [Entry("new", Reworded())]
      && LiveThreads(RewordedRun(), {}, [t]) == [t]
      && Plan(RewordedRun(), {}, [t]) == if resolved then [Reworded()] else []
  {
    var run, t, f := RewordedRun(), OldThread(resolved), Reworded();
    var current := [Entry("new", f)];
    assert LiveFindings(run, {}, [t], []) == [] && LiveFindings(run, {}, [t], [f]) == [f];
    assert FindingMap(run.keyOf, []) == [] && FindingMap(run.keyOf, [f]) == current;
    assert LiveThreads(run, {}, []) == [];
    assert Created(3, [t], []) == [];
    assert Nearby(3, f.file, f.line, t.path, t.line);
    assert NearThread(3, [t], f) <==> !resolved;
  }

  /** A reworded finding beside its old thread: the first run only resolves the thread, and the
      comment appears with the second. */
  lemma {:induction false} OneRunIsNotEnough()
    ensures var run, t0, t1 := RewordedRun(), [OldThread(false)], [OldThread(true)];
      After(run, {}, t0) == t1 && Plan(run, {}, t0) == [] && Plan(run, {}, t1) == [Reworded()]
  {
    FollowsExactly(RewordedRun(), {}, [OldThread(false)], [OldThread(true)]);
    RewordedPlan(false);
    RewordedPlan(true);
    RewordedSettled([Entry("new", Reworded())]);
    FollowsByClosing(RewordedRun(), OldThread(false));
  }

  lemma FollowsByClosing(run: Run, t: Thread)
    requires Plan(run, {}, [t]) == []
    ensures Follows(run, {}, [t], [Settled(run, {}, Current(run, {}, [t]), t)])
  {
    assert News(run, []) == [];
  }

  lemma RewordedSettled(current: seq<Entry>)
    requires current == [Entry("new", Reworded())]
    ensures Settled(RewordedRun(), {}, current, OldThread(false)) == OldThread(true)
  {
  }
}
