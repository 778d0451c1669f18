/** `GitHubSink.emit` of `tools/review/src/github.ts`, as far as it changes review threads, and what
    repeated runs over the same findings come to.

    A thread is known by the key in its root comment.  Calls to the GitHub API succeed, except that
    a comment can be refused for a line outside the diff (`postable`).  */
module ReviewSink {
  import opened Options
  import opened Findings
  import opened ReviewThreads

  // ---------------------------------------------------------------------------
  // emit: which threads and findings take part
  // ---------------------------------------------------------------------------

  /** Resolved, and not by our own closing reply. */
  predicate HumanResolved(t: Thread) {
    t.resolved && !t.closedByUs
  }

  /** `isDismissed` */
  predicate Dismissed(t: Thread, stillReported: bool) {
    t.dismissReply || (HumanResolved(t) && stillReported)
  }

  predicate DismissedIn(run: Run, t: Thread) {
    Dismissed(t, Reported(run.keyOf, run.findings, t.key))
  }

  /** Withdrawn now or earlier, or waved off by a person. */
  predicate Excluded(run: Run, retract: set<Key>, t: Thread) {
    t.retracted || t.key in retract || DismissedIn(run, t)
  }

  predicate ExcludedKey(run: Run, retract: set<Key>, threads: seq<Thread>, k: Key) {
    exists t :: t in threads && t.key == k && Excluded(run, retract, t)
  }

  function LiveThreads(run: Run, retract: set<Key>, threads: seq<Thread>): seq<Thread> {
    if threads == [] then []
    else
      var last := threads[|threads| - 1];
      LiveThreads(run, retract, threads[..|threads| - 1]) + if Excluded(run, retract, last) then [] else [last]
  }

  function LiveFindings(run: Run, retract: set<Key>, threads: seq<Thread>, findings: seq<Finding>): seq<Finding> {
    if findings == [] then []
    else
      var last := findings[|findings| - 1];
      LiveFindings(run, retract, threads, findings[..|findings| - 1])
      + if ExcludedKey(run, retract, threads, run.keyOf(last)) then [] else [last]
  }

  /** The findings planned for, by key. */
  function Current(run: Run, retract: set<Key>, threads: seq<Thread>): seq<Entry> {
    FindingMap(run.keyOf, LiveFindings(run, retract, threads, run.findings))
  }

  lemma {:induction false} LiveThreadsContents(run: Run, retract: set<Key>, threads: seq<Thread>)
    ensures forall t :: t in LiveThreads(run, retract, threads) <==> t in threads && !Excluded(run, retract, t)
  {
    if threads != [] {
      LiveThreadsContents(run, retract, threads[..|threads| - 1]);
      assert threads == threads[..|threads| - 1] + [threads[|threads| - 1]];
    }
  }

  lemma {:induction false} LiveThreadsUnique(run: Run, retract: set<Key>, threads: seq<Thread>)
    requires UniqueKeys(threads)
    ensures UniqueKeys(LiveThreads(run, retract, threads))
  {
    if threads != [] {
      var rest, last := threads[..|threads| - 1], threads[|threads| - 1];
      LiveThreadsUnique(run, retract, rest);
      LiveThreadsContents(run, retract, rest);
      assert forall t :: t in rest ==> t.key != last.key;
    }
  }

  // ---------------------------------------------------------------------------
  // emit: what becomes of each thread
  // ---------------------------------------------------------------------------

  function Withdrawn(t: Thread): Thread {
    t.(retracted := true, resolved := true)
  }

  function Acknowledged(t: Thread): Thread {
    if !t.acked && (!t.resolved || t.dismissReply) then t.(acked := true, resolved := true) else t
  }

  function Closed(t: Thread): Thread {
    t.(resolved := true, closedByUs := true)
  }

  function Reopened(t: Thread): Thread {
    t.(resolved := false)
  }

  function Settled(run: Run, retract: set<Key>, current: seq<Entry>, t: Thread): Thread {
    if t.key in retract && !t.retracted then Withdrawn(t)
    else if DismissedIn(run, t) then Acknowledged(t)
    else if t.retracted then t
    else if Resolves(run.failed, current, t) then Closed(t)
    else if Reopens(current, t) then Reopened(t)
    else t
  }

  function NewThread(run: Run, f: Finding): Thread {
    Thread(run.keyOf(f), Some(f.pass), Some(f.file), f.line, false, false, false, false, false)
  }

  predicate Posts(run: Run, f: Finding) {
    f.line.Some? && run.postable(f)
  }

  /** What a run makes of a thread, by what happened to it and whether its key is reported.  A withdrawn
      thread is retracted and resolved.  A dismissed one - a person said so, or resolved it while it is
      still reported - is acknowledged and not left open, unless it was acknowledged before.  One that was
      withdrawn earlier is left alone.  A reported one is open afterwards; one no longer reported is closed
      by us unless a pass that could have reported it failed. */
  lemma {:induction false} ThreadOutcome(run: Run, retract: set<Key>, threads: seq<Thread>, t: Thread)
    requires UniqueKeys(threads) && t in threads
    ensures var s := Settled(run, retract, Current(run, retract, threads), t);
      var reported := exists f :: f in run.findings && run.keyOf(f) == t.key;
      var dismissed := t.dismissReply || (t.resolved && !t.closedByUs && reported);
      var silent := (t.pass.None? && run.failed != {}) || (t.pass.Some? && t.pass.value in run.failed);
      && s.key == t.key && s.pass == t.pass && s.path == t.path && s.line == t.line && s.dismissReply == t.dismissReply
      && if t.key in retract && !t.retracted then s == t.(retracted := true, resolved := true)
         else if dismissed then
           if t.acked || (t.resolved && !t.dismissReply) then s == t else s == t.(acked := true, resolved := true)
         else if t.retracted then s == t
         else if reported then s == t.(resolved := false)
         else if t.resolved || silent then s == t
         else s == t.(resolved := true, closedByUs := true)
  {
    var current := Current(run, retract, threads);
    FindingMapKeys(run.keyOf, LiveFindings(run, retract, threads, run.findings), t.key);
    LiveFindingsContents(run, retract, threads, run.findings);
    if !Excluded(run, retract, t) {
      OnlyThread(threads, t);
      assert !ExcludedKey(run, retract, threads, t.key);
    }
  }

  /** What the plan is made of: the findings whose key no thread stops - none that is or was withdrawn, has a
      person's dismissal, or was resolved by anyone but us - and the threads that are not stopped so
      themselves, where a person's resolving counts only while the thread's key is reported. */
  lemma {:induction false} TakesPartExactly(run: Run, retract: set<Key>, threads: seq<Thread>, f: Finding, t: Thread)
    ensures f in LiveFindings(run, retract, threads, run.findings) <==>
      f in run.findings && forall u :: u in threads && u.key == run.keyOf(f) ==>
        !u.retracted && u.key !in retract && !u.dismissReply && (u.resolved ==> u.closedByUs)
    ensures t in LiveThreads(run, retract, threads) <==>
      && t in threads && !t.retracted && t.key !in retract && !t.dismissReply
      && (t.resolved && !t.closedByUs ==> forall g :: g in run.findings ==> run.keyOf(g) != t.key)
  {
    LiveFindingsContents(run, retract, threads, run.findings);
    LiveThreadsContents(run, retract, threads);
    assert Reported(run.keyOf, run.findings, t.key) <==> !forall g :: g in run.findings ==> run.keyOf(g) != t.key;
    if f in run.findings {
      assert Reported(run.keyOf, run.findings, run.keyOf(f));
    }
  }

  /** The threads opened for the findings whose comment goes through. */
  function News(run: Run, created: seq<Finding>): seq<Thread> {
    if created == [] then []
    else
      var last := created[|created| - 1];
      News(run, created[..|created| - 1]) + if Posts(run, last) then [NewThread(run, last)] else []
  }

  /** One run of `emit`, from one thread list to the next. */
  ghost predicate Follows(run: Run, retract: set<Key>, before: seq<Thread>, after: seq<Thread>) {
    var current := Current(run, retract, before);
    var news := News(run, Created(run.window, LiveThreads(run, retract, before), current));
    && |after| == |before| + |news|
    && (forall i :: 0 <= i < |before| ==> after[i] == Settled(run, retract, current, before[i]))
    && after[|before|..] == news
  }

  function SettleAll(run: Run, retract: set<Key>, current: seq<Entry>, threads: seq<Thread>): seq<Thread> {
    if threads == [] then []
    else
      var last := threads[|threads| - 1];
      SettleAll(run, retract, current, threads[..|threads| - 1]) + [Settled(run, retract, current, last)]
  }

  /** The thread list after one run. */
  function After(run: Run, retract: set<Key>, threads: seq<Thread>): seq<Thread> {
    var current := Current(run, retract, threads);
    SettleAll(run, retract, current, threads)
      + News(run, Created(run.window, LiveThreads(run, retract, threads), current))
  }

  lemma {:induction false} SettleAllPointwise(run: Run, retract: set<Key>, current: seq<Entry>, threads: seq<Thread>)
    ensures |SettleAll(run, retract, current, threads)| == |threads|
    ensures forall i :: 0 <= i < |threads| ==>
      SettleAll(run, retract, current, threads)[i] == Settled(run, retract, current, threads[i])
  {
    if threads != [] {
      SettleAllPointwise(run, retract, current, threads[..|threads| - 1]);
    }
  }

  /** `Follows` says of each thread what `After` computes. */
  lemma {:induction false} FollowsExactly(run: Run, retract: set<Key>, before: seq<Thread>, after: seq<Thread>)
    ensures Follows(run, retract, before, after) <==> after == After(run, retract, before)
  {
    SettleAllPointwise(run, retract, Current(run, retract, before), before);
    if Follows(run, retract, before, after) {
      assert after == after[..|before|] + after[|before|..];
      assert after[..|before|] == SettleAll(run, retract, Current(run, retract, before), before);
    }
  }

  lemma {:induction false} NewsContents(run: Run, created: seq<Finding>, t: Thread)
    ensures t in News(run, created) <==> exists f :: f in created && Posts(run, f) && t == NewThread(run, f)
  {
    if created != [] {
      var rest, last := created[..|created| - 1], created[|created| - 1];
      NewsContents(run, rest, t);
      assert created == rest + [last];
    }
  }

  /** A fresh thread for each planned finding with a line the host accepts, and no other. */
  lemma {:induction false} NewThreads(run: Run, created: seq<Finding>, t: Thread)
    ensures t in News(run, created) <==>
      && !t.resolved && !t.closedByUs && !t.dismissReply && !t.acked && !t.retracted
      && exists f :: f in created && f.line.Some? && run.postable(f)
           && t.key == run.keyOf(f) && t.pass == Some(f.pass) && t.path == Some(f.file) && t.line == f.line
  {
    NewsContents(run, created, t);
    if f :| f in created && Posts(run, f) && t == NewThread(run, f) {
      assert f.line.Some? && t.key == run.keyOf(f);
    }
    if !t.resolved && !t.closedByUs && !t.dismissReply && !t.acked && !t.retracted {
      forall f | f in created && f.line.Some? && run.postable(f) && t.key == run.keyOf(f)
        && t.pass == Some(f.pass) && t.path == Some(f.file) && t.line == f.line
        ensures t == NewThread(run, f) && Posts(run, f)
      {
      }
    }
  }

  lemma NewsAreLive(run: Run, created: seq<Finding>, retract: set<Key>, t: Thread)
    requires t in News(run, created) && t.key !in retract
    ensures !Excluded(run, retract, t) && !t.resolved
  {
    NewsContents(run, created, t);
  }

  // ---------------------------------------------------------------------------
  // A run leaves the excluded threads excluded and the reported findings the same
  // ---------------------------------------------------------------------------

  lemma SettledStaysExcluded(run: Run, retract: set<Key>, current: seq<Entry>, t: Thread)
    ensures Excluded(run, {}, Settled(run, retract, current, t)) <==> Excluded(run, retract, t)
    requires HasKey(current, t.key) ==> Reported(run.keyOf, run.findings, t.key)
  {
  }

  lemma {:induction false} SettledOnce(run: Run, current: seq<Entry>, t: Thread)
    requires HasKey(current, t.key) ==> !Excluded(run, {}, t)
    ensures var s := Settled(run, {}, current, t); Settled(run, {}, current, s) == s
  {
  }

  /** No live thread is left for the next plan to resolve or reopen. */
  lemma SettledIsQuiet(run: Run, retract: set<Key>, current: seq<Entry>, t: Thread)
    requires !Excluded(run, retract, t)
    ensures var s := Settled(run, retract, current, t); !Resolves(run.failed, current, s) && !Reopens(current, s)
  {
  }

  lemma {:induction false} LiveFindingsContents(run: Run, retract: set<Key>, threads: seq<Thread>,
      findings: seq<Finding>)
    ensures forall f :: f in LiveFindings(run, retract, threads, findings) <==>
      f in findings && !ExcludedKey(run, retract, threads, run.keyOf(f))
  {
    if findings != [] {
      LiveFindingsContents(run, retract, threads, findings[..|findings| - 1]);
      assert findings == findings[..|findings| - 1] + [findings[|findings| - 1]];
    }
  }

  lemma CurrentKeys(run: Run, retract: set<Key>, threads: seq<Thread>, k: Key)
    ensures HasKey(Current(run, retract, threads), k) <==>
      Reported(run.keyOf, run.findings, k) && !ExcludedKey(run, retract, threads, k)
  {
    var live := LiveFindings(run, retract, threads, run.findings);
    FindingMapKeys(run.keyOf, live, k);
    LiveFindingsContents(run, retract, threads, run.findings);
    if f :| f in run.findings && run.keyOf(f) == k && !ExcludedKey(run, retract, threads, k) {
      assert f in live;
    }
  }

  lemma ExclusionStays(run: Run, retract: set<Key>, before: seq<Thread>, after: seq<Thread>, i: nat)
    requires Follows(run, retract, before, after) && i < |before|
    ensures after[i].key == before[i].key && (Excluded(run, {}, after[i]) <==> Excluded(run, retract, before[i]))
  {
    CurrentKeys(run, retract, before, before[i].key);
    SettledStaysExcluded(run, retract, Current(run, retract, before), before[i]);
  }

  /** A thread excluded after the run was there before, and excluded. */
  lemma ExcludedIsOld(run: Run, retract: set<Key>, before: seq<Thread>, after: seq<Thread>, k: Key)
    requires Follows(run, retract, before, after) && ExcludedKey(run, {}, after, k)
    ensures ExcludedKey(run, retract, before, k)
  {
    var t :| t in after && t.key == k && Excluded(run, {}, t);
    var i :| 0 <= i < |after| && after[i] == t;
    if i < |before| {
      ExclusionStays(run, retract, before, after, i);
      assert before[i] in before;
    } else {
      assert t == after[|before|..][i - |before|];
      NewsAreLive(run, Created(run.window, LiveThreads(run, retract, before), Current(run, retract, before)), {}, t);
    }
  }

  lemma FollowsKeepsExcluded(run: Run, retract: set<Key>, before: seq<Thread>, after: seq<Thread>, k: Key)
    requires Follows(run, retract, before, after)
    ensures ExcludedKey(run, {}, after, k) <==> ExcludedKey(run, retract, before, k)
  {
    if t :| t in before && t.key == k && Excluded(run, retract, t) {
      var i :| 0 <= i < |before| && before[i] == t;
      ExclusionStays(run, retract, before, after, i);
      assert after[i] in after;
    }
    if ExcludedKey(run, {}, after, k) {
      ExcludedIsOld(run, retract, before, after, k);
    }
  }

  lemma {:induction false} SameExclusionsSameFindings(run: Run, retract: set<Key>, before: seq<Thread>,
      retract': set<Key>, after: seq<Thread>, findings: seq<Finding>)
    requires forall k :: ExcludedKey(run, retract, before, k) <==> ExcludedKey(run, retract', after, k)
    ensures LiveFindings(run, retract, before, findings) == LiveFindings(run, retract', after, findings)
  {
    if findings != [] {
      SameExclusionsSameFindings(run, retract, before, retract', after, findings[..|findings| - 1]);
    }
  }

  /** The next run on the same findings plans for the same ones. */
  lemma {:induction false} FollowsKeepsCurrent(run: Run, retract: set<Key>, before: seq<Thread>, after: seq<Thread>)
    requires Follows(run, retract, before, after)
    ensures Current(run, {}, after) == Current(run, retract, before)
  {
    forall k ensures ExcludedKey(run, {}, after, k) <==> ExcludedKey(run, retract, before, k) {
      FollowsKeepsExcluded(run, retract, before, after, k);
    }
    SameExclusionsSameFindings(run, retract, before, {}, after, run.findings);
  }
}
