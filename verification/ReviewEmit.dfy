/** The imperative side of `GitHubSink.emit` in `tools/review/src/github.ts`: the review threads of one
    pull request, changed call by call. */
module ReviewEmit {
  import opened Findings
  import opened ReviewThreads
  import opened ReviewSink
  import opened ReviewRuns

  class PullRequest {
    var threads: seq<Thread>

    ghost predicate Valid()
      reads this
    {
      UniqueKeys(threads)
    }

    constructor ()
      ensures Valid() && threads == []
    {
      threads := [];
    }

    method Withdraw(retract: set<Key>)
      modifies this
      ensures |threads| == |old(threads)|
      ensures forall i :: 0 <= i < |threads| ==>
        var t := old(threads)[i]; threads[i] == if t.key in retract && !t.retracted then Withdrawn(t) else t
    {
      var snapshot := threads;
      for i := 0 to |snapshot|
        invariant |threads| == |snapshot|
        invariant forall j :: i <= j < |threads| ==> threads[j] == snapshot[j]
        invariant forall j :: 0 <= j < i ==>
          var t := snapshot[j]; threads[j] == if t.key in retract && !t.retracted then Withdrawn(t) else t
      {
        if snapshot[i].key in retract && !snapshot[i].retracted {
          threads := threads[i := Withdrawn(snapshot[i])];
        }
      }
    }

    /** Replies to each thread a person waved off, unless it was withdrawn just now. */
    method Acknowledge(run: Run, retract: set<Key>, snapshot: seq<Thread>)
      requires |threads| == |snapshot|
      modifies this
      ensures |threads| == |snapshot|
      ensures forall i :: 0 <= i < |threads| ==>
        var t := snapshot[i];
        threads[i] == if !(t.key in retract && !t.retracted) && DismissedIn(run, t) then Acknowledged(t)
          else old(threads)[i]
    {
      for i := 0 to |snapshot|
        invariant |threads| == |snapshot|
        invariant forall j :: i <= j < |threads| ==> threads[j] == old(threads)[j]
        invariant forall j :: 0 <= j < i ==>
          var t := snapshot[j];
          threads[j] == if !(t.key in retract && !t.retracted) && DismissedIn(run, t) then Acknowledged(t)
            else old(threads)[j]
      {
        var t := snapshot[i];
        if !(t.key in retract && !t.retracted) && DismissedIn(run, t) {
          threads := threads[i := Acknowledged(t)];
        }
      }
    }

    method Post(run: Run, toCreate: seq<Finding>)
      modifies this
      ensures threads == old(threads) + News(run, toCreate)
    {
      for i := 0 to |toCreate|
        invariant threads == old(threads) + News(run, toCreate[..i])
      {
        assert toCreate[..i + 1][..i] == toCreate[..i];
        if Posts(run, toCreate[i]) {
          threads := threads + [NewThread(run, toCreate[i])];
        }
      }
      assert toCreate[..|toCreate|] == toCreate;
    }

    /** One `setResolved` call with its reply. */
    method SetThread(t: Thread)
      requires Valid()
      modifies this
      ensures |threads| == |old(threads)|
      ensures forall i :: 0 <= i < |threads| ==>
        threads[i] == if old(threads)[i].key == t.key then t else old(threads)[i]
      ensures Valid()
    {
      for i := 0 to |threads|
        invariant threads == old(threads)
        invariant forall j :: 0 <= j < i ==> threads[j].key != t.key
      {
        if threads[i].key == t.key {
          threads := threads[i := t];
          return;
        }
      }
    }

    method CloseAll(list: seq<Thread>)
      requires Valid() && forall t :: t in list ==> t in threads
      modifies this
      ensures Valid() && |threads| == |old(threads)|
      ensures forall i :: 0 <= i < |threads| ==> var t := old(threads)[i];
        threads[i] == if t in list then Closed(t) else t
    {
      for n := 0 to |list|
        invariant Valid() && |threads| == |old(threads)|
        invariant forall i :: 0 <= i < |threads| ==>
          var t := old(threads)[i]; threads[i] == if t in list[..n] then Closed(t) else t
      {
        assert list[n] in list;
        SetThread(Closed(list[n]));
        assert list[..n + 1] == list[..n] + [list[n]];
      }
      assert list[..|list|] == list;
    }

    method ReopenAll(list: seq<Thread>)
      requires Valid() && forall t :: t in list ==> t in threads
      modifies this
      ensures Valid() && |threads| == |old(threads)|
      ensures forall i :: 0 <= i < |threads| ==> var t := old(threads)[i];
        threads[i] == if t in list then Reopened(t) else t
    {
      for n := 0 to |list|
        invariant Valid() && |threads| == |old(threads)|
        invariant forall i :: 0 <= i < |threads| ==>
          var t := old(threads)[i]; threads[i] == if t in list[..n] then Reopened(t) else t
      {
        assert list[n] in list;
        SetThread(Reopened(list[n]));
        assert list[..n + 1] == list[..n] + [list[n]];
      }
      assert list[..|list|] == list;
    }

    /** `emit`: withdraw, acknowledge, plan, post, resolve, reopen. */
    method Emit(run: Run, retract: set<Key>) returns (plan: ActionPlan)
      requires Valid()
      modifies this
      ensures threads == After(run, retract, old(threads)) && Valid()
      ensures plan.toCreate == Plan(run, retract, old(threads))
      ensures Planned(run, retract, old(threads), plan)
    {
      var snapshot := threads;
      Withdraw(retract);
      Acknowledge(run, retract, snapshot);
      LiveThreadsUnique(run, retract, snapshot);
      LiveThreadsContents(run, retract, snapshot);
      plan := PlanActions(run, LiveFindings(run, retract, snapshot, run.findings), LiveThreads(run, retract, snapshot));
      ghost var acked := threads;
      Post(run, plan.toCreate);
      PostedUnique(run, retract, snapshot, acked);
      forall t | t in plan.toResolve || t in plan.toReopen ensures t in threads {
        StillThere(run, retract, snapshot, acked, t);
      }
      ghost var base := threads;
      CloseAll(plan.toResolve);
      forall t | t in plan.toReopen ensures t in threads {
        var i :| 0 <= i < |base| && base[i] == t;
        assert threads[i] == t;
      }
      ghost var closed := threads;
      ReopenAll(plan.toReopen);
      Assembled(run, retract, snapshot, acked, closed, threads, plan);
    }
  }

  /** The plan names live threads only, by what is to become of them. */
  ghost predicate Planned(run: Run, retract: set<Key>, snapshot: seq<Thread>, plan: ActionPlan) {
    && (forall t :: t in plan.toResolve <==>
      t in snapshot && !Excluded(run, retract, t) && Resolves(run.failed, Current(run, retract, snapshot), t))
    && (forall t :: t in plan.toReopen <==>
      t in snapshot && !Excluded(run, retract, t) && Reopens(Current(run, retract, snapshot), t))
  }

  /** What withdrawal and acknowledgement make of a thread. */
  function Acked(run: Run, retract: set<Key>, t: Thread): Thread {
    if t.key in retract && !t.retracted then Withdrawn(t)
    else if DismissedIn(run, t) then Acknowledged(t)
    else t
  }

  lemma StillThere(run: Run, retract: set<Key>, snapshot: seq<Thread>, acked: seq<Thread>, t: Thread)
    requires t in snapshot && !Excluded(run, retract, t)
    requires |acked| >= |snapshot| && forall i :: 0 <= i < |snapshot| ==> acked[i] == Acked(run, retract, snapshot[i])
    ensures t in acked
  {
    var i :| 0 <= i < |snapshot| && snapshot[i] == t;
    assert acked[i] == t;
  }

  lemma SettledStepwise(run: Run, retract: set<Key>, snapshot: seq<Thread>, i: nat, acked: Thread, plan: ActionPlan)
    requires UniqueKeys(snapshot) && Planned(run, retract, snapshot, plan)
    requires i < |snapshot| && acked == Acked(run, retract, snapshot[i])
    ensures var closed := if acked in plan.toResolve then Closed(acked) else acked;
      Settled(run, retract, Current(run, retract, snapshot), snapshot[i]) ==
        if closed in plan.toReopen then Reopened(closed) else closed
  {
    var t := snapshot[i];
    assert t in snapshot;
    OnlyThread(snapshot, t);
    assert forall u :: u in plan.toResolve && u.key == t.key ==> u == t;
    assert forall u :: u in plan.toReopen && u.key == t.key ==> u == t;
  }

  /** The stages of `emit`, one after the other, come to one step of the thread list. */
  lemma Assembled(run: Run, retract: set<Key>, snapshot: seq<Thread>, acked: seq<Thread>, closed: seq<Thread>,
      final: seq<Thread>, plan: ActionPlan)
    requires UniqueKeys(snapshot) && Planned(run, retract, snapshot, plan)
    requires |acked| == |snapshot| && forall i :: 0 <= i < |snapshot| ==> acked[i] == Acked(run, retract, snapshot[i])
    requires var base := acked + News(run, Plan(run, retract, snapshot));
      && |closed| == |final| == |base|
      && (forall i :: 0 <= i < |base| ==> closed[i] == if base[i] in plan.toResolve then Closed(base[i]) else base[i])
      && (forall i :: 0 <= i < |base| ==>
        final[i] == if closed[i] in plan.toReopen then Reopened(closed[i]) else closed[i])
    ensures final == After(run, retract, snapshot)
  {
    var news := News(run, Plan(run, retract, snapshot));
    forall i | 0 <= i < |snapshot|
      ensures final[i] == Settled(run, retract, Current(run, retract, snapshot), snapshot[i])
    {
      SettledStepwise(run, retract, snapshot, i, acked[i], plan);
    }
    forall i | 0 <= i < |news| ensures final[|snapshot| + i] == news[i] {
      NewsUntouched(run, retract, snapshot, plan, news[i]);
    }
    assert final[|snapshot|..] == news;
    FollowsExactly(run, retract, snapshot, final);
  }

  lemma NewsUntouched(run: Run, retract: set<Key>, snapshot: seq<Thread>, plan: ActionPlan, t: Thread)
    requires Planned(run, retract, snapshot, plan) && t in News(run, Plan(run, retract, snapshot))
    ensures t !in plan.toResolve && t !in plan.toReopen
  {
    NewKeysAreNew(run, retract, snapshot, t);
  }

  lemma PostedUnique(run: Run, retract: set<Key>, snapshot: seq<Thread>, acked: seq<Thread>)
    requires UniqueKeys(snapshot) && |acked| == |snapshot| && forall i :: 0 <= i < |snapshot| ==>
      acked[i].key == snapshot[i].key
    ensures UniqueKeys(acked + News(run, Plan(run, retract, snapshot)))
  {
    var current := Current(run, retract, snapshot);
    CurrentIsKeyed(run, retract, snapshot);
    NewsUnique(run, LiveThreads(run, retract, snapshot), current, |current|);
    assert current[..|current|] == current;
    forall t | t in News(run, Plan(run, retract, snapshot)) ensures !HasThread(snapshot, t.key) {
      NewKeysAreNew(run, retract, snapshot, t);
    }
    UniqueJoin(snapshot, acked, News(run, Plan(run, retract, snapshot)));
  }
}
