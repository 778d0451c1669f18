/** `AsyncQueue` of `apps/api/src/retrieval/agentic-qa.service.ts`: a producer pushes and closes, one
    reader iterates, and the two interleave at every `await`.  */
module AsyncQueues {
  import opened Options

  /** Where the reader's generator stands: about to look, awaiting a promise, its promise settled
      (`None` is `done`), or returned. */
  datatype Reader<T> = Ready | Waiting | Woken(value: Option<T>) | Ended

  datatype State<T> = State(items: seq<T>, reader: Reader<T>, yielded: seq<T>, closed: bool)

  datatype Event<T> = Push(item: T) | Close | Resume

  function Initial<T>(): State<T> {
    State([], Ready, [], false)
  }

  function AfterPush<T>(q: State<T>, item: T): State<T> {
    if q.reader.Waiting? then q.(reader := Woken(Some(item))) else q.(items := q.items + [item])
  }

  function AfterClose<T>(q: State<T>): State<T> {
    if q.closed then q
    else q.(closed := true, reader := if q.reader.Waiting? then Woken(None) else q.reader)
  }

  /** One resumption of the generator, up to its next `yield`, `await` or return. */
  function AfterResume<T>(q: State<T>): State<T> {
    match q.reader
    case Ready =>
      if q.items != [] then q.(items := q.items[1..], yielded := q.yielded + [q.items[0]])
      else if q.closed then q.(reader := Ended)
      else q.(reader := Waiting)
    case Woken(Some(item)) => q.(reader := Ready, yielded := q.yielded + [item])
    case Woken(None) => q.(reader := Ended)
    case Waiting => q
    case Ended => q
  }

  function After<T>(q: State<T>, e: Event<T>): State<T> {
    match e
    case Push(item) => AfterPush(q, item)
    case Close => AfterClose(q)
    case Resume => AfterResume(q)
  }

  function Run<T>(events: seq<Event<T>>): State<T> {
    if events == [] then Initial() else After(Run(events[..|events| - 1]), events[|events| - 1])
  }

  /** The class itself.  Only the one reader ever waits, so `waiters` has at most one entry. */
  class AsyncQueue<T> {
    var items: seq<T>
    var waiters: seq<nat>
    var closed: bool
    var settled: map<nat, Option<T>>     // promises resolved and not yet awaited again
    var awaiting: Option<nat>            // the promise the reader is suspended on
    var ended: bool
    var yielded: seq<T>
    var nextPromise: nat

    ghost predicate Valid()
      reads this
    {
      && (awaiting.None? ==> waiters == [] && settled == map[])
      && (awaiting.Some? ==> !ended && awaiting.value < nextPromise)
      && (awaiting.Some? && waiters == [] ==> settled.Keys == {awaiting.value})
      && (awaiting.Some? && waiters != [] ==> waiters == [awaiting.value] && settled == map[])
    }

    ghost function Abstract(): State<T>
      reads this
      requires Valid()
    {
      var reader :=
        if ended then Ended
        else if awaiting.None? then Ready
        else if waiters != [] then Waiting
        else Woken(settled[awaiting.value]);
      State(items, reader, yielded, closed)
    }

    constructor ()
      ensures Valid() && Abstract() == Initial()
    {
      items, waiters, closed, settled := [], [], false, map[];
      awaiting, ended, yielded, nextPromise := None, false, [], 0;
    }

    method PushItem(item: T)
      requires Valid()
      modifies this`items, this`waiters, this`settled
      ensures Valid() && Abstract() == AfterPush(old(Abstract()), item)
    {
      if waiters != [] {
        var waiter := waiters[0];
        waiters := waiters[1..];
        settled := settled[waiter := Some(item)];
      } else {
        items := items + [item];
      }
    }

    method CloseQueue()
      requires Valid()
      modifies this`closed, this`waiters, this`settled
      ensures Valid() && Abstract() == AfterClose(old(Abstract()))
    {
      if closed {
        return;
      }
      closed := true;
      while waiters != []
        invariant Valid() && closed
        invariant waiters == [] || (waiters == old(waiters) && settled == old(settled))
        invariant waiters == [] ==> Abstract() == AfterClose(old(Abstract()))
        decreases |waiters|
      {
        settled := settled[waiters[0] := None];
        waiters := waiters[1..];
      }
    }

    /** `[Symbol.asyncIterator]`, from one suspension to the next. */
    method ResumeReader()
      requires Valid()
      modifies this
      ensures Valid() && Abstract() == AfterResume(old(Abstract()))
    {
      if ended || (awaiting.Some? && awaiting.value !in settled) {
        return;
      }
      if awaiting.Some? {
        var result := settled[awaiting.value];
        settled, awaiting := map[], None;
        match result {
          case Some(item) => yielded := yielded + [item];
          case None => ended := true;
        }
      } else if items != [] {
        yielded, items := yielded + [items[0]], items[1..];
      } else if closed {
        ended := true;
      } else {
        awaiting := Some(nextPromise);
        waiters := waiters + [nextPromise];
        nextPromise := nextPromise + 1;
      }
    }
  }

  /** Any interleaving, on the class. */
  method Interleave<T>(events: seq<Event<T>>) returns (q: AsyncQueue<T>)
    ensures q.Valid() && q.Abstract() == Run(events)
  {
    q := new AsyncQueue();
    for i := 0 to |events|
      invariant fresh(q) && q.Valid() && q.Abstract() == Run(events[..i])
    {
      assert events[..i + 1][..i] == events[..i];
      match events[i] {
        case Push(item) => q.PushItem(item);
        case Close => q.CloseQueue();
        case Resume => q.ResumeReader();
      }
    }
    assert events[..|events|] == events;
  }

  // ---------------------------------------------------------------------------
  // First in, first out
  // ---------------------------------------------------------------------------

  function Pushed<T>(events: seq<Event<T>>): seq<T> {
    if events == [] then []
    else Pushed(events[..|events| - 1]) + match events[|events| - 1] { case Push(item) => [item] case _ => [] }
  }

  predicate Closes<T(==)>(events: seq<Event<T>>) {
    Close in events
  }

  /** Nothing is pushed once the queue is closed. */
  predicate NoLatePush<T(==)>(events: seq<Event<T>>) {
    if events == [] then true
    else NoLatePush(events[..|events| - 1]) && (events[|events| - 1].Push? ==> !Closes(events[..|events| - 1]))
  }

  function InFlight<T>(q: State<T>): seq<T> {
    if q.reader.Woken? && q.reader.value.Some? then [q.reader.value.value] else []
  }

  /** Nothing lost, nothing twice, in order; a reader only waits while there is nothing to take. */
  ghost predicate Conserves<T>(q: State<T>, pushed: seq<T>) {
    && q.yielded + InFlight(q) + q.items == pushed
    && (q.reader.Waiting? ==> q.items == [] && !q.closed)
    && (q.reader.Ended? || q.reader == Woken(None) ==> q.closed && q.items == [])
  }

  lemma {:induction false} RunConserves<T>(events: seq<Event<T>>)
    requires NoLatePush(events)
    ensures Conserves(Run(events), Pushed(events)) && (Run(events).closed <==> Closes(events))
  {
    if events != [] {
      var rest, last := events[..|events| - 1], events[|events| - 1];
      RunConserves(rest);
      assert events == rest + [last];
      AfterConserves(Run(rest), Pushed(rest), last);
    }
  }

  lemma AfterConserves<T>(q: State<T>, pushed: seq<T>, e: Event<T>)
    requires Conserves(q, pushed) && (e.Push? ==> !q.closed)
    ensures Conserves(After(q, e), pushed + match e { case Push(item) => [item] case _ => [] })
  {
    var q' := After(q, e);
    match e
    case Push(item) =>
      if q.reader.Waiting? {
        assert q.yielded + [item] + [] == pushed + [item];
      } else {
        assert q.yielded + InFlight(q) + (q.items + [item]) == q.yielded + InFlight(q) + q.items + [item];
      }
    case Close =>
      assert pushed + [] == pushed;
    case Resume =>
      assert pushed + [] == pushed;
      if q.reader.Ready? && q.items != [] {
        assert q.items == [q.items[0]] + q.items[1..];
      }
  }

  /** Resuming the reader `n` times in a row. */
  function Resumed<T>(q: State<T>, n: nat): State<T>
    decreases n
  {
    if n == 0 then q else Resumed(AfterResume(q), n - 1)
  }

  /** Once the queue is closed the reader ends after at most two resumptions more than there are
      items, having yielded everything. */
  lemma {:induction false} ClosedDrains<T>(q: State<T>, pushed: seq<T>, n: nat)
    requires Conserves(q, pushed) && q.closed && n >= |q.items| + 2
    ensures Resumed(q, n).reader.Ended? && Resumed(q, n).yielded == pushed
    decreases n
  {
    var q' := AfterResume(q);
    AfterConserves(q, pushed, Resume);
    assert pushed + [] == pushed;
    if q'.reader.Ended? {
      EndedStays(q', n - 1);
      assert q'.yielded + [] + [] == pushed;
    } else if q.reader.Woken? {
      ReadyDrains(q', pushed, n - 1);
    } else {
      ReadyDrains(q', pushed, n - 1);
    }
  }

  lemma {:induction false} ReadyDrains<T>(q: State<T>, pushed: seq<T>, n: nat)
    requires Conserves(q, pushed) && q.closed && q.reader.Ready? && n >= |q.items| + 1
    ensures Resumed(q, n).reader.Ended? && Resumed(q, n).yielded == pushed
    decreases n
  {
    AfterConserves(q, pushed, Resume);
    assert pushed + [] == pushed;
    if q.items == [] {
      EndedStays(AfterResume(q), n - 1);
      assert q.yielded + [] + [] == pushed;
    } else {
      ReadyDrains(AfterResume(q), pushed, n - 1);
    }
  }

  lemma {:induction false} EndedStays<T>(q: State<T>, n: nat)
    requires q.reader.Ended?
    ensures Resumed(q, n) == q
    decreases n
  {
    if n > 0 {
      EndedStays(AfterResume(q), n - 1);
    }
  }
}
