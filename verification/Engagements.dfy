/** `withEngagement`, `shredEngagement` and `rotateEngagementKey` of `packages/db/src/engagement.ts` as
    they run, statement by statement, while nothing else touches the engagement: each is then a run
    of one process of `KeyLifecycle`, whose theorems cover what happens when they interleave.  */
module Engagements {
  import opened Options
  import opened Purge
  import opened KeyLifecycle

  // ---------------------------------------------------------------------------
  // One process, alone
  // ---------------------------------------------------------------------------

  /** What the database holds. */
  datatype Stored = Stored(row: EngagementRow, tables: seq<Table>, audit: seq<Action>)

  function Idle(s: Stored): State {
    State(s.row, {}, None, map[], s.tables, s.audit)
  }

  /** Process 0 is the only one, and holds what its state says. */
  function Alone(s: Stored, p: Proc): State {
    State(s.row, if HoldsShared(p) then {0} else {}, if HoldsExclusive(p) then Some(0) else None, map[0 := p],
      s.tables, s.audit)
  }

  predicate Live(row: EngagementRow) {
    !row.shredded && row.wrappedDek.Some?
  }

  lemma RunSnoc(c: Config, st: State, evs: seq<Event>, ev: Event)
    requires Run(c, st, evs).Some?
    ensures Run(c, st, evs + [ev]) == Next(c, Run(c, st, evs).value, ev)
  {
    assert (evs + [ev])[..|evs|] == evs;
  }

  lemma Starts(c: Config, s: Stored, p: Proc)
    requires p.SessionWaiting? || p.RotationWaiting? || p.ShredWaiting?
    ensures Run(c, Idle(s), [Start(0, p)]) == Some(Alone(s, p))
  {
    RunSnoc(c, Idle(s), [], Start(0, p));
    assert [] + [Start(0, p)] == [Start(0, p)];
  }

  lemma Locks(c: Config, s: Stored, p: Proc)
    requires p.SessionWaiting? || p.RotationWaiting? || p.ShredWaiting?
    ensures LockStep(Alone(s, p), 0) == Some(Alone(s, Locked(s, p)))
  {
    var st, q := Alone(s, p), Locked(s, p);
    assert st.procs[0 := q] == map[0 := q];
    assert {} - {0 as Pid} == {} && {} + {0 as Pid} == {0};
  }

  /** What the row lock makes of a waiting process. */
  function Locked(s: Stored, p: Proc): Proc {
    match p
    case SessionWaiting => if Live(s.row) then SessionLocked(s.row) else Ended(Refused)
    case RotationWaiting(arn) => if Live(s.row) then RotationLocked(s.row, arn) else Ended(Refused)
    case ShredWaiting => if s.row.shredded then Ended(AlreadyShredded) else ShredLocked
    case _ => p
  }

  lemma Fails(s: Stored, p: Proc)
    requires !p.Ended?
    ensures FailStep(Alone(s, p), 0) == Some(Alone(s, Ended(RolledBack)))
  {
    EndsAlone(s, p, RolledBack);
  }

  lemma EndsAlone(s: Stored, p: Proc, outcome: Outcome)
    ensures End(Alone(s, p), 0, outcome) == Alone(s, Ended(outcome))
  {
    assert Alone(s, p).procs[0 := Ended(outcome)] == map[0 := Ended(outcome)];
    assert {0 as Pid} - {0} == {} && {} - {0 as Pid} == {};
  }

  lemma Unwraps(c: Config, s: Stored)
    ensures UnwrapStep(c, Alone(s, SessionLocked(s.row)), 0) ==
      Some(Alone(s, match Opens(c, s.row) case None => Ended(RolledBack) case Some(dek) => SessionRunning(dek, [])))
  {
    var p := SessionLocked(s.row);
    if Opens(c, s.row).None? {
      EndsAlone(s, p, RolledBack);
    } else {
      var q := SessionRunning(Opens(c, s.row).value, []);
      assert Alone(s, p).procs[0 := q] == map[0 := q];
    }
  }

  lemma Puts(c: Config, s: Stored, dek: Dek, writes: seq<Write>, w: Write)
    requires w.row.engagement == c.engagement && SealedUnder(dek, w.row)
    ensures PutStep(c, Alone(s, SessionRunning(dek, writes)), 0, w) == Some(Alone(s, SessionRunning(dek, writes + [w])))
  {
    var p, q := SessionRunning(dek, writes), SessionRunning(dek, writes + [w]);
    assert Alone(s, p).procs[0 := q] == map[0 := q];
  }

  lemma Rewraps(c: Config, s: Stored, newArn: Option<Arn>)
    ensures RewrapStep(c, Alone(s, RotationLocked(s.row, newArn)), 0) ==
      Some(Alone(s, match Opens(c, s.row)
        case None => Ended(RolledBack)
        case Some(dek) => RotationReady(c.kms.wrap(KeyOf(c, newArn), dek), newArn)))
  {
    var p := RotationLocked(s.row, newArn);
    if Opens(c, s.row).None? {
      EndsAlone(s, p, RolledBack);
    } else {
      var q := RotationReady(c.kms.wrap(KeyOf(c, newArn), Opens(c, s.row).value), newArn);
      assert Alone(s, p).procs[0 := q] == map[0 := q];
    }
  }

  lemma SessionCommits(c: Config, s: Stored, dek: Dek, writes: seq<Write>)
    ensures CommitStep(c, Alone(s, SessionRunning(dek, writes)), 0) ==
      Some(Alone(s.(tables := PlaceAll(c.engagement, s.tables, writes)), Ended(Committed)))
  {
    EndsAlone(s.(tables := PlaceAll(c.engagement, s.tables, writes)), SessionRunning(dek, writes), Committed);
  }

  lemma RotationCommits(c: Config, s: Stored, blob: Blob, newArn: Option<Arn>)
    ensures CommitStep(c, Alone(s, RotationReady(blob, newArn)), 0) ==
      Some(Alone(s.(row := s.row.(wrappedDek := Some(blob), byokKeyArn := newArn),
        audit := s.audit + [ByokKeyRotated]), Ended(DidRotate)))
  {
    EndsAlone(s.(row := s.row.(wrappedDek := Some(blob), byokKeyArn := newArn), audit := s.audit + [ByokKeyRotated]),
      RotationReady(blob, newArn), DidRotate);
  }

  lemma ShredCommits(c: Config, s: Stored)
    ensures CommitStep(c, Alone(s, ShredLocked), 0) ==
      Some(Alone(s.(row := EngagementRow(true, None, None), audit := s.audit + [CryptoShred]), Ended(DidShred)))
  {
    EndsAlone(s.(row := EngagementRow(true, None, None), audit := s.audit + [CryptoShred]), ShredLocked, DidShred);
  }

  lemma {:induction false} PutsAll(c: Config, s: Stored, dek: Dek, writes: seq<Write>, evs: seq<Event>)
    returns (evs': seq<Event>)
    requires Run(c, Idle(s), evs) == Some(Alone(s, SessionRunning(dek, [])))
    requires forall i :: 0 <= i < |writes| ==>
      writes[i].row.engagement == c.engagement && SealedUnder(dek, writes[i].row)
    ensures Run(c, Idle(s), evs') == Some(Alone(s, SessionRunning(dek, writes)))
  {
    if writes == [] {
      evs' := evs;
    } else {
      var init, w := writes[..|writes| - 1], writes[|writes| - 1];
      var before := PutsAll(c, s, dek, init, evs);
      RunSnoc(c, Idle(s), before, Put(0, w));
      Puts(c, s, dek, init, w);
      assert init + [w] == writes && 0 <= |writes| - 1 < |writes|;
      evs' := before + [Put(0, w)];
    }
  }

  // ---------------------------------------------------------------------------
  // The functions
  // ---------------------------------------------------------------------------

  /** What code inside a session asks for: rows to write, or `None` when it throws. */
  type Body = Dek -> Option<seq<Write>>

  /** It can only encrypt under the session's key. */
  ghost predicate UsesCipher(c: Config, body: Body) {
    forall dek, i: nat :: body(dek).Some? && i < |body(dek).value| ==>
      body(dek).value[i].row.engagement == c.engagement && SealedUnder(dek, body(dek).value[i].row)
  }

  class EngagementDb {
    const c: Config
    var row: EngagementRow
    var tables: seq<Table>
    var audit: seq<Action>

    constructor (c: Config, row: EngagementRow, tables: seq<Table>)
      ensures this.c == c && this.row == row && this.tables == tables && audit == []
    {
      this.c, this.row, this.tables, audit := c, row, tables, [];
    }

    ghost function Contents(): Stored
      reads this
    {
      Stored(row, tables, audit)
    }

    /** `withEngagement` */
    method WithEngagement(body: Body, kmsAnswers: bool) returns (outcome: Outcome, ghost evs: seq<Event>)
      requires UsesCipher(c, body)
      modifies this`tables
      ensures Run(c, Idle(old(Contents())), evs) == Some(Alone(Contents(), Ended(outcome)))
      ensures outcome ==
        if !Live(row) then Refused
        else if kmsAnswers && Answer(c, row).Some? && body(Answer(c, row).value).Some? then Committed
        else RolledBack
      ensures tables == if outcome == Committed
        then PlaceAll(c.engagement, old(tables), body(Answer(c, row).value).value) else old(tables)
    {
      OpensIsAnswer(c, row);
      ghost var s := Contents();
      evs := Begin(SessionWaiting);
      if !Live(row) {
        return Refused, evs;
      }
      if !kmsAnswers {
        Step(Fail(0), evs);
        Fails(s, SessionLocked(row));
        return RolledBack, evs + [Fail(0)];
      }
      Step(Unwrap(0), evs);
      Unwraps(c, s);
      evs := evs + [Unwrap(0)];
      var dek := Opens(c, row);
      if dek.None? {
        return RolledBack, evs;
      }
      var written := body(dek.value);
      if written.None? {
        Step(Fail(0), evs);
        Fails(s, SessionRunning(dek.value, []));
        return RolledBack, evs + [Fail(0)];
      }
      evs := PutsAll(c, s, dek.value, written.value, evs);
      Step(Commit(0), evs);
      SessionCommits(c, s, dek.value, written.value);
      tables := PlaceAll(c.engagement, tables, written.value);
      return Committed, evs + [Commit(0)];
    }

    /** `shredEngagement`: the conditional UPDATE and its audit row. */
    method ShredEngagement() returns (shredded: bool, ghost evs: seq<Event>)
      modifies this`row, this`audit
      ensures Run(c, Idle(old(Contents())), evs) ==
        Some(Alone(Contents(), Ended(if shredded then DidShred else AlreadyShredded)))
      ensures shredded <==> !old(row).shredded
      ensures shredded ==> row == EngagementRow(true, None, None) && audit == old(audit) + [CryptoShred]
      ensures !shredded ==> row == old(row) && audit == old(audit)
    {
      ghost var s := Contents();
      evs := Begin(ShredWaiting);
      if row.shredded {
        return false, evs;
      }
      Step(Commit(0), evs);
      ShredCommits(c, s);
      row := EngagementRow(true, None, None);
      audit := audit + [CryptoShred];
      return true, evs + [Commit(0)];
    }

    /** `rotateEngagementKey`: nothing is written before the key service has answered. */
    method RotateEngagementKey(newArn: Option<Arn>, kmsAnswers: bool) returns (outcome: Outcome, ghost evs: seq<Event>)
      modifies this`row, this`audit
      ensures Run(c, Idle(old(Contents())), evs) == Some(Alone(Contents(), Ended(outcome)))
      ensures outcome ==
        if !Live(old(row)) then Refused else if kmsAnswers && Answer(c, old(row)).Some? then DidRotate else RolledBack
      ensures outcome != DidRotate ==> row == old(row) && audit == old(audit)
      ensures outcome == DidRotate ==>
        && audit == old(audit) + [ByokKeyRotated]
        && var dek := Answer(c, old(row)).value;
           row == EngagementRow(false, Some(match newArn
                                            case Some(arn) => c.kms.wrap(arn, dek)
                                            case None => c.kms.wrap(c.tenantCmkArn, dek)), newArn)
      ensures outcome == DidRotate && Lawful(c.kms) ==>
        WrappedUnder(c, newArn, row.wrappedDek, Answer(c, old(row)).value)
    {
      OpensIsAnswer(c, row);
      ghost var s := Contents();
      evs := Begin(RotationWaiting(newArn));
      if !Live(row) {
        return Refused, evs;
      }
      if !kmsAnswers {
        Step(Fail(0), evs);
        Fails(s, RotationLocked(row, newArn));
        return RolledBack, evs + [Fail(0)];
      }
      Step(Rewrap(0), evs);
      Rewraps(c, s, newArn);
      evs := evs + [Rewrap(0)];
      var dek := Opens(c, row);
      if dek.None? {
        return RolledBack, evs;
      }
      var rewrapped := c.kms.wrap(KeyOf(c, newArn), dek.value);
      Step(Commit(0), evs);
      RotationCommits(c, s, rewrapped, newArn);
      row := row.(wrappedDek := Some(rewrapped), byokKeyArn := newArn);
      audit := audit + [ByokKeyRotated];
      return DidRotate, evs + [Commit(0)];
    }

    lemma Step(ev: Event, evs: seq<Event>)
      requires Run(c, Idle(Contents()), evs).Some?
      ensures Run(c, Idle(Contents()), evs + [ev]) == Next(c, Run(c, Idle(Contents()), evs).value, ev)
    {
      RunSnoc(c, Idle(Contents()), evs, ev);
    }

    /** The process starts and asks for the row. */
    ghost method Begin(p: Proc) returns (evs: seq<Event>)
      requires p.SessionWaiting? || p.RotationWaiting? || p.ShredWaiting?
      ensures Run(c, Idle(Contents()), evs) == Some(Alone(Contents(), Locked(Contents(), p)))
    {
      Starts(c, Contents(), p);
      Step(Lock(0), [Start(0, p)]);
      Locks(c, Contents(), p);
      evs := [Start(0, p)] + [Lock(0)];
    }
  }
}
