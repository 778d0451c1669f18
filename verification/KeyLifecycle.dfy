/** One engagement row and everything that runs against it: crypto sessions (`FOR SHARE`), key
    rotations (`FOR UPDATE`), shreds (a conditional `UPDATE`) and purges (no lock at all).
    `packages/db/src/engagement.ts`, `packages/db/src/crypto-shred-purge.ts` and
    `apps/workers/src/activities/crypto-shred.ts`, as interleaved steps.  Any process may fail
    or be killed at any step; a run is any finite sequence of steps.  */
module KeyLifecycle {
  import opened Options
  import opened Purge

  type Pid = nat
  type Arn = string
  type Blob = string

  /** A key service: wraps a data key under a named key and recovers it from there. */
  datatype Kms = Kms(wrap: (Arn, Dek) -> Blob, unwrap: (Arn, Blob) -> Option<Dek>)

  ghost predicate Lawful(kms: Kms) {
    forall key: Arn, dek: Dek :: kms.unwrap(key, kms.wrap(key, dek)) == Some(dek)
  }

  datatype Config = Config(kms: Kms, engagement: EngagementId, tenantCmkArn: Arn)

  /** `engagements.status`, `wrapped_dek`, `byok_key_arn` */
  datatype EngagementRow = EngagementRow(shredded: bool, wrappedDek: Option<Blob>, byokKeyArn: Option<Arn>)

  datatype Action = CryptoShred | ByokKeyRotated | PurgeCompleted

  /** A row written inside a session: appended, or put over an existing one. */
  datatype Write = Write(table: nat, index: nat, row: Row)

  datatype Outcome =
    | Committed          // a session's transaction went through
    | Refused          // EngagementShreddedError
    | RolledBack
    | DidRotate
    | DidShred
    | AlreadyShredded    // shredEngagement returned false
    | NotShredded        // the purge activity refused
    | DidPurge

  datatype Proc =
    | SessionWaiting
    | SessionLocked(seen: EngagementRow)
    | SessionRunning(dek: Dek, writes: seq<Write>)
    | RotationWaiting(newArn: Option<Arn>)
    | RotationLocked(seen: EngagementRow, newArn: Option<Arn>)
    | RotationReady(rewrapped: Blob, newArn: Option<Arn>)
    | ShredWaiting
    | ShredLocked
    | PurgeStarted
    | Purging(table: nat, batchSize: nat)
    | Ended(outcome: Outcome)

  datatype State = State(
    row: EngagementRow,
    shared: set<Pid>,
    exclusive: Option<Pid>,
    procs: map<Pid, Proc>,
    tables: seq<Table>,
    audit: seq<Action>)

  datatype Event =
    | Start(pid: Pid, proc: Proc)
    | Lock(pid: Pid)
    | Unwrap(pid: Pid)
    | Put(pid: Pid, write: Write)
    | Rewrap(pid: Pid)
    | Commit(pid: Pid)
    | Fail(pid: Pid)
    | CheckStatus(pid: Pid, batchSize: nat)
    | PurgeStep(pid: Pid)

  /** `ref.byokKeyArn ?? ref.tenantCmkArn` */
  function KeyOf(c: Config, byokKeyArn: Option<Arn>): Arn {
    if byokKeyArn.Some? then byokKeyArn.value else c.tenantCmkArn
  }

  function Opens(c: Config, row: EngagementRow): Option<Dek> {
    if row.wrappedDek.None? then None else c.kms.unwrap(KeyOf(c, row.byokKeyArn), row.wrappedDek.value)
  }

  /** The process ends and lets go of whatever it held. */
  function End(st: State, pid: Pid, outcome: Outcome): State {
    st.(procs := st.procs[pid := Ended(outcome)],
        shared := st.shared - {pid},
        exclusive := if st.exclusive == Some(pid) then None else st.exclusive)
  }

  /** Every ciphertext of the row is under `dek`. */
  predicate SealedUnder(dek: Dek, r: Row) {
    forall c :: c in r.cells && c.Data? ==> c.sealed.dek == dek
  }

  function Place(e: EngagementId, tables: seq<Table>, w: Write): seq<Table> {
    if w.table >= |tables| then tables
    else
      var t := tables[w.table];
      if w.index < |t.rows| && t.rows[w.index].engagement == e
      then tables[w.table := t.(rows := t.rows[w.index := w.row])]
      else tables[w.table := t.(rows := t.rows + [w.row])]
  }

  function PlaceAll(e: EngagementId, tables: seq<Table>, ws: seq<Write>): seq<Table> {
    if ws == [] then tables else Place(e, PlaceAll(e, tables, ws[..|ws| - 1]), ws[|ws| - 1])
  }

  function StartStep(st: State, pid: Pid, proc: Proc): Option<State> {
    if pid in st.procs then None
    else if proc.SessionWaiting? || proc.RotationWaiting? || proc.ShredWaiting? || proc.PurgeStarted? then
      Some(st.(procs := st.procs[pid := proc]))
    else None
  }

  /** Row locks: shared ones coexist, an exclusive one excludes everything. */
  function LockStep(st: State, pid: Pid): Option<State> {
    if pid !in st.procs then None
    else match st.procs[pid]
      case SessionWaiting =>
        if st.exclusive.Some? then None
        else if st.row.shredded || st.row.wrappedDek.None? then Some(End(st, pid, Refused))
        else Some(st.(procs := st.procs[pid := SessionLocked(st.row)], shared := st.shared + {pid}))
      case RotationWaiting(arn) =>
        if st.exclusive.Some? || st.shared != {} then None
        else if st.row.shredded || st.row.wrappedDek.None? then Some(End(st, pid, Refused))
        else Some(st.(procs := st.procs[pid := RotationLocked(st.row, arn)], exclusive := Some(pid)))
      case ShredWaiting =>
        // the UPDATE's condition matches no row, so there is nothing to wait for
        if st.row.shredded then Some(End(st, pid, AlreadyShredded))
        else if st.exclusive.Some? || st.shared != {} then None
        else Some(st.(procs := st.procs[pid := ShredLocked], exclusive := Some(pid)))
      case _ => None
  }

  function UnwrapStep(c: Config, st: State, pid: Pid): Option<State> {
    if pid !in st.procs || !st.procs[pid].SessionLocked? then None
    else match Opens(c, st.procs[pid].seen)
      case None => Some(End(st, pid, RolledBack))
      case Some(dek) => Some(st.(procs := st.procs[pid := SessionRunning(dek, [])]))
  }

  /** Code inside the session writes rows of its engagement, encrypted under the session's key. */
  function PutStep(c: Config, st: State, pid: Pid, w: Write): Option<State> {
    if pid !in st.procs || !st.procs[pid].SessionRunning? then None
    else
      var p := st.procs[pid];
      if w.row.engagement == c.engagement && SealedUnder(p.dek, w.row)
      then Some(st.(procs := st.procs[pid := SessionRunning(p.dek, p.writes + [w])]))
      else None
  }

  /** `rewrapDek`: unwrap under the old key, wrap under the new one; nothing is written yet. */
  function RewrapStep(c: Config, st: State, pid: Pid): Option<State> {
    if pid !in st.procs || !st.procs[pid].RotationLocked? then None
    else
      var p := st.procs[pid];
      match Opens(c, p.seen)
      case None => Some(End(st, pid, RolledBack))
      case Some(dek) =>
        Some(st.(procs := st.procs[pid := RotationReady(c.kms.wrap(KeyOf(c, p.newArn), dek), p.newArn)]))
  }

  /** The transaction's writes become visible, all at once. */
  function CommitStep(c: Config, st: State, pid: Pid): Option<State> {
    if pid !in st.procs then None
    else match st.procs[pid]
      case SessionRunning(_, writes) =>
        Some(End(st.(tables := PlaceAll(c.engagement, st.tables, writes)), pid, Committed))
      case RotationReady(rewrapped, newArn) =>
        Some(End(st.(row := st.row.(wrappedDek := Some(rewrapped), byokKeyArn := newArn),
                     audit := st.audit + [ByokKeyRotated]), pid, DidRotate))
      case ShredLocked =>
        Some(End(st.(row := EngagementRow(true, None, None), audit := st.audit + [CryptoShred]), pid, DidShred))
      case Purging(table, _) =>
        if table >= |st.tables| then Some(End(st.(audit := st.audit + [PurgeCompleted]), pid, DidPurge)) else None
      case _ => None
  }

  /** A thrown error, a KMS refusal or a killed process: the open transaction rolls back. */
  function FailStep(st: State, pid: Pid): Option<State> {
    if pid !in st.procs || st.procs[pid].Ended? then None else Some(End(st, pid, RolledBack))
  }

  /** The purge activity's own look at the status, in a transaction that ends before the purge. */
  function CheckStatusStep(st: State, pid: Pid, batchSize: nat): Option<State> {
    if pid !in st.procs || !st.procs[pid].PurgeStarted? || batchSize == 0 then None
    else if st.row.shredded then Some(st.(procs := st.procs[pid := Purging(0, batchSize)]))
    else Some(End(st, pid, NotShredded))
  }

  /** One batch, in its own transaction; a short batch moves on to the next table. */
  function PurgeBatchStep(c: Config, st: State, pid: Pid): Option<State> {
    if pid !in st.procs || !st.procs[pid].Purging? then None
    else
      var p := st.procs[pid];
      if p.table >= |st.tables| then None
      else
        var t := st.tables[p.table];
        var next := if Pending(c.engagement, t.rows) < p.batchSize then p.table + 1 else p.table;
        Some(st.(tables := st.tables[p.table := t.(rows := BlankFirst(c.engagement, t.notNull, t.rows, p.batchSize))],
                 procs := st.procs[pid := Purging(next, p.batchSize)]))
  }

  /** The step `ev`, if it is enabled. */
  function Next(c: Config, st: State, ev: Event): Option<State> {
    match ev
    case Start(pid, proc) => StartStep(st, pid, proc)
    case Lock(pid) => LockStep(st, pid)
    case Unwrap(pid) => UnwrapStep(c, st, pid)
    case Put(pid, w) => PutStep(c, st, pid, w)
    case Rewrap(pid) => RewrapStep(c, st, pid)
    case Commit(pid) => CommitStep(c, st, pid)
    case Fail(pid) => FailStep(st, pid)
    case CheckStatus(pid, batchSize) => CheckStatusStep(st, pid, batchSize)
    case PurgeStep(pid) => PurgeBatchStep(c, st, pid)
  }

  // ---------------------------------------------------------------------------
  // The invariant
  // ---------------------------------------------------------------------------

  function EndedWith(procs: map<Pid, Proc>, outcome: Outcome): set<Pid> {
    set p | p in procs && procs[p] == Ended(outcome)
  }

  function Count(audit: seq<Action>, a: Action): nat {
    if audit == [] then 0 else Count(audit[..|audit| - 1], a) + if audit[|audit| - 1] == a then 1 else 0
  }

  predicate HoldsShared(p: Proc) {
    p.SessionLocked? || p.SessionRunning?
  }

  predicate HoldsExclusive(p: Proc) {
    p.RotationLocked? || p.RotationReady? || p.ShredLocked?
  }

  /** Who holds what. */
  ghost predicate LockInv(st: State) {
    && (st.exclusive.Some? ==> st.shared == {})
    && (forall p :: p in st.shared <==> p in st.procs && HoldsShared(st.procs[p]))
    && (forall p :: st.exclusive == Some(p) <==> p in st.procs && HoldsExclusive(st.procs[p]))
  }

  /** What the key service answers for the row's blob: under the customer's key when the row names one,
      else under the tenant's. */
  function Answer(c: Config, row: EngagementRow): Option<Dek> {
    match row.wrappedDek
    case None => None
    case Some(blob) =>
      match row.byokKeyArn
      case Some(arn) => c.kms.unwrap(arn, blob)
      case None => c.kms.unwrap(c.tenantCmkArn, blob)
  }

  /** `blob` holds `dek`, wrapped under the customer's key `arn` or, without one, under the tenant's. */
  ghost predicate WrappedUnder(c: Config, arn: Option<Arn>, blob: Option<Blob>, dek: Dek) {
    && blob.Some?
    && match arn
       case Some(key) => c.kms.unwrap(key, blob.value) == Some(dek)
       case None => c.kms.unwrap(c.tenantCmkArn, blob.value) == Some(dek)
  }

  lemma OpensIsAnswer(c: Config, row: EngagementRow)
    ensures Opens(c, row) == Answer(c, row)
    ensures forall dek: Dek :: Opens(c, row) == Some(dek) <==> WrappedUnder(c, row.byokKeyArn, row.wrappedDek, dek)
  {
  }

  /** A live row wraps `dek` under the key it names; a shredded one wraps nothing. */
  ghost predicate RowInv(c: Config, dek: Dek, row: EngagementRow) {
    if row.shredded then row.wrappedDek.None? && row.byokKeyArn.None? else Opens(c, row) == Some(dek)
  }

  ghost predicate AllSealed(c: Config, dek: Dek, tables: seq<Table>) {
    forall t, i :: 0 <= t < |tables| && 0 <= i < |tables[t].rows| && tables[t].rows[i].engagement == c.engagement ==>
      SealedUnder(dek, tables[t].rows[i])
  }

  ghost predicate BlankBefore(c: Config, tables: seq<Table>, n: nat) {
    forall t :: 0 <= t < n && t < |tables| ==> Pending(c.engagement, tables[t].rows) == 0
  }

  ghost predicate ProcInv(c: Config, dek: Dek, st: State, p: Proc) {
    match p
    case SessionLocked(seen) => !st.row.shredded && seen == st.row
    case SessionRunning(d, writes) =>
      !st.row.shredded && d == dek && forall i :: 0 <= i < |writes| ==>
        writes[i].row.engagement == c.engagement && SealedUnder(dek, writes[i].row)
    case RotationLocked(seen, _) => !st.row.shredded && seen == st.row
    case RotationReady(blob, newArn) => !st.row.shredded && c.kms.unwrap(KeyOf(c, newArn), blob) == Some(dek)
    case ShredLocked => !st.row.shredded
    case Purging(table, batchSize) =>
      st.row.shredded && batchSize > 0 && table <= |st.tables| && BlankBefore(c, st.tables, table)
    case Ended(outcome) =>
      && (outcome in {Refused, DidShred, AlreadyShredded, DidPurge} ==> st.row.shredded)
      && (outcome == DidPurge ==> BlankBefore(c, st.tables, |st.tables|))
    case _ => true
  }

  ghost predicate AuditInv(st: State) {
    && Count(st.audit, CryptoShred) == (if st.row.shredded then 1 else 0) == |EndedWith(st.procs, DidShred)|
    && Count(st.audit, ByokKeyRotated) == |EndedWith(st.procs, DidRotate)|
    && Count(st.audit, PurgeCompleted) == |EndedWith(st.procs, DidPurge)|
  }

  ghost predicate Inv(c: Config, dek: Dek, st: State) {
    && LockInv(st)
    && RowInv(c, dek, st.row)
    && AllSealed(c, dek, st.tables)
    && (forall p :: p in st.procs ==> ProcInv(c, dek, st, st.procs[p]))
    && AuditInv(st)
  }

  /** A freshly provisioned engagement: nothing running, the key wrapped under the key that the row names. */
  ghost predicate Initial(c: Config, dek: Dek, st: State) {
    && st.shared == {} && st.exclusive == None && st.procs == map[] && st.audit == []
    && !st.row.shredded && WrappedUnder(c, st.row.byokKeyArn, st.row.wrappedDek, dek)
    && AllSealed(c, dek, st.tables)
  }

  lemma InitialInv(c: Config, dek: Dek, st: State)
    requires Lawful(c.kms) && Initial(c, dek, st)
    ensures Inv(c, dek, st)
  {
    assert EndedWith(st.procs, DidShred) == {};
    assert EndedWith(st.procs, DidRotate) == {};
    assert EndedWith(st.procs, DidPurge) == {};
  }

  // ---------------------------------------------------------------------------
  // Every step keeps it
  // ---------------------------------------------------------------------------

  /** A process that ends joins the set of its outcome and no other. */
  lemma EndedAfter(procs: map<Pid, Proc>, pid: Pid, q: Proc, outcome: Outcome)
    requires pid in procs ==> !procs[pid].Ended?
    ensures |EndedWith(procs[pid := q], outcome)| == |EndedWith(procs, outcome)| + if q == Ended(outcome) then 1 else 0
  {
    var before, after := EndedWith(procs, outcome), EndedWith(procs[pid := q], outcome);
    assert pid !in before;
    assert forall p :: p != pid ==> (p in after <==> p in before);
    if q == Ended(outcome) {
      assert after == before + {pid};
    } else {
      assert after == before;
    }
  }

  lemma EndedAfterAll(procs: map<Pid, Proc>, pid: Pid, q: Proc)
    requires pid in procs ==> !procs[pid].Ended?
    ensures |EndedWith(procs[pid := q], DidShred)| ==
      |EndedWith(procs, DidShred)| + if q == Ended(DidShred) then 1 else 0
    ensures |EndedWith(procs[pid := q], DidRotate)| ==
      |EndedWith(procs, DidRotate)| + if q == Ended(DidRotate) then 1 else 0
    ensures |EndedWith(procs[pid := q], DidPurge)| ==
      |EndedWith(procs, DidPurge)| + if q == Ended(DidPurge) then 1 else 0
  {
    EndedAfter(procs, pid, q, DidShred);
    EndedAfter(procs, pid, q, DidRotate);
    EndedAfter(procs, pid, q, DidPurge);
  }

  /** Steps that touch neither the row nor the tables nor the audit log. */
  lemma QuietStepKeeps(c: Config, dek: Dek, st: State, st': State, pid: Pid)
    requires Lawful(c.kms) && Inv(c, dek, st)
    requires pid in st.procs ==> !st.procs[pid].Ended?
    requires pid in st'.procs && st'.procs == st.procs[pid := st'.procs[pid]]
    requires st'.row == st.row && st'.tables == st.tables && st'.audit == st.audit
    requires ProcInv(c, dek, st', st'.procs[pid])
    requires !(st'.procs[pid] in {Ended(DidShred), Ended(DidRotate), Ended(DidPurge)})
    requires LockInv(st')
    ensures Inv(c, dek, st')
  {
    EndedAfterAll(st.procs, pid, st'.procs[pid]);
    forall p | p in st'.procs ensures ProcInv(c, dek, st', st'.procs[p]) {
      if p != pid {
        assert ProcInv(c, dek, st, st.procs[p]);
      }
    }
  }

  lemma EndKeepsLocks(st: State, pid: Pid, outcome: Outcome)
    requires LockInv(st)
    ensures LockInv(End(st, pid, outcome))
  {
  }

  lemma StartKeeps(c: Config, dek: Dek, st: State, pid: Pid, proc: Proc)
    requires Lawful(c.kms) && Inv(c, dek, st) && StartStep(st, pid, proc).Some?
    ensures Inv(c, dek, StartStep(st, pid, proc).value)
  {
    QuietStepKeeps(c, dek, st, StartStep(st, pid, proc).value, pid);
  }

  lemma RefusedKeeps(c: Config, dek: Dek, st: State, pid: Pid, outcome: Outcome)
    requires Lawful(c.kms) && Inv(c, dek, st) && pid in st.procs && !st.procs[pid].Ended?
    requires (outcome in {Refused, AlreadyShredded} && st.row.shredded) || outcome in {RolledBack, NotShredded}
    ensures Inv(c, dek, End(st, pid, outcome))
  {
    EndKeepsLocks(st, pid, outcome);
    QuietStepKeeps(c, dek, st, End(st, pid, outcome), pid);
  }

  lemma SharedLockKeeps(c: Config, dek: Dek, st: State, pid: Pid)
    requires Lawful(c.kms) && Inv(c, dek, st)
    requires pid in st.procs && st.procs[pid].SessionWaiting? && st.exclusive.None? && !st.row.shredded
    ensures Inv(c, dek, st.(procs := st.procs[pid := SessionLocked(st.row)], shared := st.shared + {pid}))
  {
    QuietStepKeeps(c, dek, st, st.(procs := st.procs[pid := SessionLocked(st.row)], shared := st.shared + {pid}), pid);
  }

  lemma ExclusiveLockKeeps(c: Config, dek: Dek, st: State, pid: Pid, q: Proc)
    requires Lawful(c.kms) && Inv(c, dek, st)
    requires pid in st.procs && (st.procs[pid].RotationWaiting? || st.procs[pid].ShredWaiting?)
    requires st.exclusive.None? && st.shared == {} && !st.row.shredded
    requires q.ShredLocked? || (q.RotationLocked? && q.seen == st.row)
    ensures Inv(c, dek, st.(procs := st.procs[pid := q], exclusive := Some(pid)))
  {
    QuietStepKeeps(c, dek, st, st.(procs := st.procs[pid := q], exclusive := Some(pid)), pid);
  }

  lemma LockKeeps(c: Config, dek: Dek, st: State, pid: Pid)
    requires Lawful(c.kms) && Inv(c, dek, st) && LockStep(st, pid).Some?
    ensures Inv(c, dek, LockStep(st, pid).value)
  {
    match st.procs[pid] {
      case SessionWaiting =>
        if st.row.shredded {
          RefusedKeeps(c, dek, st, pid, Refused);
        } else {
          SharedLockKeeps(c, dek, st, pid);
        }
      case RotationWaiting(arn) =>
        if st.row.shredded {
          RefusedKeeps(c, dek, st, pid, Refused);
        } else {
          ExclusiveLockKeeps(c, dek, st, pid, RotationLocked(st.row, arn));
        }
      case ShredWaiting =>
        if st.row.shredded {
          RefusedKeeps(c, dek, st, pid, AlreadyShredded);
        } else {
          ExclusiveLockKeeps(c, dek, st, pid, ShredLocked);
        }
    }
  }

  lemma UnwrapKeeps(c: Config, dek: Dek, st: State, pid: Pid)
    requires Lawful(c.kms) && Inv(c, dek, st) && UnwrapStep(c, st, pid).Some?
    ensures Inv(c, dek, UnwrapStep(c, st, pid).value)
  {
    assert ProcInv(c, dek, st, st.procs[pid]);
    QuietStepKeeps(c, dek, st, UnwrapStep(c, st, pid).value, pid);
  }

  lemma PutKeeps(c: Config, dek: Dek, st: State, pid: Pid, w: Write)
    requires Lawful(c.kms) && Inv(c, dek, st) && PutStep(c, st, pid, w).Some?
    ensures Inv(c, dek, PutStep(c, st, pid, w).value)
  {
    assert ProcInv(c, dek, st, st.procs[pid]);
    QuietStepKeeps(c, dek, st, PutStep(c, st, pid, w).value, pid);
  }

  lemma RewrapKeeps(c: Config, dek: Dek, st: State, pid: Pid)
    requires Lawful(c.kms) && Inv(c, dek, st) && RewrapStep(c, st, pid).Some?
    ensures Inv(c, dek, RewrapStep(c, st, pid).value)
  {
    assert ProcInv(c, dek, st, st.procs[pid]);
    QuietStepKeeps(c, dek, st, RewrapStep(c, st, pid).value, pid);
  }

  lemma FailKeeps(c: Config, dek: Dek, st: State, pid: Pid)
    requires Lawful(c.kms) && Inv(c, dek, st) && FailStep(st, pid).Some?
    ensures Inv(c, dek, FailStep(st, pid).value)
  {
    RefusedKeeps(c, dek, st, pid, RolledBack);
  }

  lemma CheckStatusKeeps(c: Config, dek: Dek, st: State, pid: Pid, batchSize: nat)
    requires Lawful(c.kms) && Inv(c, dek, st) && CheckStatusStep(st, pid, batchSize).Some?
    ensures Inv(c, dek, CheckStatusStep(st, pid, batchSize).value)
  {
    if st.row.shredded {
      QuietStepKeeps(c, dek, st, CheckStatusStep(st, pid, batchSize).value, pid);
    } else {
      RefusedKeeps(c, dek, st, pid, NotShredded);
    }
  }

  lemma {:induction false} PlaceAllSealed(c: Config, dek: Dek, tables: seq<Table>, ws: seq<Write>)
    requires AllSealed(c, dek, tables)
    requires forall i :: 0 <= i < |ws| ==> SealedUnder(dek, ws[i].row)
    ensures AllSealed(c, dek, PlaceAll(c.engagement, tables, ws))
    ensures |PlaceAll(c.engagement, tables, ws)| == |tables|
  {
    if ws != [] {
      PlaceAllSealed(c, dek, tables, ws[..|ws| - 1]);
    }
  }

  /** No purge can have started while a session runs, so its rows disturb nobody. */
  lemma SessionCommitKeeps(c: Config, dek: Dek, st: State, pid: Pid)
    requires Lawful(c.kms) && Inv(c, dek, st)
    requires pid in st.procs && st.procs[pid].SessionRunning?
    ensures Inv(c, dek, CommitStep(c, st, pid).value)
  {
    var st' := CommitStep(c, st, pid).value;
    assert ProcInv(c, dek, st, st.procs[pid]);
    PlaceAllSealed(c, dek, st.tables, st.procs[pid].writes);
    EndedAfterAll(st.procs, pid, Ended(Committed));
    EndKeepsLocks(st, pid, Committed);
    forall p | p in st'.procs ensures ProcInv(c, dek, st', st'.procs[p]) {
      if p != pid {
        assert ProcInv(c, dek, st, st.procs[p]);
      }
    }
  }

  lemma RotationCommitKeeps(c: Config, dek: Dek, st: State, pid: Pid)
    requires Lawful(c.kms) && Inv(c, dek, st)
    requires pid in st.procs && st.procs[pid].RotationReady?
    ensures Inv(c, dek, CommitStep(c, st, pid).value)
  {
    var st' := CommitStep(c, st, pid).value;
    assert ProcInv(c, dek, st, st.procs[pid]);
    assert st.exclusive == Some(pid);
    EndedAfterAll(st.procs, pid, Ended(DidRotate));
    EndKeepsLocks(st, pid, DidRotate);
    assert (st.audit + [ByokKeyRotated])[..|st.audit|] == st.audit;
    forall p | p in st'.procs ensures ProcInv(c, dek, st', st'.procs[p]) {
      if p != pid {
        assert ProcInv(c, dek, st, st.procs[p]);
        assert p !in st.shared && st.exclusive != Some(p);
      }
    }
  }

  lemma ShredCommitKeeps(c: Config, dek: Dek, st: State, pid: Pid)
    requires Lawful(c.kms) && Inv(c, dek, st)
    requires pid in st.procs && st.procs[pid].ShredLocked?
    ensures Inv(c, dek, CommitStep(c, st, pid).value)
  {
    var st' := CommitStep(c, st, pid).value;
    assert ProcInv(c, dek, st, st.procs[pid]);
    assert st.exclusive == Some(pid);
    EndedAfterAll(st.procs, pid, Ended(DidShred));
    EndKeepsLocks(st, pid, DidShred);
    assert (st.audit + [CryptoShred])[..|st.audit|] == st.audit;
    forall p | p in st'.procs ensures ProcInv(c, dek, st', st'.procs[p]) {
      if p != pid {
        assert ProcInv(c, dek, st, st.procs[p]);
        assert p !in st.shared && st.exclusive != Some(p);
      }
    }
  }

  lemma PurgeCommitKeeps(c: Config, dek: Dek, st: State, pid: Pid)
    requires Lawful(c.kms) && Inv(c, dek, st)
    requires pid in st.procs && st.procs[pid].Purging? && CommitStep(c, st, pid).Some?
    ensures Inv(c, dek, CommitStep(c, st, pid).value)
  {
    var st' := CommitStep(c, st, pid).value;
    assert ProcInv(c, dek, st, st.procs[pid]);
    EndedAfterAll(st.procs, pid, Ended(DidPurge));
    EndKeepsLocks(st, pid, DidPurge);
    assert (st.audit + [PurgeCompleted])[..|st.audit|] == st.audit;
    forall p | p in st'.procs ensures ProcInv(c, dek, st', st'.procs[p]) {
      if p != pid {
        assert ProcInv(c, dek, st, st.procs[p]);
      }
    }
  }

  /** A batch never makes a blank table carry ciphertext again. */
  lemma BatchKeepsBlank(c: Config, tables: seq<Table>, n: nat, limit: nat, m: nat)
    requires n < |tables| && BlankBefore(c, tables, m)
    ensures var t := tables[n];
            BlankBefore(c, tables[n := t.(rows := BlankFirst(c.engagement, t.notNull, t.rows, limit))], m)
  {
    BlankFirstEffect(c.engagement, tables[n].notNull, tables[n].rows, limit);
  }

  lemma PurgeBatchProcs(c: Config, dek: Dek, st: State, pid: Pid, p: Pid)
    requires Lawful(c.kms) && Inv(c, dek, st) && PurgeBatchStep(c, st, pid).Some? && p in st.procs
    ensures var st' := PurgeBatchStep(c, st, pid).value; ProcInv(c, dek, st', st'.procs[p])
  {
    var p0 := st.procs[pid];
    assert ProcInv(c, dek, st, p0) && ProcInv(c, dek, st, st.procs[p]);
    var t := st.tables[p0.table];
    BlankFirstEffect(c.engagement, t.notNull, t.rows, p0.batchSize);
    BatchKeepsBlank(c, st.tables, p0.table, p0.batchSize, p0.table);
    match st.procs[p] {
      case Purging(table, _) => BatchKeepsBlank(c, st.tables, p0.table, p0.batchSize, table);
      case Ended(DidPurge) => BatchKeepsBlank(c, st.tables, p0.table, p0.batchSize, |st.tables|);
      case _ =>
    }
  }

  lemma PurgeBatchLocksAndLog(c: Config, st: State, pid: Pid)
    requires LockInv(st) && AuditInv(st) && PurgeBatchStep(c, st, pid).Some?
    ensures LockInv(PurgeBatchStep(c, st, pid).value) && AuditInv(PurgeBatchStep(c, st, pid).value)
  {
    EndedAfterAll(st.procs, pid, PurgeBatchStep(c, st, pid).value.procs[pid]);
  }

  lemma PurgeBatchKeeps(c: Config, dek: Dek, st: State, pid: Pid)
    requires Lawful(c.kms) && Inv(c, dek, st) && PurgeBatchStep(c, st, pid).Some?
    ensures Inv(c, dek, PurgeBatchStep(c, st, pid).value)
  {
    var st' := PurgeBatchStep(c, st, pid).value;
    var p0 := st.procs[pid];
    var t := st.tables[p0.table];
    BlankFirstEffect(c.engagement, t.notNull, t.rows, p0.batchSize);
    PurgeBatchLocksAndLog(c, st, pid);
    BlankedStaysSealed(c, dek, st.tables, st'.tables, p0.table);
    forall p | p in st'.procs ensures ProcInv(c, dek, st', st'.procs[p]) {
      PurgeBatchProcs(c, dek, st, pid, p);
    }
  }

  lemma BlankedStaysSealed(c: Config, dek: Dek, tables: seq<Table>, tables': seq<Table>, n: nat)
    requires n < |tables| == |tables'| && AllSealed(c, dek, tables)
    requires forall t :: 0 <= t < |tables| && t != n ==> tables'[t] == tables[t]
    requires PartlyPurged(c.engagement, tables[n].notNull, tables[n].rows, tables'[n].rows)
    ensures AllSealed(c, dek, tables')
  {
    forall t, i | 0 <= t < |tables'| && 0 <= i < |tables'[t].rows| && tables'[t].rows[i].engagement == c.engagement
      ensures SealedUnder(dek, tables'[t].rows[i])
    {
      if t == n && tables'[t].rows[i] != tables[t].rows[i] {
        assert !CarriesCiphertext(tables'[t].rows[i]);
      } else {
        assert SealedUnder(dek, tables[t].rows[i]);
      }
    }
  }

  /** Every enabled step keeps the invariant. */
  lemma {:induction false} StepKeeps(c: Config, dek: Dek, st: State, ev: Event)
    requires Lawful(c.kms) && Inv(c, dek, st) && Next(c, st, ev).Some?
    ensures Inv(c, dek, Next(c, st, ev).value)
  {
    match ev {
      case Start(pid, proc) => StartKeeps(c, dek, st, pid, proc);
      case Lock(pid) => LockKeeps(c, dek, st, pid);
      case Unwrap(pid) => UnwrapKeeps(c, dek, st, pid);
      case Put(pid, w) => PutKeeps(c, dek, st, pid, w);
      case Rewrap(pid) => RewrapKeeps(c, dek, st, pid);
      case Fail(pid) => FailKeeps(c, dek, st, pid);
      case CheckStatus(pid, batchSize) => CheckStatusKeeps(c, dek, st, pid, batchSize);
      case PurgeStep(pid) => PurgeBatchKeeps(c, dek, st, pid);
      case Commit(pid) =>
        match st.procs[pid] {
          case SessionRunning(_, _) => SessionCommitKeeps(c, dek, st, pid);
          case RotationReady(_, _) => RotationCommitKeeps(c, dek, st, pid);
          case ShredLocked => ShredCommitKeeps(c, dek, st, pid);
          case Purging(_, _) => PurgeCommitKeeps(c, dek, st, pid);
        }
    }
  }

  // ---------------------------------------------------------------------------
  // Whole runs
  // ---------------------------------------------------------------------------

  /** The state after a sequence of steps, if each was enabled in turn. */
  function Run(c: Config, st: State, evs: seq<Event>): Option<State> {
    if evs == [] then Some(st)
    else match Run(c, st, evs[..|evs| - 1])
      case None => None
      case Some(mid) => Next(c, mid, evs[|evs| - 1])
  }

  lemma {:induction false} RunKeeps(c: Config, dek: Dek, st: State, evs: seq<Event>)
    requires Lawful(c.kms) && Inv(c, dek, st) && Run(c, st, evs).Some?
    ensures Inv(c, dek, Run(c, st, evs).value)
  {
    if evs != [] {
      var before := evs[..|evs| - 1];
      RunKeeps(c, dek, st, before);
      StepKeeps(c, dek, Run(c, st, before).value, evs[|evs| - 1]);
    }
  }

  /** What holds in every reachable state, whatever was interleaved with whatever: the live row, every
      running session and every stored ciphertext share the engagement's one data key (rotations never
      change it); nothing holds a lock on a shredded row; the audit log has one `crypto_shred` entry
      exactly when shredded and one `byok_key_rotated` entry per completed rotation. */
  lemma {:induction false} Safety(c: Config, dek: Dek, st0: State, evs: seq<Event>)
    requires Lawful(c.kms) && Initial(c, dek, st0) && Run(c, st0, evs).Some?
    ensures var st := Run(c, st0, evs).value;
            && (!st.row.shredded ==> WrappedUnder(c, st.row.byokKeyArn, st.row.wrappedDek, dek))
            && (forall p :: p in st.procs && st.procs[p].SessionRunning? ==> !st.row.shredded && st.procs[p].dek == dek)
            && AllSealed(c, dek, st.tables)
            && (st.row.shredded ==>
                  st.row.wrappedDek == None && st.row.byokKeyArn == None && st.shared == {} && st.exclusive == None)
            && Count(st.audit, CryptoShred) == (if st.row.shredded then 1 else 0)
            && Count(st.audit, CryptoShred) == |EndedWith(st.procs, DidShred)|
            && Count(st.audit, ByokKeyRotated) == |EndedWith(st.procs, DidRotate)|
  {
    InitialInv(c, dek, st0);
    RunKeeps(c, dek, st0, evs);
    var st := Run(c, st0, evs).value;
    OpensIsAnswer(c, st.row);
    forall p | p in st.procs && st.procs[p].SessionRunning? ensures !st.row.shredded && st.procs[p].dek == dek {
      assert ProcInv(c, dek, st, st.procs[p]);
    }
    if st.row.shredded {
      NoLocksOnceShredded(c, dek, st);
    }
  }

  lemma {:induction false} NoLocksOnceShredded(c: Config, dek: Dek, st: State)
    requires Inv(c, dek, st) && st.row.shredded
    ensures st.shared == {} && st.exclusive == None
    ensures forall p :: p in st.procs ==> !HoldsShared(st.procs[p]) && !HoldsExclusive(st.procs[p])
  {
    forall p | p in st.procs ensures !HoldsShared(st.procs[p]) && !HoldsExclusive(st.procs[p]) {
      assert ProcInv(c, dek, st, st.procs[p]);
    }
  }

  /** `later` has no ciphertext of the engagement that `earlier` did not have at the same place. */
  ghost predicate OnlyBlanked(c: Config, earlier: seq<Table>, later: seq<Table>) {
    && |later| == |earlier|
    && forall t :: 0 <= t < |earlier| ==>
         later[t].notNull == earlier[t].notNull
           && PartlyPurged(c.engagement, earlier[t].notNull, earlier[t].rows, later[t].rows)
  }

  /** Shredding is terminal: from then on no step touches the row, no session writes, and the tables
      only ever lose this engagement's ciphertext.  This is what makes it safe that the purge looks
      at the status once, in a transaction of its own, and stops at the first short batch. */
  lemma {:induction false} ShreddedStep(c: Config, dek: Dek, st: State, ev: Event)
    requires Lawful(c.kms) && Inv(c, dek, st) && st.row.shredded && Next(c, st, ev).Some?
    ensures var st' := Next(c, st, ev).value; st'.row == st.row && OnlyBlanked(c, st.tables, st'.tables)
  {
    NoLocksOnceShredded(c, dek, st);
    if ev.PurgeStep? {
      var p := st.procs[ev.pid];
      var t := st.tables[p.table];
      BlankFirstEffect(c.engagement, t.notNull, t.rows, p.batchSize);
    }
  }

  lemma {:induction false} ShreddedIsTerminal(c: Config, dek: Dek, st: State, evs: seq<Event>)
    requires Lawful(c.kms) && Inv(c, dek, st) && st.row.shredded && Run(c, st, evs).Some?
    ensures var st' := Run(c, st, evs).value; st'.row == st.row && OnlyBlanked(c, st.tables, st'.tables)
  {
    if evs != [] {
      var before := evs[..|evs| - 1];
      var mid := Run(c, st, before).value;
      ShreddedIsTerminal(c, dek, st, before);
      RunKeeps(c, dek, st, before);
      ShreddedStep(c, dek, mid, evs[|evs| - 1]);
      var st' := Run(c, st, evs).value;
      forall t | 0 <= t < |st.tables|
        ensures PartlyPurged(c.engagement, st.tables[t].notNull, st.tables[t].rows, st'.tables[t].rows)
      {
        PartlyPurgedTransitive(c.engagement, st.tables[t].notNull, st.tables[t].rows, mid.tables[t].rows,
          st'.tables[t].rows);
      }
    }
  }

  /** Once any purge has completed, and for ever after, no row of the engagement carries ciphertext. */
  lemma {:induction false} PurgedForGood(c: Config, dek: Dek, st0: State, evs: seq<Event>, pid: Pid)
    requires Lawful(c.kms) && Initial(c, dek, st0) && Run(c, st0, evs).Some?
    requires pid in Run(c, st0, evs).value.procs && Run(c, st0, evs).value.procs[pid] == Ended(DidPurge)
    ensures var st := Run(c, st0, evs).value;
            st.row.shredded && forall t :: 0 <= t < |st.tables| ==> Pending(c.engagement, st.tables[t].rows) == 0
  {
    InitialInv(c, dek, st0);
    RunKeeps(c, dek, st0, evs);
    var st := Run(c, st0, evs).value;
    assert ProcInv(c, dek, st, st.procs[pid]);
  }

  // ---------------------------------------------------------------------------
  // What a session commits
  // ---------------------------------------------------------------------------

  /** Rows of other engagements stay where they are, no row is lost, and every column flag stays. */
  ghost predicate OthersStay(e: EngagementId, before: seq<Table>, after: seq<Table>) {
    && |after| == |before|
    && forall t :: 0 <= t < |before| ==>
         && after[t].name == before[t].name && after[t].notNull == before[t].notNull
         && |after[t].rows| >= |before[t].rows|
         && forall i :: 0 <= i < |before[t].rows| && before[t].rows[i].engagement != e ==>
              after[t].rows[i] == before[t].rows[i]
  }

  lemma OthersStayTransitive(e: EngagementId, a: seq<Table>, b: seq<Table>, c: seq<Table>)
    requires OthersStay(e, a, b) && OthersStay(e, b, c)
    ensures OthersStay(e, a, c)
  {
    forall t, i | 0 <= t < |a| && 0 <= i < |a[t].rows| && a[t].rows[i].engagement != e
      ensures c[t].rows[i] == a[t].rows[i]
    {
      assert b[t].rows[i] == a[t].rows[i];
    }
  }

  /** Where the write lands: on the row it names, if that is the engagement's own, else at the end. */
  function Position(e: EngagementId, rows: seq<Row>, index: nat): nat {
    if index < |rows| && rows[index].engagement == e then index else |rows|
  }

  lemma PlacedIsThere(e: EngagementId, tables: seq<Table>, w: Write)
    ensures OthersStay(e, tables, Place(e, tables, w))
    ensures w.table < |tables| ==>
      var (rows, rows', p) := (tables[w.table].rows, Place(e, tables, w)[w.table].rows,
        Position(e, tables[w.table].rows, w.index));
      && p < |rows'| && rows'[p] == w.row
      && forall i :: 0 <= i < |rows| && i != p ==> rows'[i] == rows[i]
  {
  }

  lemma KeepsPlace(e: EngagementId, tables: seq<Table>, w: Write, t: nat, p: nat, row: Row)
    requires t < |tables| && p < |tables[t].rows| && tables[t].rows[p] == row && (w.table == t ==> w.index != p)
    ensures var after := Place(e, tables, w); t < |after| && p < |after[t].rows| && after[t].rows[p] == row
  {
  }

  /** A committed write stands where it landed unless a later one of the same session named that place. */
  lemma {:induction false} CommitShowsWrites(e: EngagementId, tables: seq<Table>, ws: seq<Write>, k: nat, p: nat)
    requires k < |ws| && ws[k].table < |PlaceAll(e, tables, ws[..k])|
    requires p == Position(e, PlaceAll(e, tables, ws[..k])[ws[k].table].rows, ws[k].index)
    requires forall j :: k < j < |ws| && ws[j].table == ws[k].table ==> ws[j].index != p
    ensures var (t, after) := (ws[k].table, PlaceAll(e, tables, ws));
      t < |after| && p < |after[t].rows| && after[t].rows[p] == ws[k].row
  {
    var n := |ws| - 1;
    var before := PlaceAll(e, tables, ws[..n]);
    if k == n {
      PlacedIsThere(e, before, ws[n]);
    } else {
      assert ws[..n][..k] == ws[..k];
      CommitShowsWrites(e, tables, ws[..n], k, p);
      KeepsPlace(e, before, ws[n], ws[k].table, p, ws[k].row);
    }
  }

  lemma {:induction false} AllOthersStay(e: EngagementId, tables: seq<Table>, ws: seq<Write>)
    ensures OthersStay(e, tables, PlaceAll(e, tables, ws))
  {
    if ws != [] {
      var before := PlaceAll(e, tables, ws[..|ws| - 1]);
      AllOthersStay(e, tables, ws[..|ws| - 1]);
      PlacedIsThere(e, before, ws[|ws| - 1]);
      OthersStayTransitive(e, tables, before, Place(e, before, ws[|ws| - 1]));
    }
  }

  // ---------------------------------------------------------------------------
  // A purge comes to its end, whatever runs beside it
  // ---------------------------------------------------------------------------

  /** Most batches that a purge standing at `table` can still run. */
  function BatchesFrom(c: Config, tables: seq<Table>, table: nat): nat
    decreases |tables| - table
  {
    if table >= |tables| then 0
    else Pending(c.engagement, tables[table].rows) + 1 + BatchesFrom(c, tables, table + 1)
  }

  function BatchesLeft(c: Config, st: State, pid: Pid): nat {
    if pid in st.procs && st.procs[pid].Purging? then BatchesFrom(c, st.tables, st.procs[pid].table) else 0
  }

  /** The batches that `pid` ran. */
  function BatchesRun(pid: Pid, evs: seq<Event>): nat {
    if evs == [] then 0
    else BatchesRun(pid, evs[..|evs| - 1]) + if evs[|evs| - 1] == PurgeStep(pid) then 1 else 0
  }

  lemma {:induction false} PendingShrinks(e: EngagementId, notNull: seq<bool>, before: seq<Row>, after: seq<Row>)
    requires PartlyPurged(e, notNull, before, after)
    ensures Pending(e, after) <= Pending(e, before)
  {
    if before != [] {
      assert after[0] == before[0] || after[0] == Blank(notNull, before[0]);
      PendingShrinks(e, notNull, before[1..], after[1..]);
    }
  }

  lemma {:induction false} BatchesShrink(c: Config, earlier: seq<Table>, later: seq<Table>, table: nat)
    requires OnlyBlanked(c, earlier, later)
    ensures BatchesFrom(c, later, table) <= BatchesFrom(c, earlier, table)
    decreases |earlier| - table
  {
    if table < |earlier| {
      PendingShrinks(c.engagement, earlier[table].notNull, earlier[table].rows, later[table].rows);
      BatchesShrink(c, earlier, later, table + 1);
    }
  }

  /** One batch of the purge itself uses up at least one of those it had left. */
  lemma OwnBatchCounts(c: Config, dek: Dek, st: State, pid: Pid)
    requires Lawful(c.kms) && Inv(c, dek, st) && PurgeBatchStep(c, st, pid).Some?
    ensures BatchesLeft(c, PurgeBatchStep(c, st, pid).value, pid) < BatchesLeft(c, st, pid)
  {
    assert ProcInv(c, dek, st, st.procs[pid]);
    ShreddedStep(c, dek, st, PurgeStep(pid));
    BatchLowers(c, st, pid);
  }

  lemma BatchLowers(c: Config, st: State, pid: Pid)
    requires PurgeBatchStep(c, st, pid).Some? && st.procs[pid].batchSize > 0
    requires OnlyBlanked(c, st.tables, PurgeBatchStep(c, st, pid).value.tables)
    ensures BatchesLeft(c, PurgeBatchStep(c, st, pid).value, pid) < BatchesLeft(c, st, pid)
  {
    var p := st.procs[pid];
    var t := st.tables[p.table];
    BlankFirstEffect(c.engagement, t.notNull, t.rows, p.batchSize);
    BatchesShrink(c, st.tables, PurgeBatchStep(c, st, pid).value.tables, p.table + 1);
  }

  lemma ShreddedShrinks(c: Config, dek: Dek, st: State, ev: Event, table: nat)
    requires Lawful(c.kms) && Inv(c, dek, st) && st.row.shredded && Next(c, st, ev).Some?
    ensures BatchesFrom(c, Next(c, st, ev).value.tables, table) <= BatchesFrom(c, st.tables, table)
  {
    ShreddedStep(c, dek, st, ev);
    BatchesShrink(c, st.tables, Next(c, st, ev).value.tables, table);
  }

  /** A step that is not a batch of this purge leaves it where it stands, or ends it. */
  lemma PurgeStays(c: Config, st: State, ev: Event, pid: Pid)
    requires Next(c, st, ev).Some? && pid in st.procs && st.procs[pid].Purging? && ev != PurgeStep(pid)
    ensures var st' := Next(c, st, ev).value;
      pid in st'.procs && (st'.procs[pid] == st.procs[pid] || st'.procs[pid].Ended?)
  {
  }

  /** Each batch moves its purge forward, and no step of any process throws it back. */
  lemma {:induction false} PurgeMakesProgress(c: Config, dek: Dek, st: State, ev: Event, pid: Pid)
    requires Lawful(c.kms) && Inv(c, dek, st) && Next(c, st, ev).Some?
    requires pid in st.procs && st.procs[pid].Purging?
    ensures var batch := if ev == PurgeStep(pid) then 1 else 0;
      BatchesLeft(c, Next(c, st, ev).value, pid) + batch <= BatchesLeft(c, st, pid)
  {
    if ev == PurgeStep(pid) {
      OwnBatchCounts(c, dek, st, pid);
    } else {
      assert ProcInv(c, dek, st, st.procs[pid]);
      PurgeStays(c, st, ev, pid);
      ShreddedShrinks(c, dek, st, ev, st.procs[pid].table);
    }
  }

  predicate PurgesOrEnded(st: State, pid: Pid) {
    pid in st.procs && (st.procs[pid].Purging? || st.procs[pid].Ended?)
  }

  lemma StillPurgesOrEnded(c: Config, st: State, ev: Event, pid: Pid)
    requires Next(c, st, ev).Some? && PurgesOrEnded(st, pid)
    ensures PurgesOrEnded(Next(c, st, ev).value, pid)
    ensures st.procs[pid].Ended? ==> Next(c, st, ev).value.procs[pid].Ended? && ev != PurgeStep(pid)
  {
  }

  lemma StepCounts(c: Config, dek: Dek, st: State, ev: Event, pid: Pid)
    requires Lawful(c.kms) && Inv(c, dek, st) && Next(c, st, ev).Some? && PurgesOrEnded(st, pid)
    ensures var batch := if ev == PurgeStep(pid) then 1 else 0;
      BatchesLeft(c, Next(c, st, ev).value, pid) + batch <= BatchesLeft(c, st, pid)
  {
    if st.procs[pid].Purging? {
      PurgeMakesProgress(c, dek, st, ev, pid);
    } else {
      StillPurgesOrEnded(c, st, ev, pid);
    }
  }

  /** In any run from where a purge stands, it runs at most one batch for each row that carried
      ciphertext there and one more for each table. */
  lemma {:induction false} PurgeIsBounded(c: Config, dek: Dek, st: State, evs: seq<Event>, pid: Pid)
    requires Lawful(c.kms) && Inv(c, dek, st) && Run(c, st, evs).Some?
    requires pid in st.procs && st.procs[pid].Purging?
    ensures PurgesOrEnded(Run(c, st, evs).value, pid)
    ensures BatchesRun(pid, evs) + BatchesLeft(c, Run(c, st, evs).value, pid) <= BatchesLeft(c, st, pid)
  {
    if evs != [] {
      var before := evs[..|evs| - 1];
      PurgeIsBounded(c, dek, st, before, pid);
      RunKeeps(c, dek, st, before);
      StepCounts(c, dek, Run(c, st, before).value, evs[|evs| - 1], pid);
      StillPurgesOrEnded(c, Run(c, st, before).value, evs[|evs| - 1], pid);
    }
  }

  // ---------------------------------------------------------------------------
  // A transaction that does not commit leaves no trace
  // ---------------------------------------------------------------------------

  /** The state as if `pid` had never been there. */
  function Erase(pid: Pid, st: State): State {
    st.(procs := st.procs - {pid},
        shared := st.shared - {pid},
        exclusive := if st.exclusive == Some(pid) then None else st.exclusive)
  }

  /** The same steps without those of `pid`. */
  function Without(pid: Pid, evs: seq<Event>): seq<Event> {
    if evs == [] then []
    else Without(pid, evs[..|evs| - 1]) + if evs[|evs| - 1].pid == pid then [] else [evs[|evs| - 1]]
  }

  /** A session, rotation or shred that has not committed: under way, refused or rolled back.
      A purge is not one transaction: it commits batch by batch. */
  predicate Uncommitted(p: Proc) {
    match p
    case PurgeStarted => false
    case Purging(_, _) => false
    case Ended(outcome) => outcome in {Refused, RolledBack, AlreadyShredded}
    case _ => true
  }

  predicate OneTransaction(pid: Pid, st: State) {
    pid in st.procs ==> !st.procs[pid].PurgeStarted? && !st.procs[pid].Purging?
  }

  predicate StartsTransactions(pid: Pid, evs: seq<Event>) {
    forall e :: e in evs && e.Start? && e.pid == pid ==> !e.proc.PurgeStarted?
  }

  predicate LeavesNoTrace(pid: Pid, st: State) {
    pid in st.procs ==> Uncommitted(st.procs[pid])
  }

  lemma EraseEnd(pid: Pid, st: State, q: Pid, outcome: Outcome)
    requires q != pid
    ensures Erase(pid, End(st, q, outcome)) == End(Erase(pid, st), q, outcome)
  {
    var (a, b) := (Erase(pid, End(st, q, outcome)), End(Erase(pid, st), q, outcome));
    assert a.procs == b.procs;
    assert a.shared == b.shared;
  }

  lemma EraseProc(pid: Pid, procs: map<Pid, Proc>, q: Pid, p: Proc)
    requires q != pid
    ensures procs[q := p] - {pid} == (procs - {pid})[q := p]
  {
  }

  lemma OthersLock(c: Config, st: State, q: Pid, pid: Pid)
    requires LockStep(st, q).Some? && q != pid
    ensures LockStep(Erase(pid, st), q) == Some(Erase(pid, LockStep(st, q).value))
  {
    EraseEnd(pid, st, q, Refused);
    EraseEnd(pid, st, q, AlreadyShredded);
    EraseProc(pid, st.procs, q, SessionLocked(st.row));
    EraseProc(pid, st.procs, q, ShredLocked);
    match st.procs[q] {
      case SessionWaiting => assert (st.shared + {q}) - {pid} == (st.shared - {pid}) + {q};
      case RotationWaiting(arn) => EraseProc(pid, st.procs, q, RotationLocked(st.row, arn));
      case _ =>
    }
  }

  lemma OthersCommit(c: Config, st: State, q: Pid, pid: Pid)
    requires CommitStep(c, st, q).Some? && q != pid
    ensures CommitStep(c, Erase(pid, st), q) == Some(Erase(pid, CommitStep(c, st, q).value))
  {
    match st.procs[q] {
      case SessionRunning(_, writes) =>
        EraseEnd(pid, st.(tables := PlaceAll(c.engagement, st.tables, writes)), q, Committed);
      case RotationReady(rewrapped, newArn) =>
        EraseEnd(pid, st.(row := st.row.(wrappedDek := Some(rewrapped), byokKeyArn := newArn),
          audit := st.audit + [ByokKeyRotated]), q, DidRotate);
      case ShredLocked =>
        EraseEnd(pid, st.(row := EngagementRow(true, None, None), audit := st.audit + [CryptoShred]), q, DidShred);
      case Purging(_, _) =>
        EraseEnd(pid, st.(audit := st.audit + [PurgeCompleted]), q, DidPurge);
    }
  }

  lemma OthersMove(c: Config, st: State, ev: Event, pid: Pid)
    requires Next(c, st, ev).Some? && ev.pid != pid && !ev.Lock? && !ev.Commit?
    ensures Next(c, Erase(pid, st), ev) == Some(Erase(pid, Next(c, st, ev).value))
  {
    EraseEnd(pid, st, ev.pid, RolledBack);
    EraseEnd(pid, st, ev.pid, NotShredded);
    var p := Next(c, st, ev).value.procs[ev.pid];
    EraseProc(pid, st.procs, ev.pid, p);
    assert ev.pid in st.procs <==> ev.pid in Erase(pid, st).procs;
  }

  /** The other processes can do without `pid` whatever they can do beside it. */
  lemma OthersDoNotNotice(c: Config, st: State, ev: Event, pid: Pid)
    requires Next(c, st, ev).Some? && ev.pid != pid
    ensures Next(c, Erase(pid, st), ev) == Some(Erase(pid, Next(c, st, ev).value))
  {
    match ev {
      case Lock(q) => OthersLock(c, st, q, pid);
      case Commit(q) => OthersCommit(c, st, q, pid);
      case _ => OthersMove(c, st, ev, pid);
    }
  }

  /** What `pid` does short of its commit cannot be seen without it. */
  lemma OwnStepsAreInvisible(c: Config, st: State, ev: Event)
    requires Next(c, st, ev).Some? && OneTransaction(ev.pid, st)
    requires ev.Start? ==> !ev.proc.PurgeStarted?
    requires LeavesNoTrace(ev.pid, Next(c, st, ev).value)
    ensures LeavesNoTrace(ev.pid, st) && OneTransaction(ev.pid, Next(c, st, ev).value)
    ensures Erase(ev.pid, Next(c, st, ev).value) == Erase(ev.pid, st)
  {
    var (a, b) := (Erase(ev.pid, Next(c, st, ev).value), Erase(ev.pid, st));
    assert a.procs == b.procs;
    assert a.shared == b.shared;
  }

  /** The fate of `pid` is its own: no step of another process changes it. */
  lemma OthersLeaveProc(c: Config, st: State, ev: Event, pid: Pid)
    requires Next(c, st, ev).Some? && ev.pid != pid
    ensures var st' := Next(c, st, ev).value;
      (pid in st'.procs <==> pid in st.procs) && (pid in st.procs ==> st'.procs[pid] == st.procs[pid])
  {
  }

  /** Take any run, whatever was interleaved, and any session, rotation or shred in it that did not
      commit.  The run without that process is a run too, and ends in the same row, tables, audit log
      and other processes. */
  lemma {:induction false} UncommittedLeavesNoTrace(c: Config, st: State, evs: seq<Event>, pid: Pid)
    requires Run(c, st, evs).Some? && OneTransaction(pid, st) && StartsTransactions(pid, evs)
    requires LeavesNoTrace(pid, Run(c, st, evs).value)
    ensures Run(c, Erase(pid, st), Without(pid, evs)) == Some(Erase(pid, Run(c, st, evs).value))
    ensures OneTransaction(pid, Run(c, st, evs).value)
  {
    if evs != [] {
      var before, ev := evs[..|evs| - 1], evs[|evs| - 1];
      var mid := Run(c, st, before).value;
      assert ev in evs;
      if ev.pid == pid {
        StaysInTransaction(c, st, before, pid);
        OwnStepsAreInvisible(c, mid, ev);
        UncommittedLeavesNoTrace(c, st, before, pid);
        assert Without(pid, evs) == Without(pid, before);
      } else {
        OthersLeaveProc(c, mid, ev, pid);
        UncommittedLeavesNoTrace(c, st, before, pid);
        OthersDoNotNotice(c, mid, ev, pid);
        assert Without(pid, evs)[..|Without(pid, evs)| - 1] == Without(pid, before);
      }
    }
  }

  lemma {:induction false} StaysInTransaction(c: Config, st: State, evs: seq<Event>, pid: Pid)
    requires Run(c, st, evs).Some? && OneTransaction(pid, st) && StartsTransactions(pid, evs)
    ensures OneTransaction(pid, Run(c, st, evs).value)
  {
    if evs != [] {
      var before, ev := evs[..|evs| - 1], evs[|evs| - 1];
      assert ev in evs;
      StaysInTransaction(c, st, before, pid);
      if ev.pid != pid {
        OthersLeaveProc(c, Run(c, st, before).value, ev, pid);
      }
    }
  }

  /** A rotation that is refused or rolled back, in a run from a state that does not know it: without
      it the others reach the same row, tables and audit log, and hold the same locks. */
  lemma {:induction false} FailedRotationLeavesNoTrace(c: Config, st0: State, evs: seq<Event>, pid: Pid)
    requires pid !in st0.procs && pid !in st0.shared && st0.exclusive != Some(pid)
    requires Run(c, st0, evs).Some?
    requires forall e :: e in evs && e.Start? && e.pid == pid ==> e.proc.RotationWaiting?
    requires pid in Run(c, st0, evs).value.procs
      && Run(c, st0, evs).value.procs[pid] in {Ended(Refused), Ended(RolledBack)}
    ensures Run(c, st0, Without(pid, evs)).Some?
    ensures var (st, other) := (Run(c, st0, evs).value, Run(c, st0, Without(pid, evs)).value);
      && other.row == st.row && other.tables == st.tables && other.audit == st.audit
      && other.shared == st.shared - {pid} && (st.exclusive != Some(pid) ==> other.exclusive == st.exclusive)
      && other.procs == st.procs - {pid}
  {
    UncommittedLeavesNoTrace(c, st0, evs, pid);
    assert Erase(pid, st0) == st0;
  }

  /** A completed rotation: same data key, now under the requested key. */
  lemma {:induction false} RotationMovesKey(c: Config, dek: Dek, st: State, pid: Pid)
    requires Lawful(c.kms) && Inv(c, dek, st) && pid in st.procs && st.procs[pid].RotationReady?
    ensures var st' := CommitStep(c, st, pid).value;
            && st'.row.byokKeyArn == st.procs[pid].newArn && !st'.row.shredded
            && WrappedUnder(c, st.row.byokKeyArn, st.row.wrappedDek, dek)
            && WrappedUnder(c, st.procs[pid].newArn, st'.row.wrappedDek, dek)
            && st'.tables == st.tables
  {
    assert ProcInv(c, dek, st, st.procs[pid]);
    OpensIsAnswer(c, st.row);
    OpensIsAnswer(c, CommitStep(c, st, pid).value.row);
  }

  // ---------------------------------------------------------------------------
  // Nobody waits for ever on a holder that is gone
  // ---------------------------------------------------------------------------

  predicate Waiting(p: Proc) {
    p.SessionWaiting? || p.RotationWaiting? || p.ShredWaiting?
  }

  lemma {:induction false} RunCons(c: Config, st: State, ev: Event, evs: seq<Event>)
    requires Next(c, st, ev).Some?
    ensures Run(c, st, [ev] + evs) == Run(c, Next(c, st, ev).value, evs)
  {
    if evs == [] {
      assert [ev] + evs == [ev] && [ev][..0] == [];
      assert Run(c, st, []) == Some(st);
    } else {
      RunCons(c, st, ev, evs[..|evs| - 1]);
      assert ([ev] + evs)[..|[ev] + evs| - 1] == [ev] + evs[..|evs| - 1];
    }
  }

  function Holders(st: State): set<Pid> {
    st.shared + if st.exclusive.Some? then {st.exclusive.value} else {}
  }

  /** Only other processes fail in `evs`, and then `pid` gets what it waits for. */
  ghost predicate Unblocks(c: Config, st: State, evs: seq<Event>, pid: Pid) {
    && (forall e :: e in evs ==> e.Fail? && e.pid in Holders(st))
    && Run(c, st, evs).Some?
    && LockStep(Run(c, st, evs).value, pid).Some?
  }

  ghost predicate HoldersAlive(st: State) {
    forall p :: p in Holders(st) ==> p in st.procs && !st.procs[p].Ended? && !Waiting(st.procs[p])
  }

  lemma LocksAlive(st: State)
    requires LockInv(st)
    ensures HoldersAlive(st)
  {
  }

  lemma HolderCanLetGo(st: State, holder: Pid)
    requires HoldersAlive(st) && holder in Holders(st)
    ensures FailStep(st, holder).Some?
    ensures var st' := FailStep(st, holder).value; HoldersAlive(st') && Holders(st') == Holders(st) - {holder}
  {
  }

  lemma OneMoreFailure(c: Config, st: State, holder: Pid, evs: seq<Event>, pid: Pid)
    requires holder in Holders(st) && FailStep(st, holder).Some?
    requires Holders(FailStep(st, holder).value) <= Holders(st) && Unblocks(c, FailStep(st, holder).value, evs, pid)
    ensures Unblocks(c, st, [Fail(holder)] + evs, pid)
  {
    RunCons(c, st, Fail(holder), evs);
  }

  lemma FreeRowServes(c: Config, st: State, pid: Pid)
    requires Holders(st) == {} && pid in st.procs && Waiting(st.procs[pid])
    ensures Unblocks(c, st, [], pid)
  {
    if st.exclusive.Some? {
      assert false;
    }
    assert st.shared == {};
    assert Run(c, st, []) == Some(st);
  }

  lemma {:induction false} LockCanBeHad(c: Config, st: State, pid: Pid)
    requires HoldersAlive(st) && pid in st.procs && Waiting(st.procs[pid])
    ensures exists evs :: Unblocks(c, st, evs, pid)
    decreases |Holders(st)|
  {
    if Holders(st) == {} {
      FreeRowServes(c, st, pid);
    } else {
      var holder :| holder in Holders(st);
      HolderCanLetGo(st, holder);
      var st' := FailStep(st, holder).value;
      LockCanBeHad(c, st', pid);
      var evs :| Unblocks(c, st', evs, pid);
      OneMoreFailure(c, st, holder, evs, pid);
    }
  }

  /** From every reachable state, whoever waits can be served as soon as the holders end. */
  lemma {:induction false} WaiterCanBeServed(c: Config, dek: Dek, st: State, pid: Pid)
    requires Inv(c, dek, st) && pid in st.procs && Waiting(st.procs[pid])
    ensures exists evs :: Unblocks(c, st, evs, pid)
  {
    LocksAlive(st);
    LockCanBeHad(c, st, pid);
  }

  /** A session waits exactly while a rotation or a shred has the row, so sessions run side by side; a rotation
      waits while anyone has it, and so does a shred unless the row is shredded already.  Whoever need not
      wait gets the row if it is live, and is turned away if not. */
  lemma {:induction false} WaitsExactly(st: State, pid: Pid)
    requires LockInv(st) && pid in st.procs && Waiting(st.procs[pid])
    ensures var rewritten := exists p ::
        p in st.procs && (st.procs[p].RotationLocked? || st.procs[p].RotationReady? || st.procs[p].ShredLocked?);
      var read := exists p :: p in st.procs && (st.procs[p].SessionLocked? || st.procs[p].SessionRunning?);
      LockStep(st, pid).None? <==>
        if st.procs[pid].SessionWaiting? then rewritten
        else if st.procs[pid].RotationWaiting? then rewritten || read
        else !st.row.shredded && (rewritten || read)
    ensures LockStep(st, pid).Some? ==>
      var p := LockStep(st, pid).value.procs[pid];
      match st.procs[pid]
      case SessionWaiting =>
        p == if st.row.shredded || st.row.wrappedDek == None then Ended(Refused) else SessionLocked(st.row)
      case RotationWaiting(arn) =>
        p == if st.row.shredded || st.row.wrappedDek == None then Ended(Refused) else RotationLocked(st.row, arn)
      case _ => p == if st.row.shredded then Ended(AlreadyShredded) else ShredLocked
  {
    if st.exclusive.Some? {
      assert HoldsExclusive(st.procs[st.exclusive.value]);
    }
    if p :| p in st.shared {
      assert HoldsShared(st.procs[p]);
    }
  }

  /** Own steps of `pid` that lead from `st` to the end of its purge, with nothing left. */
  ghost predicate Purges(c: Config, st: State, evs: seq<Event>, pid: Pid) {
    && (forall e :: e in evs ==> e.pid == pid && (e.CheckStatus? || e.PurgeStep? || e.Commit?))
    && Run(c, st, evs).Some?
    && var end := Run(c, st, evs).value;
       pid in end.procs && end.procs[pid] == Ended(DidPurge) && BlankBefore(c, end.tables, |end.tables|)
  }

  /** A purge that looks at a shredded row can go on to its end by itself, and leaves no ciphertext; one that
      looks at a live row is turned away. */
  lemma {:induction false} PurgeCanComplete(c: Config, dek: Dek, st: State, pid: Pid, batchSize: nat)
    requires Lawful(c.kms) && Inv(c, dek, st) && pid in st.procs && st.procs[pid].PurgeStarted? && batchSize > 0
    ensures if st.row.shredded then exists evs :: Purges(c, st, evs, pid)
      else Next(c, st, CheckStatus(pid, batchSize)) == Some(End(st, pid, NotShredded))
  {
    if st.row.shredded {
      var ev := CheckStatus(pid, batchSize);
      var st' := Next(c, st, ev).value;
      StepKeeps(c, dek, st, ev);
      var evs := RestOfPurge(c, dek, st', pid);
      PurgeCons(c, st, ev, evs, pid);
    }
  }

  lemma PurgeCons(c: Config, st: State, ev: Event, evs: seq<Event>, pid: Pid)
    requires Next(c, st, ev).Some? && ev.pid == pid && (ev.CheckStatus? || ev.PurgeStep? || ev.Commit?)
    requires Purges(c, Next(c, st, ev).value, evs, pid)
    ensures Purges(c, st, [ev] + evs, pid)
  {
    RunCons(c, st, ev, evs);
  }

  lemma {:induction false} RestOfPurge(c: Config, dek: Dek, st: State, pid: Pid) returns (evs: seq<Event>)
    requires Lawful(c.kms) && Inv(c, dek, st) && pid in st.procs && st.procs[pid].Purging?
    ensures Purges(c, st, evs, pid)
    decreases BatchesLeft(c, st, pid)
  {
    assert ProcInv(c, dek, st, st.procs[pid]);
    if st.procs[pid].table < |st.tables| {
      var ev := PurgeStep(pid);
      OwnBatchCounts(c, dek, st, pid);
      StepKeeps(c, dek, st, ev);
      var rest := RestOfPurge(c, dek, Next(c, st, ev).value, pid);
      PurgeCons(c, st, ev, rest, pid);
      evs := [ev] + rest;
    } else {
      LastOfPurge(c, st, pid);
      evs := [Commit(pid)];
    }
  }

  lemma LastOfPurge(c: Config, st: State, pid: Pid)
    requires pid in st.procs && st.procs[pid].Purging? && st.procs[pid].table == |st.tables|
    requires BlankBefore(c, st.tables, |st.tables|)
    ensures Purges(c, st, [Commit(pid)], pid)
  {
    assert [Commit(pid)][..0] == [];
    assert Run(c, st, []) == Some(st);
  }
}
