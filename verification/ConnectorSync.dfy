/** The generic sync activity: `apps/workers/src/activities/connector-sync.ts`.

    A connector streams artifacts and checkpoints.  Each artifact lands in one transaction (source
    row, ACL snapshot, graph write); each checkpoint moves the persisted cursor.  A run can throw or
    be killed between any two transactions, and a rival writer can land the same artifact meanwhile;
    afterwards a new run starts from what is in the tables.  */
module ConnectorSync {
  import opened Options

  type Cursor = string

  /** `(engagement, connector, external_id, content_hash)`, the dedupe identity of an artifact. */
  type DedupeKey = string

  datatype Mode = Backfill | Incremental

  datatype Artifact = Artifact(key: DedupeKey, externalId: string, isTranscript: bool)

  datatype Emit = ArtifactEmit(artifact: Artifact) | CheckpointEmit(cursor: Cursor)

  datatype Source = Source(key: DedupeKey, externalId: string, isTranscript: bool, aclSnapshotId: nat)

  datatype Acl = Acl(sourceRef: string)

  datatype Status = Idle | Running | Error

  datatype SyncState = SyncState(cursor: Option<Cursor>, status: Status)

  /** A patch of `connector_sync_state`: absent fields keep their value. */
  datatype Patch = Patch(status: Option<Status>, cursor: Option<Option<Cursor>>)

  // ---------------------------------------------------------------------------
  // What a connector promises
  // ---------------------------------------------------------------------------

  /** The streams of a connector over one upstream state. */
  datatype Connector = Connector(backfill: seq<Emit>, incremental: Option<Cursor> -> seq<Emit>)

  function StreamOf(conn: Connector, mode: Mode, from: Option<Cursor>): seq<Emit> {
    match mode
    case Backfill => conn.backfill
    case Incremental => conn.incremental(from)
  }

  function KeysOf(emit: Emit): set<DedupeKey> {
    if emit.ArtifactEmit? then {emit.artifact.key} else {}
  }

  function Emitted(stream: seq<Emit>): set<DedupeKey> {
    if stream == [] then {}
    else Emitted(stream[..|stream| - 1]) + KeysOf(stream[|stream| - 1])
  }

  /** `covers(c)`: the artifacts a later incremental run from `c` may leave out. */
  type Coverage = Cursor -> set<DedupeKey>

  ghost function Covered(covers: Coverage, cursor: Option<Cursor>): set<DedupeKey> {
    if cursor.Some? then covers(cursor.value) else {}
  }

  /** A stream started from `from` brings everything upstream that `from` does not cover, nothing
      that is not upstream, and issues no checkpoint before what the checkpoint covers. */
  ghost predicate StreamKeepsPromise(covers: Coverage, upstream: set<DedupeKey>, from: Option<Cursor>,
      stream: seq<Emit>) {
    && upstream <= Covered(covers, from) + Emitted(stream)
    && Emitted(stream) <= upstream
    && forall i :: 0 <= i < |stream| && stream[i].CheckpointEmit? ==>
         covers(stream[i].cursor) <= Covered(covers, from) + Emitted(stream[..i])
  }

  ghost predicate KeepsPromise(covers: Coverage, upstream: set<DedupeKey>, conn: Connector) {
    && StreamKeepsPromise(covers, upstream, None, conn.backfill)
    && forall from :: StreamKeepsPromise(covers, upstream, from, conn.incremental(from))
  }

  lemma EmittedStep(stream: seq<Emit>, i: nat)
    requires i < |stream|
    ensures Emitted(stream[..i + 1]) == Emitted(stream[..i]) + KeysOf(stream[i])
    ensures Artifacts(stream[..i + 1]) == Artifacts(stream[..i]) + if stream[i].ArtifactEmit? then 1 else 0
  {
    assert stream[..i + 1][..i] == stream[..i];
  }

  lemma {:induction false} EmittedPrefix(stream: seq<Emit>, i: nat)
    requires i <= |stream|
    ensures Emitted(stream[..i]) <= Emitted(stream)
    decreases |stream| - i
  {
    if i == |stream| {
      assert stream[..i] == stream;
    } else {
      EmittedPrefix(stream, i + 1);
      EmittedStep(stream, i);
    }
  }

  function Artifacts(stream: seq<Emit>): nat {
    if stream == [] then 0
    else Artifacts(stream[..|stream| - 1]) + if stream[|stream| - 1].ArtifactEmit? then 1 else 0
  }

  // ---------------------------------------------------------------------------
  // What can happen around one emit, and what comes of it
  // ---------------------------------------------------------------------------

  /** When a rival writer lands the same artifact. */
  datatype Rival = NoRival | BeforeTransaction | InsideTransaction

  datatype Fate =
    | Fine(rival: Rival)
    | ThrowsFirst      // the stream, the schema parse or the pre-check throws
    | ThrowsOnAcl      // resolveAcl or the transaction throws; it rolls back
    | DiesFirst
    | DiesOnAcl
    | DiesAfter        // killed right after the transaction committed

  function FateAt(fates: seq<Fate>, i: nat): Fate {
    if i < |fates| then fates[i] else Fine(NoRival)
  }

  datatype Step = Advanced(inserted: bool, sourceId: nat) | StepThrew | StepDied

  datatype Landing = Landed(inserted: bool, sourceId: nat) | Threw | Died

  datatype RunResult =
    | Completed(artifactCount: nat, sourceCount: nat, transcriptSourceIds: seq<nat>, cursor: Option<Cursor>)
    | Failed   // status 'error' was written, the error rethrown
    | Killed   // the caller never hears of it

  /** Who added a source row. */
  datatype Writer = ByRun(run: nat) | ByRival

  /** Source rows with their writers, and the sync state.  Each row has its ACL snapshot and graph write. */
  datatype Tables = Tables(sources: seq<Source>, writers: seq<Writer>, sync: Option<SyncState>)

  function PositionOf(sources: seq<Source>, key: DedupeKey): (p: Option<nat>)
    ensures p.Some? ==> p.value < |sources| && sources[p.value].key == key
    ensures p.None? ==> forall i :: 0 <= i < |sources| ==> sources[i].key != key
  {
    if sources == [] then None
    else
      var n := |sources| - 1;
      var p := PositionOf(sources[..n], key);
      if p.Some? then p else if sources[n].key == key then Some(n) else None
  }

  function Insert(t: Tables, a: Artifact, w: Writer): Tables {
    t.(sources := t.sources + [Source(a.key, a.externalId, a.isTranscript, |t.sources|)], writers := t.writers + [w])
  }

  function Patched(sync: Option<SyncState>, patch: Patch): SyncState {
    var stored := if sync.Some? then sync.value else SyncState(None, Running);
    SyncState(if patch.cursor.Some? then patch.cursor.value else stored.cursor,
              if patch.status.Some? then patch.status.value else stored.status)
  }

  /** What `ingestArtifact` does under each fate. */
  function AfterIngest(t: Tables, a: Artifact, fate: Fate, run: nat): (Tables, Landing) {
    if fate.ThrowsFirst? then (t, Threw)
    else if fate.DiesFirst? then (t, Died)
    else
      match PositionOf(t.sources, a.key)
      case Some(id) => (t, if fate.DiesAfter? then Died else Landed(false, id))
      case None =>
        match fate
        case ThrowsOnAcl => (t, Threw)
        case DiesOnAcl => (t, Died)
        case DiesAfter => (Insert(t, a, ByRun(run)), Died)
        case Fine(rival) =>
          if rival.NoRival? then (Insert(t, a, ByRun(run)), Landed(true, |t.sources|))
          else (Insert(t, a, ByRival), Landed(false, |t.sources|))
        case _ => (t, Died)
  }

  function AfterEmit(t: Tables, emit: Emit, fate: Fate, run: nat): (Tables, Step) {
    match emit
    case CheckpointEmit(c) =>
      if fate.ThrowsFirst? || fate.ThrowsOnAcl? then (t, StepThrew)
      else if fate.DiesFirst? || fate.DiesOnAcl? then (t, StepDied)
      else
        (t.(sync := Some(Patched(t.sync, Patch(None, Some(Some(c)))))),
         if fate.DiesAfter? then StepDied else Advanced(false, 0))
    case ArtifactEmit(a) =>
      var (t', landing) := AfterIngest(t, a, fate, run);
      match landing
      case Threw => (t', StepThrew)
      case Died => (t', StepDied)
      case Landed(inserted, sourceId) => (t', Advanced(inserted, sourceId))
  }

  /** Where the `for await` loop stands. */
  datatype Loop = Loop(
    tables: Tables,
    artifactCount: nat,
    sourceCount: nat,
    transcriptSourceIds: seq<nat>,
    cursor: Option<Cursor>,
    stopped: Option<Step>)

  function LoopStep(l: Loop, emit: Emit, fate: Fate, run: nat): Loop {
    var (t, step) := AfterEmit(l.tables, emit, fate, run);
    match step
    case StepThrew => l.(tables := t, stopped := Some(step))
    case StepDied => l.(tables := t, stopped := Some(step))
    case Advanced(inserted, sourceId) =>
      match emit
      case CheckpointEmit(c) => l.(tables := t, cursor := Some(c))
      case ArtifactEmit(a) =>
        l.(tables := t,
           artifactCount := l.artifactCount + 1,
           sourceCount := l.sourceCount + if inserted then 1 else 0,
           transcriptSourceIds := l.transcriptSourceIds + if inserted && a.isTranscript then [sourceId] else [])
  }

  function LoopAfter(t: Tables, stream: seq<Emit>, fates: seq<Fate>, n: nat, from: Option<Cursor>, run: nat): Loop
    requires n <= |stream|
  {
    if n == 0 then Loop(t, 0, 0, [], from, None)
    else
      var l := LoopAfter(t, stream, fates, n - 1, from, run);
      if l.stopped.Some? then l else LoopStep(l, stream[n - 1], FateAt(fates, n - 1), run)
  }

  /** What befalls a run after its loop. */
  datatype Ending = Returns | DiesBeforeIdle | DiesAfterIdle

  /** One run: its mode, the connector over the upstream of the moment, and what befalls it. */
  datatype Plan = Plan(mode: Mode, conn: Connector, upstream: set<DedupeKey>, fates: seq<Fate>, ending: Ending)

  predicate Undisturbed(plan: Plan) {
    plan.ending.Returns? && forall f :: f in plan.fates ==> f.Fine?
  }

  function CursorIn(t: Tables): Option<Cursor> {
    if t.sync.Some? then t.sync.value.cursor else None
  }

  function FromCursor(t: Tables, mode: Mode): Option<Cursor> {
    if mode.Incremental? then CursorIn(t) else None
  }

  function WithSync(t: Tables, patch: Patch): Tables {
    t.(sync := Some(Patched(t.sync, patch)))
  }

  /** What `runConnectorSyncActivity` does. */
  function AfterRun(t: Tables, plan: Plan, run: nat): (Tables, RunResult) {
    var from := FromCursor(t, plan.mode);
    var stream := StreamOf(plan.conn, plan.mode, from);
    var l := LoopAfter(WithSync(t, Patch(Some(Running), None)), stream, plan.fates, |stream|, from, run);
    match l.stopped
    case Some(step) =>
      if step.StepThrew? then (WithSync(l.tables, Patch(Some(Error), None)), Failed) else (l.tables, Killed)
    case None =>
      if plan.ending.DiesBeforeIdle? then (l.tables, Killed)
      else
        (WithSync(l.tables, Patch(Some(Idle), Some(l.cursor))),
         if plan.ending.DiesAfterIdle? then Killed
         else Completed(l.artifactCount, l.sourceCount, l.transcriptSourceIds, l.cursor))
  }

  /** Run after run, numbered from 0; the number of source rows before each. */
  datatype Runs = Runs(tables: Tables, results: seq<RunResult>, rows: seq<nat>)

  function AfterRuns(t: Tables, plans: seq<Plan>): Runs {
    if plans == [] then Runs(t, [], [|t.sources|])
    else
      var before := AfterRuns(t, plans[..|plans| - 1]);
      var (t', r) := AfterRun(before.tables, plans[|plans| - 1], |plans| - 1);
      Runs(t', before.results + [r], before.rows + [|t'.sources|])
  }

  // ---------------------------------------------------------------------------
  // What one run keeps
  // ---------------------------------------------------------------------------

  ghost function KeysIn(t: Tables): set<DedupeKey> {
    set s | s in t.sources :: s.key
  }

  lemma InsertKeys(t: Tables, a: Artifact, w: Writer)
    ensures KeysIn(Insert(t, a, w)) == KeysIn(t) + {a.key}
  {
    var t' := Insert(t, a, w);
    var last := t'.sources[|t.sources|];
    assert t'.sources == t.sources + [last] && last in t'.sources;
  }

  lemma StepKeys(l: Loop, emit: Emit, fate: Fate, run: nat)
    ensures var (now, l') := (KeysIn(l.tables), LoopStep(l.(stopped := None), emit, fate, run));
      && now <= KeysIn(l'.tables) <= now + KeysOf(emit)
      && (l'.stopped.None? ==> KeysOf(emit) <= KeysIn(l'.tables))
  {
    match emit
    case CheckpointEmit(c) =>
    case ArtifactEmit(a) =>
      InsertKeys(l.tables, a, ByRun(run));
      InsertKeys(l.tables, a, ByRival);
  }

  /** The cursor, kept or persisted, is the one before or the checkpoint just emitted. */
  lemma StepCursors(l: Loop, emit: Emit, fate: Fate, run: nat)
    ensures var (t, l') := (l.tables, LoopStep(l.(stopped := None), emit, fate, run));
      && (CursorIn(l'.tables) == CursorIn(t) || (emit.CheckpointEmit? && CursorIn(l'.tables) == Some(emit.cursor)))
      && (l'.cursor == l.cursor || (emit.CheckpointEmit? && l'.cursor == Some(emit.cursor)))
  {
  }

  /** A drained loop has landed every artifact, and one that stops no other ones. */
  lemma {:induction false} LoopKeys(t: Tables, stream: seq<Emit>, fates: seq<Fate>, n: nat, from: Option<Cursor>,
      run: nat)
    requires n <= |stream|
    ensures var l := LoopAfter(t, stream, fates, n, from, run);
      && KeysIn(t) <= KeysIn(l.tables) <= KeysIn(t) + Emitted(stream[..n])
      && (l.stopped.None? ==> Emitted(stream[..n]) <= KeysIn(l.tables))
  {
    if n > 0 {
      LoopKeys(t, stream, fates, n - 1, from, run);
      EmittedStep(stream, n - 1);
      MoreKeys(KeysIn(t), Emitted(stream[..n - 1]), LoopAfter(t, stream, fates, n - 1, from, run), stream[n - 1],
        FateAt(fates, n - 1), run);
    }
  }

  lemma MoreKeys(start: set<DedupeKey>, emitted: set<DedupeKey>, l: Loop, emit: Emit, fate: Fate, run: nat)
    requires start <= KeysIn(l.tables) <= start + emitted && (l.stopped.None? ==> emitted <= KeysIn(l.tables))
    ensures var l' := if l.stopped.Some? then l else LoopStep(l, emit, fate, run);
      && start <= KeysIn(l'.tables) <= start + (emitted + KeysOf(emit))
      && (l'.stopped.None? ==> emitted + KeysOf(emit) <= KeysIn(l'.tables))
  {
    if l.stopped.None? {
      StepKeys(l, emit, fate, run);
    }
  }

  ghost predicate Issued(stream: seq<Emit>, n: nat, c: Cursor) {
    exists i :: 0 <= i < n && i < |stream| && stream[i] == CheckpointEmit(c)
  }

  /** A checkpoint that some stream of the connector can issue. */
  ghost predicate Issues(conn: Connector, c: Cursor) {
    || Issued(conn.backfill, |conn.backfill|, c)
    || exists from :: Issued(conn.incremental(from), |conn.incremental(from)|, c)
  }

  ghost predicate OldOrIssued(cursor: Option<Cursor>, before: Option<Cursor>, stream: seq<Emit>, n: nat) {
    cursor == before || (cursor.Some? && Issued(stream, n, cursor.value))
  }

  lemma {:induction false} LoopIssues(t: Tables, stream: seq<Emit>, fates: seq<Fate>, n: nat, from: Option<Cursor>,
      run: nat)
    requires n <= |stream|
    ensures var l := LoopAfter(t, stream, fates, n, from, run);
      OldOrIssued(CursorIn(l.tables), CursorIn(t), stream, n) && OldOrIssued(l.cursor, from, stream, n)
  {
    if n > 0 {
      LoopIssues(t, stream, fates, n - 1, from, run);
      StepCursors(LoopAfter(t, stream, fates, n - 1, from, run), stream[n - 1], FateAt(fates, n - 1), run);
    }
  }

  /** After a run the persisted cursor is none, the one before, or one that the connector issued. */
  lemma RunIssues(t: Tables, plan: Plan, run: nat)
    ensures var cursor := CursorIn(AfterRun(t, plan, run).0);
      cursor.None? || cursor == CursorIn(t) || Issues(plan.conn, cursor.value)
  {
    var from := FromCursor(t, plan.mode);
    var stream := StreamOf(plan.conn, plan.mode, from);
    LoopIssues(WithSync(t, Patch(Some(Running), None)), stream, plan.fates, |stream|, from, run);
  }

  /** Everything that either cursor covers is in the tables. */
  ghost predicate CursorsCovered(covers: Coverage, l: Loop) {
    Covered(covers, CursorIn(l.tables)) <= KeysIn(l.tables) && Covered(covers, l.cursor) <= KeysIn(l.tables)
  }

  lemma StepCovered(covers: Coverage, l: Loop, emit: Emit, fate: Fate, run: nat)
    requires CursorsCovered(covers, l) && (emit.CheckpointEmit? ==> covers(emit.cursor) <= KeysIn(l.tables))
    ensures CursorsCovered(covers, LoopStep(l.(stopped := None), emit, fate, run))
  {
    StepKeys(l, emit, fate, run);
    StepCursors(l, emit, fate, run);
  }

  /** ... at every moment of the loop, however it ends. */
  lemma {:induction false} LoopCovered(covers: Coverage, t: Tables, stream: seq<Emit>, fates: seq<Fate>, n: nat,
      from: Option<Cursor>, run: nat)
    requires n <= |stream| && CursorsCovered(covers, Loop(t, 0, 0, [], from, None))
    requires forall i :: 0 <= i < |stream| && stream[i].CheckpointEmit? ==>
      covers(stream[i].cursor) <= Covered(covers, from) + Emitted(stream[..i])
    ensures CursorsCovered(covers, LoopAfter(t, stream, fates, n, from, run))
  {
    if n > 0 {
      LoopCovered(covers, t, stream, fates, n - 1, from, run);
      LoopKeys(t, stream, fates, n - 1, from, run);
      var l := LoopAfter(t, stream, fates, n - 1, from, run);
      if l.stopped.None? {
        StepCovered(covers, l, stream[n - 1], FateAt(fates, n - 1), run);
      }
    }
  }

  /** One run, whatever befalls it: no key is lost, none lands that is not upstream, a completed run has
      landed everything upstream, and the persisted cursor covers only what has landed. */
  lemma {:induction false} RunKeeps(covers: Coverage, t: Tables, plan: Plan, run: nat)
    requires KeepsPromise(covers, plan.upstream, plan.conn) && Covered(covers, CursorIn(t)) <= KeysIn(t)
    ensures var (t', r) := AfterRun(t, plan, run);
      && KeysIn(t) <= KeysIn(t') <= KeysIn(t) + plan.upstream
      && (r.Completed? ==> plan.upstream <= KeysIn(t'))
      && Covered(covers, CursorIn(t')) <= KeysIn(t')
  {
    var from := FromCursor(t, plan.mode);
    var stream := StreamOf(plan.conn, plan.mode, from);
    var start := WithSync(t, Patch(Some(Running), None));
    assert StreamKeepsPromise(covers, plan.upstream, from, stream);
    assert stream[..|stream|] == stream;
    LoopKeys(start, stream, plan.fates, |stream|, from, run);
    LoopCovered(covers, start, stream, plan.fates, |stream|, from, run);
  }

  // ---------------------------------------------------------------------------
  // Where a run leaves the cursor and the status
  // ---------------------------------------------------------------------------

  /** Emit `i` does not go through: the run throws or dies there.  An ACL is only fetched, and a row only
      written, for an artifact that neither the tables nor the stream before had. */
  ghost predicate StopsAt(t: Tables, stream: seq<Emit>, fates: seq<Fate>, i: nat)
    requires i < |stream|
  {
    var fate := FateAt(fates, i);
    match stream[i]
    case CheckpointEmit(_) => !fate.Fine?
    case ArtifactEmit(a) =>
      || fate.ThrowsFirst? || fate.DiesFirst? || fate.DiesAfter?
      || ((fate.ThrowsOnAcl? || fate.DiesOnAcl?) && a.key !in KeysIn(t) + Emitted(stream[..i]))
  }

  /** The run stops at emit `k`, or drains the stream when `k` is its length. */
  ghost predicate StopsFirstAt(t: Tables, stream: seq<Emit>, fates: seq<Fate>, k: nat) {
    && k <= |stream| && (forall i :: 0 <= i < k ==> !StopsAt(t, stream, fates, i))
    && (k < |stream| ==> StopsAt(t, stream, fates, k))
  }

  ghost predicate NoneAfter(stream: seq<Emit>, i: int) {
    forall j :: i < j < |stream| && j >= 0 ==> !stream[j].CheckpointEmit?
  }

  /** `cursor` is the last checkpoint of `stream`, or `otherwise` if it has none. */
  ghost predicate LastCheckpoint(stream: seq<Emit>, otherwise: Option<Cursor>, cursor: Option<Cursor>) {
    || (cursor == otherwise && NoneAfter(stream, -1))
    || exists i :: 0 <= i < |stream| && NoneAfter(stream, i) && stream[i].CheckpointEmit?
         && cursor == Some(stream[i].cursor)
  }

  lemma LastCheckpointSnoc(stream: seq<Emit>, emit: Emit, otherwise: Option<Cursor>, before: Option<Cursor>,
      after: Option<Cursor>)
    requires LastCheckpoint(stream, otherwise, before)
    requires after == if emit.CheckpointEmit? then Some(emit.cursor) else before
    ensures LastCheckpoint(stream + [emit], otherwise, after)
  {
    var all := stream + [emit];
    if emit.CheckpointEmit? {
      assert NoneAfter(all, |stream|) && all[|stream|] == emit;
    } else if before == otherwise && NoneAfter(stream, -1) {
      assert NoneAfter(all, -1);
    } else {
      var i :| 0 <= i < |stream| && NoneAfter(stream, i) && stream[i].CheckpointEmit?
        && before == Some(stream[i].cursor);
      assert NoneAfter(all, i) && all[i] == stream[i];
    }
  }

  lemma KeyIsThere(t: Tables, key: DedupeKey)
    ensures PositionOf(t.sources, key).Some? <==> key in KeysIn(t)
  {
    if key in KeysIn(t) {
      var s :| s in t.sources && s.key == key;
      var i :| 0 <= i < |t.sources| && t.sources[i] == s;
    }
  }

  /** Up to where it stops, the loop keeps and persists the last checkpoint, and counts the artifacts. */
  ghost predicate OnCourse(l: Loop, t: Tables, stream: seq<Emit>, n: nat, from: Option<Cursor>)
    requires n <= |stream|
  {
    && l.stopped.None? && KeysIn(l.tables) == KeysIn(t) + Emitted(stream[..n])
    && LastCheckpoint(stream[..n], from, l.cursor) && LastCheckpoint(stream[..n], CursorIn(t), CursorIn(l.tables))
    && l.tables.sync.Some? && t.sync.Some? && l.tables.sync.value.status == t.sync.value.status
    && l.artifactCount == Artifacts(stream[..n])
  }

  lemma {:induction false} LoopOnCourse(t: Tables, stream: seq<Emit>, fates: seq<Fate>, n: nat, from: Option<Cursor>,
      run: nat)
    requires n <= |stream| && t.sync.Some? && forall i :: 0 <= i < n ==> !StopsAt(t, stream, fates, i)
    ensures OnCourse(LoopAfter(t, stream, fates, n, from, run), t, stream, n, from)
  {
    if n == 0 {
      StartsOnCourse(t, stream, fates, from, run);
    } else {
      LoopOnCourse(t, stream, fates, n - 1, from, run);
      StepOnCourse(t, stream, fates, n - 1, from, run, LoopAfter(t, stream, fates, n - 1, from, run));
      LoopUnfolds(t, stream, fates, n - 1, from, run);
    }
  }

  lemma LoopUnfolds(t: Tables, stream: seq<Emit>, fates: seq<Fate>, n: nat, from: Option<Cursor>, run: nat)
    requires n < |stream| && LoopAfter(t, stream, fates, n, from, run).stopped.None?
    ensures LoopAfter(t, stream, fates, n + 1, from, run) ==
      LoopStep(LoopAfter(t, stream, fates, n, from, run), stream[n], FateAt(fates, n), run)
  {
  }

  lemma StartsOnCourse(t: Tables, stream: seq<Emit>, fates: seq<Fate>, from: Option<Cursor>, run: nat)
    requires t.sync.Some?
    ensures OnCourse(LoopAfter(t, stream, fates, 0, from, run), t, stream, 0, from)
  {
    assert stream[..0] == [] && NoneAfter(stream[..0], -1);
  }

  lemma StepOnCourse(t: Tables, stream: seq<Emit>, fates: seq<Fate>, n: nat, from: Option<Cursor>, run: nat, l: Loop)
    requires n < |stream| && OnCourse(l, t, stream, n, from) && !StopsAt(t, stream, fates, n)
    ensures OnCourse(LoopStep(l, stream[n], FateAt(fates, n), run), t, stream, n + 1, from)
  {
    var l' := LoopStep(l, stream[n], FateAt(fates, n), run);
    assert stream[..n + 1] == stream[..n] + [stream[n]];
    EmittedStep(stream, n);
    StepKeys(l, stream[n], FateAt(fates, n), run);
    StepSync(l, stream[n], FateAt(fates, n), run);
    if stream[n].ArtifactEmit? {
      KeyIsThere(l.tables, stream[n].artifact.key);
    }
    LastCheckpointSnoc(stream[..n], stream[n], from, l.cursor, l'.cursor);
    LastCheckpointSnoc(stream[..n], stream[n], CursorIn(t), CursorIn(l.tables), CursorIn(l'.tables));
  }

  /** A checkpoint that goes through is persisted and leaves the status; an artifact leaves both. */
  lemma StepSync(l: Loop, emit: Emit, fate: Fate, run: nat)
    requires l.tables.sync.Some?
    ensures var l' := LoopStep(l.(stopped := None), emit, fate, run);
      && l'.tables.sync.Some? && l'.tables.sync.value.status == l.tables.sync.value.status
      && CursorIn(l'.tables) ==
         (if emit.CheckpointEmit? && (fate.Fine? || fate.DiesAfter?) then Some(emit.cursor) else CursorIn(l.tables))
      && (l'.stopped.None? ==> l'.cursor == if emit.CheckpointEmit? then Some(emit.cursor) else l.cursor)
  {
  }

  /** The loop stops at `k`: how, and with which cursor. */
  lemma LoopStopsAt(t: Tables, stream: seq<Emit>, fates: seq<Fate>, k: nat, from: Option<Cursor>, run: nat)
    requires t.sync.Some? && StopsFirstAt(t, stream, fates, k) && k < |stream|
    ensures var (l, fate) := (LoopAfter(t, stream, fates, |stream|, from, run), FateAt(fates, k));
      && l.stopped == Some(if fate.ThrowsFirst? || fate.ThrowsOnAcl? then StepThrew else StepDied)
      && LastCheckpoint(stream[..if fate.DiesAfter? then k + 1 else k], CursorIn(t), CursorIn(l.tables))
      && l.tables.sync.Some? && l.tables.sync.value.status == t.sync.value.status
  {
    var l, fate := LoopAfter(t, stream, fates, k, from, run), FateAt(fates, k);
    LoopOnCourse(t, stream, fates, k, from, run);
    StepSync(l, stream[k], fate, run);
    if stream[k].ArtifactEmit? {
      KeyIsThere(l.tables, stream[k].artifact.key);
    }
    StopCursor(stream, k, CursorIn(t), CursorIn(l.tables));
    StoppedLoopStays(t, stream, fates, k + 1, |stream|, from, run);
  }

  lemma StopCursor(stream: seq<Emit>, k: nat, stored: Option<Cursor>, cursor: Option<Cursor>)
    requires k < |stream| && LastCheckpoint(stream[..k], stored, cursor)
    ensures var after := if stream[k].CheckpointEmit? then Some(stream[k].cursor) else cursor;
      LastCheckpoint(stream[..k + 1], stored, after)
  {
    assert stream[..k + 1] == stream[..k] + [stream[k]];
    LastCheckpointSnoc(stream[..k], stream[k], stored, cursor,
      if stream[k].CheckpointEmit? then Some(stream[k].cursor) else cursor);
  }

  /** An incremental run starts from the stored cursor, a backfill from none. */
  ghost function StartCursor(t: Tables, plan: Plan): Option<Cursor> {
    if plan.mode == Incremental && t.sync.Some? then t.sync.value.cursor else None
  }

  ghost function StreamFrom(plan: Plan, from: Option<Cursor>): seq<Emit> {
    if plan.mode == Backfill then plan.conn.backfill else plan.conn.incremental(from)
  }

  /** The row records an artifact of the stream. */
  ghost predicate RecordsOneOf(s: Source, stream: seq<Emit>) {
    exists a :: ArtifactEmit(a) in stream && a.key == s.key && a.externalId == s.externalId
      && a.isTranscript == s.isTranscript
  }

  ghost predicate RowsRecord(t: Tables, now: Tables, stream: seq<Emit>) {
    && t.sources <= now.sources
    && forall i :: |t.sources| <= i < |now.sources| ==>
         now.sources[i].aclSnapshotId == i && RecordsOneOf(now.sources[i], stream)
  }

  lemma StepRecords(t: Tables, stream: seq<Emit>, l: Loop, emit: Emit, fate: Fate, run: nat)
    requires RowsRecord(t, l.tables, stream) && emit in stream
    ensures RowsRecord(t, LoopStep(l, emit, fate, run).tables, stream)
  {
    var now := LoopStep(l, emit, fate, run).tables;
    if emit.ArtifactEmit? {
      var a := emit.artifact;
      assert RecordsOneOf(Source(a.key, a.externalId, a.isTranscript, |l.tables.sources|), stream);
    }
  }

  lemma {:induction false} LoopRecords(t: Tables, stream: seq<Emit>, fates: seq<Fate>, n: nat, from: Option<Cursor>,
      run: nat)
    requires n <= |stream|
    ensures RowsRecord(t, LoopAfter(t, stream, fates, n, from, run).tables, stream)
  {
    if n > 0 {
      LoopRecords(t, stream, fates, n - 1, from, run);
      StepRecords(t, stream, LoopAfter(t, stream, fates, n - 1, from, run), stream[n - 1], FateAt(fates, n - 1), run);
    }
  }

  /** Every row a run adds records an artifact of its stream, key, external id and kind, with its own snapshot. */
  lemma {:induction false} RowsRecordArtifacts(t: Tables, plan: Plan, run: nat)
    ensures RowsRecord(t, AfterRun(t, plan, run).0, StreamFrom(plan, StartCursor(t, plan)))
  {
    var from := StartCursor(t, plan);
    var stream := StreamFrom(plan, from);
    LoopRecords(WithSync(t, Patch(Some(Running), None)), stream, plan.fates, |stream|, from, run);
  }

  /** What the sync state of a connector says after a run, read off its stream alone.  A run that drains its
      stream persists and returns the last checkpoint, or else the cursor it started from; one that stops
      leaves the last checkpoint that went through, or else the stored one, and says `error` if it threw. */
  lemma {:induction false} RunCursorExactly(t: Tables, plan: Plan, run: nat, k: nat)
    requires var from := StartCursor(t, plan);
      StopsFirstAt(t, StreamFrom(plan, from), plan.fates, k)
    ensures var from := StartCursor(t, plan);
      var (stream, t', r) := (StreamFrom(plan, from), AfterRun(t, plan, run).0, AfterRun(t, plan, run).1);
      && t'.sync.Some?
      && var (status, cursor) := (t'.sync.value.status, t'.sync.value.cursor);
         if k < |stream| then
           var (fate, n) := (FateAt(plan.fates, k), if FateAt(plan.fates, k).DiesAfter? then k + 1 else k);
           && LastCheckpoint(stream[..n], CursorIn(t), cursor)
           && if fate.ThrowsFirst? || fate.ThrowsOnAcl? then r == Failed && status == Error
              else r == Killed && status == Running
         else if plan.ending.DiesBeforeIdle? then
           r == Killed && status == Running && LastCheckpoint(stream, CursorIn(t), cursor)
         else
           && status == Idle && LastCheckpoint(stream, from, cursor)
           && if plan.ending.DiesAfterIdle? then r == Killed
              else r.Completed? && r.cursor == cursor && r.artifactCount == Artifacts(stream)
  {
    var from := FromCursor(t, plan.mode);
    var stream := StreamOf(plan.conn, plan.mode, from);
    var start := WithSync(t, Patch(Some(Running), None));
    forall i | 0 <= i < |stream| ensures StopsAt(start, stream, plan.fates, i) <==> StopsAt(t, stream, plan.fates, i) {
    }
    if k < |stream| {
      LoopStopsAt(start, stream, plan.fates, k, from, run);
    } else {
      LoopOnCourse(start, stream, plan.fates, |stream|, from, run);
      assert stream[..|stream|] == stream;
    }
  }

  /** Every run stops somewhere or drains its stream. */
  lemma {:induction false} StopExists(t: Tables, stream: seq<Emit>, fates: seq<Fate>, from: nat) returns (k: nat)
    requires from <= |stream| && forall i :: 0 <= i < from ==> !StopsAt(t, stream, fates, i)
    ensures StopsFirstAt(t, stream, fates, k)
    decreases |stream| - from
  {
    if from == |stream| || StopsAt(t, stream, fates, from) {
      k := from;
    } else {
      k := StopExists(t, stream, fates, from + 1);
    }
  }

  // ---------------------------------------------------------------------------
  // The activity
  // ---------------------------------------------------------------------------

  class SyncStore {
    const connectorId: string
    var sources: seq<Source>
    var acls: seq<Acl>
    var graphWrites: seq<nat>
    var sync: Option<SyncState>
    ghost var writers: seq<Writer>

    ghost function Keys(): set<DedupeKey>
      reads this
    {
      KeysIn(Contents())
    }

    ghost function Contents(): Tables
      reads this
    {
      Tables(sources, writers, sync)
    }

    /** One row per dedupe key, each with exactly its own ACL snapshot and its own graph write. */
    ghost predicate Valid()
      reads this
    {
      && (forall i, j :: 0 <= i < j < |sources| ==> sources[i].key != sources[j].key)
      && |acls| == |sources| == |graphWrites| == |writers|
      && (forall i :: 0 <= i < |sources| ==>
            && sources[i].aclSnapshotId == i
            && acls[i].sourceRef == connectorId + ":" + sources[i].externalId
            && graphWrites[i] == i)
    }

    /** What every step guarantees to everybody else: rows are only ever appended
        (and `Valid` ties snapshots and graph writes to them). */
    twostate predicate Grew()
      reads this
    {
      old(sources) <= sources
    }

    method FindSource(key: DedupeKey) returns (id: Option<nat>)
      ensures id == PositionOf(sources, key)
      ensures id.None? <==> key !in Keys()
    {
      id := None;
      for i := 0 to |sources|
        invariant id == PositionOf(sources[..i], key)
      {
        assert sources[..i + 1][..i] == sources[..i];
        if id.None? && sources[i].key == key {
          id := Some(i);
        }
      }
      assert sources[..|sources|] == sources;
    }

    /** Insert or update on `(engagement, connector)`; an absent field of the patch keeps the stored value. */
    method UpsertSyncState(patch: Patch)
      requires Valid()
      modifies this`sync
      ensures Valid()
      ensures Contents() == WithSync(old(Contents()), patch)
    {
      match sync {
        case None =>
          sync := Some(SyncState(if patch.cursor.Some? then patch.cursor.value else None,
                                 if patch.status.Some? then patch.status.value else Running));
        case Some(s) =>
          sync := Some(SyncState(if patch.cursor.Some? then patch.cursor.value else s.cursor,
                                 if patch.status.Some? then patch.status.value else s.status));
      }
    }

    method InsertRow(a: Artifact, ghost w: Writer) returns (id: nat)
      requires Valid() && a.key !in Keys()
      modifies this`sources, this`acls, this`graphWrites, this`writers
      ensures Valid() && Grew()
      ensures id == |old(sources)| && Contents() == Insert(old(Contents()), a, w)
      ensures Keys() == old(Keys()) + {a.key}
    {
      id := |sources|;
      sources := sources + [Source(a.key, a.externalId, a.isTranscript, |acls|)];
      acls := acls + [Acl(connectorId + ":" + a.externalId)];
      graphWrites := graphWrites + [id];
      writers := writers + [w];
      assert forall i :: 0 <= i < id ==> sources[i] == old(sources)[i] && sources[i].key in old(Keys());
    }

    /** The transaction of `ingestArtifact`: re-check, insert, ACL snapshot linked back, graph. */
    method LandInTransaction(a: Artifact, rivalInside: bool, ghost run: nat) returns (r: Landing)
      requires Valid()
      modifies this`sources, this`acls, this`graphWrites, this`writers
      ensures Valid() && Grew()
      ensures Keys() == old(Keys()) + {a.key}
      ensures match PositionOf(old(sources), a.key)
        case Some(id) => Contents() == old(Contents()) && r == Landed(false, id)
        case None =>
          && Contents() == Insert(old(Contents()), a, if rivalInside then ByRival else ByRun(run))
          && r == Landed(!rivalInside, |old(sources)|)
    {
      var again := FindSource(a.key);
      if again.Some? {
        return Landed(false, again.value);
      }
      if rivalInside {
        var rivalId := InsertRow(a, ByRival);
        PositionOfLast(old(sources), sources[|sources| - 1]);
      }
      // the insert does nothing on a conflict with the unique index
      var conflict := FindSource(a.key);
      if conflict.Some? {
        return Landed(false, conflict.value);
      }
      var id := InsertRow(a, ByRun(run));
      return Landed(true, id);
    }

    /** The part of `ingestArtifact` after the pre-check has found nothing. */
    method LandNew(a: Artifact, rival: Rival, ghost run: nat) returns (r: Landing)
      requires Valid() && a.key !in Keys()
      modifies this`sources, this`acls, this`graphWrites, this`writers
      ensures Valid() && Grew()
      ensures Keys() == old(Keys()) + {a.key}
      ensures Contents() == Insert(old(Contents()), a, if rival.NoRival? then ByRun(run) else ByRival)
      ensures r == Landed(rival.NoRival?, |old(sources)|)
    {
      if rival.BeforeTransaction? {
        var rivalId := InsertRow(a, ByRival);
        PositionOfLast(old(sources), sources[|sources| - 1]);
      }
      r := LandInTransaction(a, rival.InsideTransaction?, run);
    }

    /** `ingestArtifact`: pre-check outside the transaction, ACL fetch, then the transaction. */
    method IngestArtifact(a: Artifact, fate: Fate, ghost run: nat) returns (r: Landing)
      requires Valid()
      modifies this`sources, this`acls, this`graphWrites, this`writers
      ensures Valid() && Grew()
      ensures (Contents(), r) == AfterIngest(old(Contents()), a, fate, run)
      ensures old(Keys()) <= Keys() <= old(Keys()) + {a.key}
      ensures r.Landed? ==> a.key in Keys()
    {
      if fate.ThrowsFirst? {
        return Threw;
      }
      if fate.DiesFirst? {
        return Died;
      }
      var existing := FindSource(a.key);
      if existing.Some? {
        return if fate.DiesAfter? then Died else Landed(false, existing.value);
      }
      if fate.ThrowsOnAcl? {
        return Threw;
      }
      if fate.DiesOnAcl? {
        return Died;
      }
      r := LandNew(a, if fate.Fine? then fate.rival else NoRival, run);
      if fate.DiesAfter? {
        return Died;
      }
    }

    /** The body of the loop for one emit. */
    method ProcessEmit(emit: Emit, fate: Fate, ghost run: nat) returns (step: Step)
      requires Valid() && sync.Some?
      modifies this
      ensures Valid() && Grew() && sync.Some?
      ensures (Contents(), step) == AfterEmit(old(Contents()), emit, fate, run)
      ensures old(Keys()) <= Keys() <= old(Keys()) + KeysOf(emit)
      ensures step.Advanced? ==> KeysOf(emit) <= Keys()
    {
      match emit {
        case CheckpointEmit(c) =>
          if fate.ThrowsFirst? || fate.ThrowsOnAcl? {
            return StepThrew;
          }
          if fate.DiesFirst? || fate.DiesOnAcl? {
            return StepDied;
          }
          UpsertSyncState(Patch(None, Some(Some(c))));
          return if fate.DiesAfter? then StepDied else Advanced(false, 0);
        case ArtifactEmit(a) =>
          var landed := IngestArtifact(a, fate, run);
          match landed {
            case Threw => return StepThrew;
            case Died => return StepDied;
            case Landed(inserted, sourceId) => return Advanced(inserted, sourceId);
          }
      }
    }

    /** ... with the counters of the loop. */
    method Advance(emit: Emit, fate: Fate, ghost run: nat, ghost l: Loop, counts: (nat, nat, seq<nat>, Option<Cursor>))
      returns (counts': (nat, nat, seq<nat>, Option<Cursor>), stopped: Option<Step>)
      requires Valid() && sync.Some? && l == Loop(Contents(), counts.0, counts.1, counts.2, counts.3, None)
      modifies this
      ensures Valid() && Grew() && sync.Some?
      ensures Loop(Contents(), counts'.0, counts'.1, counts'.2, counts'.3, stopped) == LoopStep(l, emit, fate, run)
      ensures old(Keys()) <= Keys() <= old(Keys()) + KeysOf(emit)
      ensures stopped.None? ==> KeysOf(emit) <= Keys()
    {
      var (artifactCount, sourceCount, transcriptSourceIds, cursor) := counts;
      var step := ProcessEmit(emit, fate, run);
      if !step.Advanced? {
        return counts, Some(step);
      }
      match emit {
        case CheckpointEmit(c) =>
          return (artifactCount, sourceCount, transcriptSourceIds, Some(c)), None;
        case ArtifactEmit(a) =>
          artifactCount := artifactCount + 1;
          if step.inserted {
            sourceCount := sourceCount + 1;
            if a.isTranscript {
              transcriptSourceIds := transcriptSourceIds + [step.sourceId];
            }
          }
          return (artifactCount, sourceCount, transcriptSourceIds, cursor), None;
      }
    }

    /** The `for await` loop over the stream. */
    method Consume(stream: seq<Emit>, fates: seq<Fate>, fromCursor: Option<Cursor>, ghost run: nat)
      returns (counts: (nat, nat, seq<nat>, Option<Cursor>), stopped: Option<Step>)
      requires Valid() && sync.Some?
      modifies this
      ensures Valid() && Grew() && sync.Some?
      ensures Loop(Contents(), counts.0, counts.1, counts.2, counts.3, stopped)
           == LoopAfter(old(Contents()), stream, fates, |stream|, fromCursor, run)
      ensures old(Keys()) <= Keys() <= old(Keys()) + Emitted(stream)
      ensures stopped.None? ==> Emitted(stream) <= Keys()
    {
      counts, stopped := (0, 0, [], fromCursor), None;
      ghost var start := Contents();
      for i := 0 to |stream|
        invariant Valid() && Grew() && sync.Some? && stopped.None?
        invariant Loop(Contents(), counts.0, counts.1, counts.2, counts.3, stopped)
               == LoopAfter(start, stream, fates, i, fromCursor, run)
        invariant Emitted(stream[..i]) <= Keys() <= old(Keys()) + Emitted(stream[..i])
        invariant old(Keys()) <= Keys()
      {
        EmittedStep(stream, i);
        EmittedPrefix(stream, i + 1);
        counts, stopped := Advance(stream[i], FateAt(fates, i), run,
          LoopAfter(start, stream, fates, i, fromCursor, run), counts);
        if stopped.Some? {
          StoppedLoopStays(start, stream, fates, i + 1, |stream|, fromCursor, run);
          return;
        }
      }
      assert stream[..|stream|] == stream;
    }

    /** `runConnectorSyncActivity`.  Whatever happens to it, nothing is there twice and everything covered
        by the persisted cursor is in the tables; if it completes, so is everything upstream. */
    method RunConnectorSyncActivity(plan: Plan, ghost covers: Coverage, ghost run: nat) returns (r: RunResult)
      requires Valid() && KeepsPromise(covers, plan.upstream, plan.conn)
      requires Covered(covers, CursorIn(Contents())) <= Keys()
      modifies this
      ensures Valid() && Grew()
      ensures (Contents(), r) == AfterRun(old(Contents()), plan, run)
      ensures old(Keys()) <= Keys() <= old(Keys()) + plan.upstream
      ensures r.Completed? ==> Keys() == old(Keys()) + plan.upstream
      ensures Covered(covers, CursorIn(Contents())) <= Keys()
    {
      RunKeeps(covers, Contents(), plan, run);
      var fromCursor := if plan.mode.Incremental? && sync.Some? then sync.value.cursor else None;
      UpsertSyncState(Patch(Some(Running), None));
      var stream := if plan.mode.Backfill? then plan.conn.backfill else plan.conn.incremental(fromCursor);
      var counts, stopped := Consume(stream, plan.fates, fromCursor, run);
      if stopped.Some? {
        if stopped.value.StepThrew? {
          UpsertSyncState(Patch(Some(Error), None));
          return Failed;
        }
        return Killed;
      }
      if plan.ending.DiesBeforeIdle? {
        return Killed;
      }
      var (artifactCount, sourceCount, transcriptSourceIds, cursor) := counts;
      UpsertSyncState(Patch(Some(Idle), Some(cursor)));
      if plan.ending.DiesAfterIdle? {
        return Killed;
      }
      return Completed(artifactCount, sourceCount, transcriptSourceIds, cursor);
    }
  }

  lemma {:induction false} PositionOfLast(sources: seq<Source>, s: Source)
    requires forall i :: 0 <= i < |sources| ==> sources[i].key != s.key
    ensures PositionOf(sources + [s], s.key) == Some(|sources|)
  {
    assert (sources + [s])[..|sources|] == sources;
  }

  lemma {:induction false} StoppedLoopStays(t: Tables, stream: seq<Emit>, fates: seq<Fate>, n: nat, m: nat,
      from: Option<Cursor>, run: nat)
    requires n <= m <= |stream| && LoopAfter(t, stream, fates, n, from, run).stopped.Some?
    ensures LoopAfter(t, stream, fates, m, from, run) == LoopAfter(t, stream, fates, n, from, run)
    decreases m
  {
    if n < m {
      StoppedLoopStays(t, stream, fates, n, m - 1, from, run);
    }
  }

  // ---------------------------------------------------------------------------
  // Sequences of runs
  // ---------------------------------------------------------------------------

  function Upstreams(plans: seq<Plan>): set<DedupeKey> {
    if plans == [] then {} else Upstreams(plans[..|plans| - 1]) + plans[|plans| - 1].upstream
  }

  ghost predicate Growing(plans: seq<Plan>) {
    forall i, j :: 0 <= i < j < |plans| ==> plans[i].upstream <= plans[j].upstream
  }

  lemma {:induction false} GrowingUpstreams(plans: seq<Plan>)
    ensures Growing(plans) && plans != [] ==> Upstreams(plans) == plans[|plans| - 1].upstream
  {
    if Growing(plans) && plans != [] {
      var n := |plans| - 1;
      GrowingUpstreams(plans[..n]);
      assert n == 0 ==> Upstreams(plans[..n]) == {};
    }
  }

  /** Each plan's connector keeps its promise, under its own coverage. */
  ghost predicate Promised(plans: seq<Plan>, coverages: seq<Coverage>) {
    && |coverages| == |plans|
    && forall i :: 0 <= i < |plans| ==> KeepsPromise(coverages[i], plans[i].upstream, plans[i].conn)
  }

  /** What a later connector leaves out from a cursor, the one that issued the cursor had brought. */
  ghost predicate Inherited(plans: seq<Plan>, coverages: seq<Coverage>)
    requires |coverages| == |plans|
  {
    forall i, j, c :: 0 <= i < j < |plans| && Issues(plans[i].conn, c) ==> coverages[j](c) <= coverages[i](c)
  }

  /** From the cursor in `t`, none of the connectors leaves out anything that is missing in `t`. */
  ghost predicate CoveredFrom(t: Tables, coverages: seq<Coverage>, n: nat) {
    forall j :: n <= j < |coverages| ==> Covered(coverages[j], CursorIn(t)) <= KeysIn(t)
  }

  /** What becomes of the keys over a sequence of runs. */
  ghost predicate KeysKept(t: Tables, plans: seq<Plan>) {
    var all := AfterRuns(t, plans);
    && |all.results| == |plans|
    && KeysIn(t) <= KeysIn(all.tables) <= KeysIn(t) + Upstreams(plans)
    && forall i :: 0 <= i < |plans| && all.results[i].Completed? ==> plans[i].upstream <= KeysIn(all.tables)
  }

  lemma KeysKeptStep(t: Tables, plans: seq<Plan>, covers: Coverage)
    requires plans != [] && KeysKept(t, plans[..|plans| - 1])
    requires KeepsPromise(covers, plans[|plans| - 1].upstream, plans[|plans| - 1].conn)
    requires var before := AfterRuns(t, plans[..|plans| - 1]).tables;
      Covered(covers, CursorIn(before)) <= KeysIn(before)
    ensures KeysKept(t, plans)
  {
    var n := |plans| - 1;
    var before, all := AfterRuns(t, plans[..n]), AfterRuns(t, plans);
    RunKeeps(covers, before.tables, plans[n], n);
    forall i | 0 <= i <= n && all.results[i].Completed? ensures plans[i].upstream <= KeysIn(all.tables) {
      if i < n {
        assert all.results[i] == AfterRuns(t, plans[..n]).results[i] && plans[..n][i] == plans[i];
      }
    }
  }

  lemma CoveredFromStep(t: Tables, plans: seq<Plan>, coverages: seq<Coverage>, n: nat, run: nat)
    requires n < |plans| && Promised(plans, coverages) && Inherited(plans, coverages) && CoveredFrom(t, coverages, n)
    ensures CoveredFrom(AfterRun(t, plans[n], run).0, coverages, n + 1)
  {
    var t' := AfterRun(t, plans[n], run).0;
    RunKeeps(coverages[n], t, plans[n], run);
    RunIssues(t, plans[n], run);
    forall j | n < j < |coverages| ensures Covered(coverages[j], CursorIn(t')) <= KeysIn(t') {
      if CursorIn(t').Some? && CursorIn(t') != CursorIn(t) {
        assert coverages[j](CursorIn(t').value) <= coverages[n](CursorIn(t').value);
      }
    }
  }

  /** Any sequence of runs, each with its own mode, connector, upstream and bad luck.  Nothing that ever
      landed is lost, nothing lands that was not upstream of some run, and a completed run leaves all of
      its upstream in the tables.  Between runs upstream artifacts may come, change and go: a connector
      need only bring again, from an earlier connector's cursor, what that one had not yet brought. */
  lemma {:induction false} SequenceKeeps(t: Tables, plans: seq<Plan>, coverages: seq<Coverage>, n: nat)
    requires n <= |plans| && Promised(plans, coverages) && Inherited(plans, coverages) && CoveredFrom(t, coverages, 0)
    ensures KeysKept(t, plans[..n]) && CoveredFrom(AfterRuns(t, plans[..n]).tables, coverages, n)
    decreases n
  {
    if n == 0 {
      assert plans[..0] == [];
    } else {
      SequenceKeeps(t, plans, coverages, n - 1);
      CoveredFromNext(t, plans, coverages, n - 1);
      KeysKeptNext(t, plans, coverages, n - 1);
    }
  }

  lemma OneRunMore(t: Tables, plans: seq<Plan>, n: nat)
    requires n < |plans|
    ensures plans[..n + 1][..n] == plans[..n] && plans[..n + 1][n] == plans[n]
    ensures AfterRuns(t, plans[..n + 1]).tables == AfterRun(AfterRuns(t, plans[..n]).tables, plans[n], n).0
  {
    assert plans[..n + 1][..n] == plans[..n];
  }

  lemma CoveredFromNext(t: Tables, plans: seq<Plan>, coverages: seq<Coverage>, n: nat)
    requires n < |plans| && Promised(plans, coverages) && Inherited(plans, coverages)
    requires CoveredFrom(AfterRuns(t, plans[..n]).tables, coverages, n)
    ensures CoveredFrom(AfterRuns(t, plans[..n + 1]).tables, coverages, n + 1)
  {
    OneRunMore(t, plans, n);
    CoveredFromStep(AfterRuns(t, plans[..n]).tables, plans, coverages, n, n);
  }

  lemma KeysKeptNext(t: Tables, plans: seq<Plan>, coverages: seq<Coverage>, n: nat)
    requires n < |plans| && Promised(plans, coverages) && KeysKept(t, plans[..n])
    requires CoveredFrom(AfterRuns(t, plans[..n]).tables, coverages, n)
    ensures KeysKept(t, plans[..n + 1])
  {
    OneRunMore(t, plans, n);
    KeysKeptStep(t, plans[..n + 1], coverages[n]);
  }

  /** While the upstream only grows, a sequence whose last run completes leaves exactly what one
      undisturbed backfill would. */
  lemma {:induction false} GrowingSequence(t: Tables, plans: seq<Plan>)
    requires KeysKept(t, plans) && Growing(plans) && plans != []
    requires AfterRuns(t, plans).results[|plans| - 1].Completed?
    ensures KeysIn(AfterRuns(t, plans).tables) == KeysIn(t) + plans[|plans| - 1].upstream
  {
    GrowingUpstreams(plans);
  }

  /** One coverage for all runs: enough while no key that a cursor covers ever leaves the upstream. */
  lemma {:induction false} OneCoverageKeeps(t: Tables, plans: seq<Plan>, covers: Coverage)
    requires forall i :: 0 <= i < |plans| ==> KeepsPromise(covers, plans[i].upstream, plans[i].conn)
    requires Covered(covers, CursorIn(t)) <= KeysIn(t)
    ensures KeysKept(t, plans)
    ensures Covered(covers, CursorIn(AfterRuns(t, plans).tables)) <= KeysIn(AfterRuns(t, plans).tables)
  {
    if plans != [] {
      var n := |plans| - 1;
      var before := AfterRuns(t, plans[..n]).tables;
      OneCoverageKeeps(t, plans[..n], covers);
      KeysKeptStep(t, plans, covers);
      RunKeeps(covers, before, plans[n], n);
    }
  }

  method RunSequence(store: SyncStore, plans: seq<Plan>, ghost coverages: seq<Coverage>)
    returns (results: seq<RunResult>, ghost rows: seq<nat>)
    requires store.Valid() && CoveredFrom(store.Contents(), coverages, 0)
    requires Promised(plans, coverages) && Inherited(plans, coverages)
    modifies store
    ensures store.Valid() && store.Grew() && |results| == |plans|
    ensures Runs(store.Contents(), results, rows) == AfterRuns(old(store.Contents()), plans)
    ensures old(store.Keys()) <= store.Keys() <= old(store.Keys()) + Upstreams(plans)
    ensures forall i :: 0 <= i < |plans| && results[i].Completed? ==> plans[i].upstream <= store.Keys()
    ensures Growing(plans) && plans != [] && results[|plans| - 1].Completed? ==>
      store.Keys() == old(store.Keys()) + plans[|plans| - 1].upstream
  {
    results, rows := [], [|store.sources|];
    ghost var start := store.Contents();
    for i := 0 to |plans|
      invariant store.Valid() && store.Grew()
      invariant Runs(store.Contents(), results, rows) == AfterRuns(start, plans[..i])
    {
      assert plans[..i + 1][..i] == plans[..i];
      SequenceKeeps(start, plans, coverages, i);
      var r := store.RunConnectorSyncActivity(plans[i], coverages[i], i);
      results := results + [r];
      rows := rows + [|store.sources|];
    }
    assert plans[..|plans|] == plans;
    SequenceKeeps(start, plans, coverages, |plans|);
    if Growing(plans) && plans != [] && results[|plans| - 1].Completed? {
      GrowingSequence(start, plans);
    }
  }

  // ---------------------------------------------------------------------------
  // Who hears of a landed transcript
  // ---------------------------------------------------------------------------

  /** How many rows from `from` on were added by `run`. */
  function InsertedBy(t: Tables, from: nat, run: nat): nat
    requires |t.writers| == |t.sources|
    decreases |t.sources|
  {
    if |t.sources| <= from then 0
    else InsertedBy(Shorter(t), from, run) + if t.writers[|t.sources| - 1] == ByRun(run) then 1 else 0
  }

  /** The transcripts among them, in order. */
  function TranscriptsBy(t: Tables, from: nat, run: nat): seq<nat>
    requires |t.writers| == |t.sources|
    decreases |t.sources|
  {
    if |t.sources| <= from then []
    else
      var n := |t.sources| - 1;
      TranscriptsBy(Shorter(t), from, run) + if t.writers[n] == ByRun(run) && t.sources[n].isTranscript then [n] else []
  }

  /** The tables without their last row. */
  function Shorter(t: Tables): Tables
    requires |t.writers| == |t.sources| > 0
  {
    t.(sources := t.sources[..|t.sources| - 1], writers := t.writers[..|t.writers| - 1])
  }

  lemma {:induction false} TranscriptsByContents(t: Tables, from: nat, run: nat, id: nat)
    requires |t.writers| == |t.sources|
    ensures id in TranscriptsBy(t, from, run) <==>
      from <= id < |t.sources| && t.writers[id] == ByRun(run) && t.sources[id].isTranscript
    decreases |t.sources|
  {
    if from < |t.sources| {
      TranscriptsByContents(Shorter(t), from, run, id);
    }
  }

  lemma InsertedSnoc(t: Tables, a: Artifact, w: Writer, from: nat, run: nat)
    requires |t.writers| == |t.sources| >= from
    ensures var t' := Insert(t, a, w);
      && InsertedBy(t', from, run) == InsertedBy(t, from, run) + (if w == ByRun(run) then 1 else 0)
      && TranscriptsBy(t', from, run) ==
         TranscriptsBy(t, from, run) + if w == ByRun(run) && a.isTranscript then [|t.sources|] else []
  {
    var t' := Insert(t, a, w);
    assert t'.sources[..|t.sources|] == t.sources && t'.writers[..|t.sources|] == t.writers;
    assert Shorter(t') == t.(sync := t'.sync);
  }

  /** `after` is `before` with rows added by `run` or by rivals. */
  ghost predicate AddedBy(before: Tables, after: Tables, run: nat) {
    && |before.writers| == |before.sources| && |after.writers| == |after.sources|
    && before.sources <= after.sources && before.writers <= after.writers
    && forall i :: |before.sources| <= i < |after.sources| ==> after.writers[i] in {ByRun(run), ByRival}
  }

  /** The counters are about the rows this run added itself, rivals or not. */
  ghost predicate Tallied(t: Tables, from: nat, run: nat, sourceCount: nat, ids: seq<nat>) {
    |t.writers| == |t.sources| && sourceCount == InsertedBy(t, from, run) && ids == TranscriptsBy(t, from, run)
  }

  lemma SyncIsNoRow(t: Tables, sync: Option<SyncState>, from: nat, run: nat)
    requires |t.writers| == |t.sources|
    ensures InsertedBy(t.(sync := sync), from, run) == InsertedBy(t, from, run)
    ensures TranscriptsBy(t.(sync := sync), from, run) == TranscriptsBy(t, from, run)
    decreases |t.sources|
  {
    if from < |t.sources| {
      SyncIsNoRow(Shorter(t), sync, from, run);
      assert Shorter(t.(sync := sync)) == Shorter(t).(sync := sync);
    }
  }

  lemma {:induction false} LoopTallies(t: Tables, stream: seq<Emit>, fates: seq<Fate>, n: nat, from: Option<Cursor>,
      run: nat)
    requires n <= |stream| && |t.writers| == |t.sources|
    ensures var l := LoopAfter(t, stream, fates, n, from, run);
      && AddedBy(t, l.tables, run)
      && (l.stopped.None? ==> Tallied(l.tables, |t.sources|, run, l.sourceCount, l.transcriptSourceIds))
  {
    if n > 0 {
      LoopTallies(t, stream, fates, n - 1, from, run);
      var l := LoopAfter(t, stream, fates, n - 1, from, run);
      if l.stopped.None? {
        StepTallies(t, l, stream[n - 1], FateAt(fates, n - 1), run);
      }
    }
  }

  lemma StepTallies(t: Tables, l: Loop, emit: Emit, fate: Fate, run: nat)
    requires AddedBy(t, l.tables, run) && l.stopped.None?
    requires Tallied(l.tables, |t.sources|, run, l.sourceCount, l.transcriptSourceIds)
    ensures var l' := LoopStep(l, emit, fate, run);
      && AddedBy(t, l'.tables, run)
      && (l'.stopped.None? ==> Tallied(l'.tables, |t.sources|, run, l'.sourceCount, l'.transcriptSourceIds))
  {
    match emit
    case CheckpointEmit(c) =>
      SyncIsNoRow(l.tables, Some(Patched(l.tables.sync, Patch(None, Some(Some(c))))), |t.sources|, run);
    case ArtifactEmit(a) =>
      ArtifactTallies(t, l, a, fate, run);
  }

  lemma ArtifactTallies(t: Tables, l: Loop, a: Artifact, fate: Fate, run: nat)
    requires AddedBy(t, l.tables, run) && l.stopped.None?
    requires Tallied(l.tables, |t.sources|, run, l.sourceCount, l.transcriptSourceIds)
    ensures var (now, landing) := AfterIngest(l.tables, a, fate, run);
      && AddedBy(t, now, run)
      && (landing.Landed? ==>
            Tallied(now, |t.sources|, run, l.sourceCount + (if landing.inserted then 1 else 0),
                    l.transcriptSourceIds + if landing.inserted && a.isTranscript then [landing.sourceId] else []))
  {
    IngestCases(l.tables, a, fate, run);
    TalliesInsert(t, l.tables, a, ByRun(run), run, l.sourceCount, l.transcriptSourceIds);
    TalliesInsert(t, l.tables, a, ByRival, run, l.sourceCount, l.transcriptSourceIds);
  }

  /** An artifact adds nothing and reports nothing, or one row that is reported if it is this run's. */
  lemma IngestCases(t: Tables, a: Artifact, fate: Fate, run: nat)
    ensures var (t', landing) := AfterIngest(t, a, fate, run);
      || (t' == t && (landing.Landed? ==> !landing.inserted))
      || (t' == Insert(t, a, ByRun(run)) && (landing.Landed? ==> landing == Landed(true, |t.sources|)))
      || (t' == Insert(t, a, ByRival) && (landing.Landed? ==> !landing.inserted))
  {
  }

  lemma TalliesInsert(t: Tables, now: Tables, a: Artifact, w: Writer, run: nat, sourceCount: nat, ids: seq<nat>)
    requires AddedBy(t, now, run) && Tallied(now, |t.sources|, run, sourceCount, ids) && w in {ByRun(run), ByRival}
    ensures AddedBy(t, Insert(now, a, w), run)
    ensures Tallied(Insert(now, a, w), |t.sources|, run, sourceCount + (if w == ByRun(run) then 1 else 0),
                    ids + if w == ByRun(run) && a.isTranscript then [|now.sources|] else [])
  {
    InsertedSnoc(now, a, w, |t.sources|, run);
  }

  /** A completed run reports exactly the rows, and the transcripts, that it added itself. */
  lemma {:induction false} RunReportsOwnRows(t: Tables, plan: Plan, run: nat)
    requires |t.writers| == |t.sources|
    ensures var (t', r) := AfterRun(t, plan, run);
      && AddedBy(t, t', run)
      && (r.Completed? ==> Tallied(t', |t.sources|, run, r.sourceCount, r.transcriptSourceIds))
  {
    var from := FromCursor(t, plan.mode);
    var stream := StreamOf(plan.conn, plan.mode, from);
    var start := WithSync(t, Patch(Some(Running), None));
    var l := LoopAfter(start, stream, plan.fates, |stream|, from, run);
    LoopTallies(start, stream, plan.fates, |stream|, from, run);
    SyncIsNoRow(l.tables, Some(Patched(l.tables.sync, Patch(Some(Idle), Some(l.cursor)))), |t.sources|, run);
  }

  /** Some result names the row. */
  ghost predicate Named(results: seq<RunResult>, id: nat) {
    exists i :: 0 <= i < |results| && results[i].Completed? && id in results[i].transcriptSourceIds
  }

  /** The run that added the row completed. */
  ghost predicate AdderCompleted(t: Tables, results: seq<RunResult>, id: nat)
    requires id < |t.writers|
  {
    t.writers[id].ByRun? && t.writers[id].run < |results| && results[t.writers[id].run].Completed?
  }

  /** A transcript that landed during the runs is named by some result exactly when the run that added
      it completed; one that a rival landed, or that was there before, by none. */
  lemma {:induction false} NamedExactly(t: Tables, plans: seq<Plan>, id: nat)
    requires |t.writers| == |t.sources|
    requires id < |AfterRuns(t, plans).tables.sources|
    ensures var all := AfterRuns(t, plans);
      && |all.tables.writers| == |all.tables.sources| && t.sources <= all.tables.sources
      && (Named(all.results, id) <==>
          id >= |t.sources| && all.tables.sources[id].isTranscript && AdderCompleted(all.tables, all.results, id))
  {
    RunsPartition(t, plans);
    var all := AfterRuns(t, plans);
    if i :| 0 <= i < |all.results| && all.results[i].Completed? && id in all.results[i].transcriptSourceIds {
      assert NamesOwn(t, all, i, id);
    }
    if id >= |t.sources| && all.tables.sources[id].isTranscript && AdderCompleted(all.tables, all.results, id) {
      assert NamesOwn(t, all, all.tables.writers[id].run, id);
    }
  }

  /** Run `i`, if it completed, names exactly the transcripts it added. */
  ghost predicate NamesOwn(t: Tables, all: Runs, i: nat, id: nat)
    requires i < |all.results| && id < |all.tables.sources| == |all.tables.writers|
  {
    all.results[i].Completed? ==>
      (id in all.results[i].transcriptSourceIds <==>
        id >= |t.sources| && all.tables.sources[id].isTranscript && all.tables.writers[id] == ByRun(i))
  }

  lemma {:induction false} RunsPartition(t: Tables, plans: seq<Plan>)
    requires |t.writers| == |t.sources|
    ensures var all := AfterRuns(t, plans);
      && |all.results| == |plans|
      && |all.tables.writers| == |all.tables.sources| && t.sources <= all.tables.sources
      && (forall id :: |t.sources| <= id < |all.tables.sources| && all.tables.writers[id].ByRun? ==>
            all.tables.writers[id].run < |plans|)
      && (forall i, id :: 0 <= i < |plans| && 0 <= id < |all.tables.sources| ==> NamesOwn(t, all, i, id))
      && (forall i, id :: 0 <= i < |plans| && all.results[i].Completed? && id in all.results[i].transcriptSourceIds ==>
            id < |all.tables.sources|)
  {
    if plans != [] {
      var n := |plans| - 1;
      var before, all := AfterRuns(t, plans[..n]), AfterRuns(t, plans);
      RunsPartition(t, plans[..n]);
      RunReportsOwnRows(before.tables, plans[n], n);
      forall i, id | 0 <= i < |plans| && 0 <= id < |all.tables.sources| ensures NamesOwn(t, all, i, id) {
        if i == n {
          if all.results[n].Completed? {
            TranscriptsByContents(all.tables, |before.tables.sources|, n, id);
          }
        } else if id < |before.tables.sources| {
          assert NamesOwn(t, before, i, id);
        }
      }
      forall i, id | 0 <= i < |plans| && all.results[i].Completed? && id in all.results[i].transcriptSourceIds
        ensures id < |all.tables.sources|
      {
        if i == n {
          TranscriptsByContents(all.tables, |before.tables.sources|, n, id);
        }
      }
    }
  }

  /** A transcript landed by a run that is killed right after, followed by a run that completes: the row
      is there, and no result names it. */
  lemma {:induction false} KilledRunLosesTranscript(t: Tables, a: Artifact, upstream: set<DedupeKey>)
    requires |t.writers| == |t.sources| && a.isTranscript && PositionOf(t.sources, a.key).None?
    ensures var conn := Connector([ArtifactEmit(a)], (from: Option<Cursor>) => [ArtifactEmit(a)]);
      var all := AfterRuns(t, [Plan(Backfill, conn, upstream, [DiesAfter], Returns),
        Plan(Backfill, conn, upstream, [], Returns)]);
      && all.results == [Killed, Completed(1, 0, [], None)]
      && all.tables.sources == t.sources + [Source(a.key, a.externalId, true, |t.sources|)]
      && !Named(all.results, |t.sources|)
  {
    var conn := Connector([ArtifactEmit(a)], (from: Option<Cursor>) => [ArtifactEmit(a)]);
    var first := Plan(Backfill, conn, upstream, [DiesAfter], Returns);
    var second := Plan(Backfill, conn, upstream, [], Returns);
    FirstRun(t, a, first);
    SecondRun(AfterRun(t, first, 0).0, a, second, |t.sources|);
    TwoRuns(t, first, second);
  }

  lemma TwoRuns(t: Tables, first: Plan, second: Plan)
    ensures var (t1, r1) := AfterRun(t, first, 0);
      var (t2, r2) := AfterRun(t1, second, 1);
      AfterRuns(t, [first, second]).tables == t2 && AfterRuns(t, [first, second]).results == [r1, r2]
  {
    assert [first, second][..1] == [first] && [first][..0] == [];
    assert AfterRuns(t, []) == Runs(t, [], [|t.sources|]);
  }

  lemma FirstRun(t: Tables, a: Artifact, plan: Plan)
    requires plan.mode.Backfill? && plan.conn.backfill == [ArtifactEmit(a)] && plan.fates == [DiesAfter]
    requires |t.writers| == |t.sources| && PositionOf(t.sources, a.key).None?
    ensures var (t', r) := AfterRun(t, plan, 0);
      r == Killed && t' == Insert(WithSync(t, Patch(Some(Running), None)), a, ByRun(0))
        && PositionOf(t'.sources, a.key) == Some(|t.sources|)
  {
    OneEmit(WithSync(t, Patch(Some(Running), None)), a, DiesAfter, [DiesAfter], 0);
    PositionOfLast(t.sources, Source(a.key, a.externalId, a.isTranscript, |t.sources|));
  }

  lemma SecondRun(t: Tables, a: Artifact, plan: Plan, id: nat)
    requires plan.mode.Backfill? && plan.conn.backfill == [ArtifactEmit(a)] && plan.fates == [] && plan.ending.Returns?
    requires PositionOf(t.sources, a.key) == Some(id)
    ensures var (t', r) := AfterRun(t, plan, 1); r == Completed(1, 0, [], None) && t'.sources == t.sources
  {
    OneEmit(WithSync(t, Patch(Some(Running), None)), a, Fine(NoRival), [], 1);
  }

  lemma OneEmit(t: Tables, a: Artifact, fate: Fate, fates: seq<Fate>, run: nat)
    requires FateAt(fates, 0) == fate
    ensures LoopAfter(t, [ArtifactEmit(a)], fates, 1, None, run) ==
      LoopStep(Loop(t, 0, 0, [], None, None), ArtifactEmit(a), fate, run)
  {
    assert LoopAfter(t, [ArtifactEmit(a)], fates, 0, None, run) == Loop(t, 0, 0, [], None, None);
  }

  /** A run that meets no trouble completes. */
  lemma {:induction false} UndisturbedCompletes(t: Tables, plan: Plan, run: nat)
    requires Undisturbed(plan)
    ensures var r := AfterRun(t, plan, run).1;
      r.Completed? && r.artifactCount == Artifacts(StreamOf(plan.conn, plan.mode, FromCursor(t, plan.mode)))
  {
    var from := FromCursor(t, plan.mode);
    var stream := StreamOf(plan.conn, plan.mode, from);
    FineLoop(WithSync(t, Patch(Some(Running), None)), stream, plan.fates, |stream|, from, run);
    assert stream[..|stream|] == stream;
  }

  lemma {:induction false} FineLoop(t: Tables, stream: seq<Emit>, fates: seq<Fate>, n: nat, from: Option<Cursor>,
      run: nat)
    requires n <= |stream| && forall f :: f in fates ==> f.Fine?
    ensures var l := LoopAfter(t, stream, fates, n, from, run);
      l.stopped.None? && l.artifactCount == Artifacts(stream[..n])
  {
    if n > 0 {
      FineLoop(t, stream, fates, n - 1, from, run);
      EmittedStep(stream, n - 1);
      assert FateAt(fates, n - 1).Fine?;
    }
  }
}
