/** The streams of the connectors that poll by time of change: `granola-connector.ts`, `github-connector.ts`
    and `linear-connector.ts` under `packages/connectors/src`.  They keep the promise that the sync relies
    on, also while documents are added, edited and deleted between runs.

    The listing calls are a parameter: which pages come back for a cursor.  Cancellation is not modelled.  */
module Connectors {
  import opened Options
  import opened ConnectorSync
  import Sorting

  /** A document version; an edit gives it a new content, hence a new key, and a new time. */
  datatype Doc = Doc(artifact: Artifact, updatedAt: Cursor)

  /** The pages listed for `updatedSince`. */
  type Api = Option<Cursor> -> seq<seq<Doc>>

  /** When a connector issues a checkpoint: Granola on the last document of each page, GitHub after a page
      that raises the newest time seen, Linear once at the end. */
  datatype Marking = LastOfPage | NewestSoFar | NewestAtEnd

  predicate Before(a: Cursor, b: Cursor) {
    Sorting.StringLt(a, b)
  }

  lemma BeforeIsTotal(a: Cursor, b: Cursor, c: Cursor)
    ensures Before(a, b) || Before(b, a) || a == b
    ensures !(Before(a, b) && Before(b, a))
    ensures !Before(a, b) && !Before(b, c) ==> !Before(a, c)
  {
    Sorting.StringLeTotal(a, b);
    Sorting.StringLeTotal(b, c);
    Sorting.StringLeTotal(a, c);
    if Sorting.StringLe(c, b) && Sorting.StringLe(b, a) {
      Sorting.StringLeTransitive(c, b, a);
    }
  }

  // ---------------------------------------------------------------------------
  // The streams
  // ---------------------------------------------------------------------------

  function Artifacts(page: seq<Doc>): seq<Emit> {
    if page == [] then []
    else Artifacts(page[..|page| - 1]) + [ArtifactEmit(page[|page| - 1].artifact)]
  }

  /** `if (!max || updatedAt > max) max = updatedAt` */
  function Newer(max: Option<Cursor>, updatedAt: Cursor): Option<Cursor> {
    if max.None? || max.value == "" || Before(max.value, updatedAt) then Some(updatedAt) else max
  }

  function NewestOf(max: Option<Cursor>, page: seq<Doc>): Option<Cursor> {
    if page == [] then max else Newer(NewestOf(max, page[..|page| - 1]), page[|page| - 1].updatedAt)
  }

  function Newest(from: Option<Cursor>, pages: seq<seq<Doc>>): Option<Cursor> {
    if pages == [] then from else NewestOf(Newest(from, pages[..|pages| - 1]), pages[|pages| - 1])
  }

  /** The checkpoint after a page, if there is one: `before` and `now` are the newest times seen up to
      then and with this page. */
  function MarkAfter(marking: Marking, from: Option<Cursor>, page: seq<Doc>, last: bool, before: Option<Cursor>,
      now: Option<Cursor>): Option<Cursor> {
    var mark := match marking
      case LastOfPage => if page == [] then None else Some(page[|page| - 1].updatedAt)
      case NewestSoFar => if now == before then None else now
      case NewestAtEnd => if !last || now == from then None else now;
    if mark == Some("") then None else mark
  }

  /** The checkpoint after the first `n` pages. */
  function Mark(marking: Marking, from: Option<Cursor>, pages: seq<seq<Doc>>, n: nat): Option<Cursor>
    requires 0 < n <= |pages|
  {
    MarkAfter(marking, from, pages[n - 1], n == |pages|, Newest(from, pages[..n - 1]), Newest(from, pages[..n]))
  }

  function Checkpoint(mark: Option<Cursor>): seq<Emit> {
    if mark.Some? then [CheckpointEmit(mark.value)] else []
  }

  function Stream(marking: Marking, from: Option<Cursor>, pages: seq<seq<Doc>>, n: nat): seq<Emit>
    requires n <= |pages|
  {
    if n == 0 then []
    else Stream(marking, from, pages, n - 1) + Artifacts(pages[n - 1]) + Checkpoint(Mark(marking, from, pages, n))
  }

  function ConnectorOf(marking: Marking, api: Api): Connector {
    Connector(Stream(marking, None, api(None), |api(None)|),
              (from: Option<Cursor>) => Stream(marking, from, api(from), |api(from)|))
  }

  /** `for (const item of page.items)` */
  method StreamPage(page: seq<Doc>, newest: Option<Cursor>) returns (emits: seq<Emit>, maxUpdatedAt: Option<Cursor>)
    ensures emits == Artifacts(page) && maxUpdatedAt == NewestOf(newest, page)
  {
    emits, maxUpdatedAt := [], newest;
    for k := 0 to |page|
      invariant emits == Artifacts(page[..k]) && maxUpdatedAt == NewestOf(newest, page[..k])
    {
      assert page[..k + 1][..k] == page[..k];
      emits := emits + [ArtifactEmit(page[k].artifact)];
      maxUpdatedAt := Newer(maxUpdatedAt, page[k].updatedAt);
    }
    assert page[..|page|] == page;
  }

  lemma NewestStep(from: Option<Cursor>, pages: seq<seq<Doc>>, i: nat)
    requires i < |pages|
    ensures Newest(from, pages[..i + 1]) == NewestOf(Newest(from, pages[..i]), pages[i])
  {
    assert pages[..i + 1][..i] == pages[..i];
  }

  /** `stream` of the three connectors. */
  method StreamPages(marking: Marking, from: Option<Cursor>, pages: seq<seq<Doc>>) returns (emits: seq<Emit>)
    ensures emits == Stream(marking, from, pages, |pages|)
  {
    emits := [];
    var maxUpdatedAt := from;
    for i := 0 to |pages|
      invariant emits == Stream(marking, from, pages, i)
      invariant maxUpdatedAt == Newest(from, pages[..i])
    {
      NewestStep(from, pages, i);
      var lastCheckpoint := maxUpdatedAt;
      var items;
      items, maxUpdatedAt := StreamPage(pages[i], lastCheckpoint);
      emits := emits + items;
      var mark := MarkAfter(marking, from, pages[i], i + 1 == |pages|, lastCheckpoint, maxUpdatedAt);
      if mark.Some? {
        emits := emits + [CheckpointEmit(mark.value)];
      }
    }
  }

  // ---------------------------------------------------------------------------
  // What the listing promises
  // ---------------------------------------------------------------------------

  function DocsOf(page: seq<Doc>): set<Doc> {
    set d | d in page
  }

  function Items(pages: seq<seq<Doc>>): set<Doc> {
    if pages == [] then {} else Items(pages[..|pages| - 1]) + DocsOf(pages[|pages| - 1])
  }

  function KeysOfDocs(docs: set<Doc>): set<DedupeKey> {
    set d | d in docs :: d.artifact.key
  }

  /** No later page holds an older document. */
  ghost predicate Ascending(pages: seq<seq<Doc>>) {
    forall i, j, d, e :: 0 <= i < j < |pages| && d in pages[i] && e in pages[j] ==> !Before(e.updatedAt, d.updatedAt)
  }

  function Since(docs: set<Doc>, from: Option<Cursor>): set<Doc> {
    set d | d in docs && !(from.Some? && Before(d.updatedAt, from.value))
  }

  /** The listing gives every document not older than the cursor, in an order that suits the marking. */
  ghost predicate Serves(api: Api, docs: set<Doc>, marking: Marking) {
    forall from :: Items(api(from)) == Since(docs, from) && (marking.NewestAtEnd? || Ascending(api(from)))
  }

  /** What a run from `c` leaves out. */
  function OlderThan(docs: set<Doc>): Coverage {
    (c: Cursor) => KeysOfDocs(set d | d in docs && Before(d.updatedAt, c))
  }

  // ---------------------------------------------------------------------------
  // The promise of one connector
  // ---------------------------------------------------------------------------

  lemma {:induction false} ArtifactsEmitted(page: seq<Doc>)
    ensures Emitted(Artifacts(page)) == KeysOfDocs(DocsOf(page))
  {
    if page != [] {
      var n := |page| - 1;
      ArtifactsEmitted(page[..n]);
      assert Artifacts(page)[..|Artifacts(page)| - 1] == Artifacts(page[..n]);
      DocsSnoc(page);
    }
  }

  lemma DocsSnoc(page: seq<Doc>)
    requires page != []
    ensures DocsOf(page) == DocsOf(page[..|page| - 1]) + {page[|page| - 1]}
    ensures KeysOfDocs(DocsOf(page)) == KeysOfDocs(DocsOf(page[..|page| - 1])) + {page[|page| - 1].artifact.key}
  {
    assert page == page[..|page| - 1] + [page[|page| - 1]];
  }

  lemma {:induction false} ArtifactsOnly(page: seq<Doc>)
    ensures forall i :: 0 <= i < |Artifacts(page)| ==> Artifacts(page)[i].ArtifactEmit?
  {
    if page != [] {
      ArtifactsOnly(page[..|page| - 1]);
    }
  }

  lemma {:induction false} EmittedAppend(a: seq<Emit>, b: seq<Emit>)
    ensures Emitted(a + b) == Emitted(a) + Emitted(b)
  {
    if b == [] {
      assert a + b == a;
    } else {
      var n := |b| - 1;
      EmittedAppend(a, b[..n]);
      assert (a + b)[..|a + b| - 1] == a + b[..n];
    }
  }

  lemma CheckpointEmitted(mark: Option<Cursor>)
    ensures Emitted(Checkpoint(mark)) == {}
  {
    if mark.Some? {
      assert Checkpoint(mark)[..0] == [];
    }
  }

  /** The first `n` pages bring exactly their documents. */
  lemma {:induction false} StreamEmitted(marking: Marking, from: Option<Cursor>, pages: seq<seq<Doc>>, n: nat)
    requires n <= |pages|
    ensures Emitted(Stream(marking, from, pages, n)) == KeysOfDocs(Items(pages[..n]))
  {
    if n == 0 {
      assert Items(pages[..0]) == {};
    } else {
      StreamEmitted(marking, from, pages, n - 1);
      PageEmitted(Stream(marking, from, pages, n - 1), pages[n - 1], Mark(marking, from, pages, n));
      ItemsSnoc(pages, n);
    }
  }

  lemma PageEmitted(before: seq<Emit>, page: seq<Doc>, mark: Option<Cursor>)
    ensures Emitted(before + Artifacts(page)) == Emitted(before) + KeysOfDocs(DocsOf(page))
    ensures Emitted(before + Artifacts(page) + Checkpoint(mark)) == Emitted(before) + KeysOfDocs(DocsOf(page))
  {
    ArtifactsEmitted(page);
    CheckpointEmitted(mark);
    EmittedAppend(before, Artifacts(page));
    EmittedAppend(before + Artifacts(page), Checkpoint(mark));
  }

  lemma ItemsSnoc(pages: seq<seq<Doc>>, n: nat)
    requires 0 < n <= |pages|
    ensures Items(pages[..n]) == Items(pages[..n - 1]) + DocsOf(pages[n - 1])
  {
    assert pages[..n][..n - 1] == pages[..n - 1] && pages[..n][n - 1] == pages[n - 1];
  }

  /** A newest time seen is where it started or the time of an item. */
  lemma {:induction false} NewestOfIsSeen(max: Option<Cursor>, page: seq<Doc>)
    ensures var newest := NewestOf(max, page);
      newest == max || exists d :: d in page && newest == Some(d.updatedAt)
  {
    if page != [] {
      var n := |page| - 1;
      NewestOfIsSeen(max, page[..n]);
      assert page == page[..n] + [page[n]];
    }
  }

  ghost predicate Stamped(docs: set<Doc>, c: Cursor) {
    exists d :: d in docs && d.updatedAt == c
  }

  lemma {:induction false} NewestIsSeen(from: Option<Cursor>, pages: seq<seq<Doc>>)
    ensures var newest := Newest(from, pages);
      newest == from || (newest.Some? && Stamped(Items(pages), newest.value))
  {
    if pages != [] {
      var n := |pages| - 1;
      NewestIsSeen(from, pages[..n]);
      NewestOfIsSeen(Newest(from, pages[..n]), pages[n]);
      ItemsSnoc(pages, |pages|);
      assert pages[..|pages|] == pages;
    }
  }

  /** A checkpoint carries the time of an item that has been brought. */
  lemma MarkIsSeen(marking: Marking, from: Option<Cursor>, pages: seq<seq<Doc>>, n: nat)
    requires 0 < n <= |pages| && Mark(marking, from, pages, n).Some?
    ensures Stamped(Items(pages[..n]), Mark(marking, from, pages, n).value)
    ensures marking.NewestAtEnd? ==> n == |pages|
  {
    ItemsSnoc(pages, n);
    match marking
    case LastOfPage =>
      assert pages[n - 1][|pages[n - 1]| - 1] in pages[n - 1];
    case NewestSoFar =>
      assert pages[..n][..n - 1] == pages[..n - 1] && pages[..n][n - 1] == pages[n - 1];
      NewestOfIsSeen(Newest(from, pages[..n - 1]), pages[n - 1]);
    case NewestAtEnd =>
      assert pages[..|pages|] == pages;
      NewestIsSeen(from, pages);
  }

  lemma {:induction false} ItemsAreOnPages(pages: seq<seq<Doc>>, n: nat, m: nat, d: Doc)
    requires n <= m <= |pages| && d in Items(pages[..m]) && d !in Items(pages[..n])
    ensures exists j :: n <= j < m && d in pages[j]
    decreases m
  {
    ItemsSnoc(pages, m);
    if d !in pages[m - 1] {
      ItemsAreOnPages(pages, n, m - 1, d);
    }
  }

  /** Nothing older than the time of an item comes after that item's page. */
  lemma OlderIsEarlier(pages: seq<seq<Doc>>, n: nat, d: Doc, e: Doc)
    requires n <= |pages| && Ascending(pages) && e in Items(pages[..n])
    requires d in Items(pages) && Before(d.updatedAt, e.updatedAt)
    ensures d in Items(pages[..n])
  {
    if d !in Items(pages[..n]) {
      assert pages[..|pages|] == pages;
      ItemsAreOnPages(pages, n, |pages|, d);
      ItemsAreOnPages(pages, 0, n, e);
    }
  }

  /** Every document older than the checkpoint after page `n` is in the first `n` pages, if it is listed. */
  lemma MarkIsSafe(marking: Marking, from: Option<Cursor>, pages: seq<seq<Doc>>, n: nat, d: Doc)
    requires 0 < n <= |pages| && (marking.NewestAtEnd? || Ascending(pages))
    requires Mark(marking, from, pages, n).Some? && d in Items(pages)
    requires Before(d.updatedAt, Mark(marking, from, pages, n).value)
    ensures d in Items(pages[..n])
  {
    MarkIsSeen(marking, from, pages, n);
    if marking.NewestAtEnd? {
      assert pages[..n] == pages;
    } else {
      var e :| e in Items(pages[..n]) && e.updatedAt == Mark(marking, from, pages, n).value;
      OlderIsEarlier(pages, n, d, e);
    }
  }

  /** Before a checkpoint is issued, everything listed that is older has been brought. */
  lemma {:induction false} CheckpointIsSafe(marking: Marking, from: Option<Cursor>, pages: seq<seq<Doc>>, n: nat,
      i: nat, d: Doc)
    requires n <= |pages| && i < |Stream(marking, from, pages, n)| && Stream(marking, from, pages, n)[i].CheckpointEmit?
    requires d in Items(pages) && Before(d.updatedAt, Stream(marking, from, pages, n)[i].cursor)
    requires marking.NewestAtEnd? || Ascending(pages)
    ensures d.artifact.key in Emitted(Stream(marking, from, pages, n)[..i])
  {
    var before, page := Stream(marking, from, pages, n - 1), pages[n - 1];
    var mark := Mark(marking, from, pages, n);
    if i < |before| {
      MarkStandsLater(before, Artifacts(page), Checkpoint(mark), i);
      CheckpointIsSafe(marking, from, pages, n - 1, i, d);
    } else {
      MarkStandsLast(before, page, mark, i);
      LastMarkIsSafe(marking, from, pages, n, d);
    }
  }

  lemma LastMarkIsSafe(marking: Marking, from: Option<Cursor>, pages: seq<seq<Doc>>, n: nat, d: Doc)
    requires 0 < n <= |pages| && (marking.NewestAtEnd? || Ascending(pages))
    requires Mark(marking, from, pages, n).Some? && d in Items(pages)
    requires Before(d.updatedAt, Mark(marking, from, pages, n).value)
    ensures d.artifact.key in Emitted(Stream(marking, from, pages, n - 1) + Artifacts(pages[n - 1]))
  {
    MarkIsSafe(marking, from, pages, n, d);
    StreamEmitted(marking, from, pages, n - 1);
    PageEmitted(Stream(marking, from, pages, n - 1), pages[n - 1], Mark(marking, from, pages, n));
    ItemsSnoc(pages, n);
  }

  lemma MarkStandsLater(before: seq<Emit>, page: seq<Emit>, mark: seq<Emit>, i: nat)
    requires i < |before|
    ensures (before + page + mark)[i] == before[i] && (before + page + mark)[..i] == before[..i]
  {
  }

  lemma MarkStandsLast(before: seq<Emit>, page: seq<Doc>, mark: Option<Cursor>, i: nat)
    requires var stream := before + Artifacts(page) + Checkpoint(mark);
      |before| <= i < |stream| && stream[i].CheckpointEmit?
    ensures var stream := before + Artifacts(page) + Checkpoint(mark);
      mark == Some(stream[i].cursor) && stream[..i] == before + Artifacts(page)
  {
    ArtifactsOnly(page);
  }

  lemma {:induction false} IssuedIsSeen(marking: Marking, from: Option<Cursor>, pages: seq<seq<Doc>>, n: nat, c: Cursor)
    requires n <= |pages| && CheckpointEmit(c) in Stream(marking, from, pages, n)
    ensures Stamped(Items(pages[..n]), c)
  {
    var before, page := Stream(marking, from, pages, n - 1), pages[n - 1];
    ItemsSnoc(pages, n);
    if CheckpointEmit(c) in before {
      IssuedIsSeen(marking, from, pages, n - 1, c);
    } else {
      ArtifactsOnly(page);
      MarkIsSeen(marking, from, pages, n);
    }
  }

  lemma StreamKeeps(marking: Marking, api: Api, docs: set<Doc>, from: Option<Cursor>)
    requires Serves(api, docs, marking)
    ensures StreamKeepsPromise(OlderThan(docs), KeysOfDocs(docs), from, Stream(marking, from, api(from), |api(from)|))
  {
    var pages := api(from);
    var stream, covered := Stream(marking, from, pages, |pages|), Covered(OlderThan(docs), from);
    assert Items(pages) == Since(docs, from);
    StreamEmitted(marking, from, pages, |pages|);
    assert pages[..|pages|] == pages;
    ListedOrCovered(docs, from);
    forall i | 0 <= i < |stream| && stream[i].CheckpointEmit?
      ensures OlderThan(docs)(stream[i].cursor) <= covered + Emitted(stream[..i])
    {
      forall d | d in docs && Before(d.updatedAt, stream[i].cursor)
        ensures d.artifact.key in covered + Emitted(stream[..i])
      {
        if d in Items(pages) {
          CheckpointIsSafe(marking, from, pages, |pages|, i, d);
        }
      }
    }
  }

  lemma ListedOrCovered(docs: set<Doc>, from: Option<Cursor>)
    ensures KeysOfDocs(Since(docs, from)) <= KeysOfDocs(docs)
    ensures KeysOfDocs(docs) == KeysOfDocs(Since(docs, from)) + Covered(OlderThan(docs), from)
    ensures forall d :: d in docs && d !in Since(docs, from) ==> d.artifact.key in Covered(OlderThan(docs), from)
  {
  }

  /** Whatever is listed, a connector may leave out from `c` exactly what was older than `c`. */
  lemma {:induction false} ConnectorKeeps(marking: Marking, api: Api, docs: set<Doc>)
    requires Serves(api, docs, marking)
    ensures KeepsPromise(OlderThan(docs), KeysOfDocs(docs), ConnectorOf(marking, api))
  {
    forall from
      ensures StreamKeepsPromise(OlderThan(docs), KeysOfDocs(docs), from, Stream(marking, from, api(from), |api(from)|))
    {
      StreamKeeps(marking, api, docs, from);
    }
  }

  lemma IssuesAreStamps(marking: Marking, api: Api, docs: set<Doc>, c: Cursor)
    requires Serves(api, docs, marking) && Issues(ConnectorOf(marking, api), c)
    ensures Stamped(docs, c)
  {
    var from: Option<Cursor> := None;
    if !Issued(ConnectorOf(marking, api).backfill, |ConnectorOf(marking, api).backfill|, c) {
      from :| Issued(ConnectorOf(marking, api).incremental(from), |ConnectorOf(marking, api).incremental(from)|, c);
    }
    var pages := api(from);
    IssuedIsSeen(marking, from, pages, |pages|, c);
    assert pages[..|pages|] == pages && Items(pages) == Since(docs, from);
  }

  // ---------------------------------------------------------------------------
  // Runs while documents come, change and go
  // ---------------------------------------------------------------------------

  /** What a run finds: documents may be gone, and what is new is no older than what was there. */
  ghost predicate Evolves(older: set<Doc>, newer: set<Doc>) {
    forall d, e :: d in newer && d !in older && e in older ==> !Before(d.updatedAt, e.updatedAt)
  }

  /** The service as one run finds it. */
  datatype Service = Service(marking: Marking, api: Api, docs: set<Doc>)

  ghost predicate Syncs(plan: Plan, s: Service) {
    && Serves(s.api, s.docs, s.marking)
    && plan.conn == ConnectorOf(s.marking, s.api) && plan.upstream == KeysOfDocs(s.docs)
  }

  ghost predicate History(plans: seq<Plan>, services: seq<Service>) {
    && |services| == |plans|
    && (forall i :: 0 <= i < |plans| ==> Syncs(plans[i], services[i]))
    && (forall i, j :: 0 <= i < j < |plans| ==> Evolves(services[i].docs, services[j].docs))
  }

  function Coverages(services: seq<Service>): seq<Coverage> {
    seq(|services|, i requires 0 <= i < |services| => OlderThan(services[i].docs))
  }

  lemma EvolvesInherits(older: set<Doc>, newer: set<Doc>, c: Cursor)
    requires Evolves(older, newer) && Stamped(older, c)
    ensures OlderThan(newer)(c) <= OlderThan(older)(c)
  {
  }

  lemma HistoryQualifies(plans: seq<Plan>, services: seq<Service>)
    requires History(plans, services)
    ensures Promised(plans, Coverages(services)) && Inherited(plans, Coverages(services))
  {
    forall i | 0 <= i < |plans| ensures KeepsPromise(Coverages(services)[i], plans[i].upstream, plans[i].conn) {
      ConnectorKeeps(services[i].marking, services[i].api, services[i].docs);
    }
    forall i, j, c | 0 <= i < j < |plans| && Issues(plans[i].conn, c)
      ensures Coverages(services)[j](c) <= Coverages(services)[i](c)
    {
      IssuesAreStamps(services[i].marking, services[i].api, services[i].docs, c);
      EvolvesInherits(services[i].docs, services[j].docs, c);
    }
  }

  /** A first sync and any runs after it, backfills and incremental ones, with any rivals, failures and
      deaths, while documents are added, edited and deleted in between: every version that landed stays,
      and every run that completes leaves every version that was listed for it. */
  lemma {:induction false} EditsAreCaughtUp(t: Tables, plans: seq<Plan>, services: seq<Service>)
    requires History(plans, services) && CursorIn(t).None?
    ensures KeysKept(t, plans)
  {
    HistoryQualifies(plans, services);
    assert plans[..|plans|] == plans;
    SequenceKeeps(t, plans, Coverages(services), |plans|);
  }

  /** An incremental run that completes brings exactly what is not older than the cursor. */
  lemma {:induction false} IncrementalBrings(t: Tables, plan: Plan, s: Service, run: nat)
    requires Syncs(plan, s) && plan.mode.Incremental? && AfterRun(t, plan, run).1.Completed?
    ensures KeysIn(AfterRun(t, plan, run).0) == KeysIn(t) + KeysOfDocs(Since(s.docs, CursorIn(t)))
  {
    var from := CursorIn(t);
    var pages := s.api(from);
    var stream := Stream(s.marking, from, pages, |pages|);
    assert Items(pages) == Since(s.docs, from);
    StreamEmitted(s.marking, from, pages, |pages|);
    assert pages[..|pages|] == pages && stream[..|stream|] == stream;
    LoopKeys(WithSync(t, Patch(Some(Running), None)), stream, plan.fates, |stream|, from, run);
  }

  /** So a document that first appears with a time before the cursor is missed: documents must evolve. */
  lemma {:induction false} LateDocumentIsMissed(t: Tables, plan: Plan, s: Service, run: nat, d: Doc)
    requires Syncs(plan, s) && plan.mode.Incremental? && AfterRun(t, plan, run).1.Completed?
    requires d in s.docs && CursorIn(t).Some? && Before(d.updatedAt, CursorIn(t).value)
    requires d.artifact.key !in KeysIn(t) && forall e :: e in s.docs && e.artifact.key == d.artifact.key ==> e == d
    ensures d.artifact.key in plan.upstream && d.artifact.key !in KeysIn(AfterRun(t, plan, run).0)
  {
    IncrementalBrings(t, plan, s, run);
  }

  // ---------------------------------------------------------------------------
  // An edit between two runs
  // ---------------------------------------------------------------------------

  /** A listing with one document on a page. */
  function PagesOf(docs: seq<Doc>, from: Option<Cursor>): seq<seq<Doc>> {
    if docs == [] then []
    else
      var n := |docs| - 1;
      PagesOf(docs[..n], from) + if docs[n] in Since({docs[n]}, from) then [[docs[n]]] else []
  }

  function OneByOne(docs: seq<Doc>): Api {
    (from: Option<Cursor>) => PagesOf(docs, from)
  }

  ghost predicate InOrder(docs: seq<Doc>) {
    forall i, j :: 0 <= i < j < |docs| ==> !Before(docs[j].updatedAt, docs[i].updatedAt)
  }

  lemma {:induction false} PagesList(docs: seq<Doc>, from: Option<Cursor>)
    ensures Items(PagesOf(docs, from)) == Since(DocsOf(docs), from)
  {
    if docs != [] {
      var n := |docs| - 1;
      var before := PagesOf(docs[..n], from);
      PagesList(docs[..n], from);
      DocsSnoc(docs);
      assert (before + [[docs[n]]])[..|before|] == before && before + [] == before;
      assert Since(DocsOf(docs), from) == Since(DocsOf(docs[..n]), from) + Since({docs[n]}, from);
    }
  }

  lemma {:induction false} PagesAscend(docs: seq<Doc>, from: Option<Cursor>)
    requires InOrder(docs)
    ensures Ascending(PagesOf(docs, from))
    ensures forall page, d :: page in PagesOf(docs, from) && d in page ==> d in docs
  {
    if docs != [] {
      var n := |docs| - 1;
      PagesAscend(docs[..n], from);
      assert forall d :: d in docs[..n] ==> d in docs && !Before(docs[n].updatedAt, d.updatedAt);
      OneMorePage(PagesOf(docs[..n], from), docs[n]);
    }
  }

  lemma OneMorePage(pages: seq<seq<Doc>>, d: Doc)
    requires Ascending(pages)
    requires forall page, e :: page in pages && e in page ==> !Before(d.updatedAt, e.updatedAt)
    ensures Ascending(pages + [[d]])
  {
    var more := pages + [[d]];
    forall i, j, x: Doc, y: Doc | 0 <= i < j < |more| && x in more[i] && y in more[j]
      ensures !Before(y.updatedAt, x.updatedAt)
    {
      if j == |pages| {
        assert more[i] in pages && y == d;
      }
    }
  }

  lemma OneByOneServes(docs: seq<Doc>, marking: Marking)
    requires InOrder(docs)
    ensures Serves(OneByOne(docs), DocsOf(docs), marking)
  {
    forall from ensures Items(OneByOne(docs)(from)) == Since(DocsOf(docs), from) && Ascending(OneByOne(docs)(from)) {
      PagesList(docs, from);
      PagesAscend(docs, from);
    }
  }

  /** A plan over a listing that checkpoints page by page. */
  function PlanOver(mode: Mode, docs: seq<Doc>, fates: seq<Fate>, ending: Ending): Plan {
    Plan(mode, ConnectorOf(LastOfPage, OneByOne(docs)), KeysOfDocs(DocsOf(docs)), fates, ending)
  }

  function ServiceOver(docs: seq<Doc>): Service {
    Service(LastOfPage, OneByOne(docs), DocsOf(docs))
  }

  lemma TwoRunHistory(docs: seq<Doc>, docs': seq<Doc>, m: Mode, n: Mode, fates: (seq<Fate>, seq<Fate>),
      endings: (Ending, Ending))
    requires InOrder(docs) && InOrder(docs') && Evolves(DocsOf(docs), DocsOf(docs'))
    ensures History([PlanOver(m, docs, fates.0, endings.0), PlanOver(n, docs', fates.1, endings.1)],
              [ServiceOver(docs), ServiceOver(docs')])
  {
    OneByOneServes(docs, LastOfPage);
    OneByOneServes(docs', LastOfPage);
  }

  /** One document stays as it is, the other is edited after it. */
  lemma {:induction false} EditQualifies(first: Artifact, other: Artifact, edited: Artifact, m: Mode, n: Mode,
      fates: (seq<Fate>, seq<Fate>), endings: (Ending, Ending))
    ensures var (docs, docs') := ([Doc(first, "1"), Doc(other, "5")], [Doc(other, "5"), Doc(edited, "9")]);
      History([PlanOver(m, docs, fates.0, endings.0), PlanOver(n, docs', fates.1, endings.1)],
              [ServiceOver(docs), ServiceOver(docs')])
  {
    assert Before("1", "5") && Before("5", "9");
    BeforeIsTotal("1", "5", "9");
    BeforeIsTotal("5", "9", "9");
    TwoRunHistory([Doc(first, "1"), Doc(other, "5")], [Doc(other, "5"), Doc(edited, "9")], m, n, fates, endings);
  }

  lemma TwoPages(d: Doc, e: Doc, from: Option<Cursor>)
    requires from.Some? ==> !Before(e.updatedAt, from.value)
    ensures PagesOf([d, e], from) == if from.Some? && Before(d.updatedAt, from.value) then [[e]] else [[d], [e]]
  {
    assert [d, e][..1] == [d] && [d][..0] == [];
    assert PagesOf([], from) == [];
    assert PagesOf([d], from) == if from.Some? && Before(d.updatedAt, from.value) then [] else [[d]];
  }

  lemma PageStream(d: Doc, pages: seq<seq<Doc>>, from: Option<Cursor>)
    requires d.updatedAt != "" && pages != [] && pages[0] == [d]
    ensures Stream(LastOfPage, from, pages, 1) == [ArtifactEmit(d.artifact), CheckpointEmit(d.updatedAt)]
  {
    assert [d][..0] == [];
    assert Artifacts([d]) == [ArtifactEmit(d.artifact)];
  }

  lemma OneEmitted(a: Artifact, rest: seq<Emit>)
    ensures Emitted(([ArtifactEmit(a)] + rest)[..1]) == {a.key}
    ensures (forall e :: e in rest ==> e.CheckpointEmit?) ==> Emitted([ArtifactEmit(a)] + rest) == {a.key}
  {
    var one := [ArtifactEmit(a)];
    assert one[..0] == [] && (one + rest)[..1] == one;
    EmittedAppend(one, rest);
    if forall e :: e in rest ==> e.CheckpointEmit? {
      NothingEmitted(rest);
    }
  }

  lemma {:induction false} NothingEmitted(emits: seq<Emit>)
    requires forall e :: e in emits ==> e.CheckpointEmit?
    ensures Emitted(emits) == {}
  {
    if emits != [] {
      NothingEmitted(emits[..|emits| - 1]);
      assert emits[|emits| - 1] in emits;
    }
  }

  /** No one coverage fits both runs: from "5" the first connector leaves out the old version, which the
      second has not brought when it issues "5". */
  lemma {:induction false} EditNeedsTwoCoverages(covers: Coverage, first: Artifact, other: Artifact, edited: Artifact)
    requires first.key != other.key
    ensures var (docs, docs') := ([Doc(first, "1"), Doc(other, "5")], [Doc(other, "5"), Doc(edited, "9")]);
      !(KeepsPromise(covers, KeysOfDocs(DocsOf(docs)), ConnectorOf(LastOfPage, OneByOne(docs)))
        && KeepsPromise(covers, KeysOfDocs(DocsOf(docs')), ConnectorOf(LastOfPage, OneByOne(docs'))))
  {
    var (docs, docs') := ([Doc(first, "1"), Doc(other, "5")], [Doc(other, "5"), Doc(edited, "9")]);
    var (conn, conn') := (ConnectorOf(LastOfPage, OneByOne(docs)), ConnectorOf(LastOfPage, OneByOne(docs')));
    assert Before("1", "5");
    BeforeIsTotal("1", "5", "5");
    if KeepsPromise(covers, KeysOfDocs(DocsOf(docs)), conn) && KeepsPromise(covers, KeysOfDocs(DocsOf(docs')), conn') {
      LeftOutFromFive(covers, docs[0], docs[1]);
      BroughtBeforeFive(covers, docs'[0], docs'[1]);
    }
  }

  lemma LeftOutFromFive(covers: Coverage, d: Doc, e: Doc)
    requires Before(d.updatedAt, "5") && e.updatedAt == "5" && !Before("5", "5") && d.artifact.key != e.artifact.key
    requires KeepsPromise(covers, KeysOfDocs(DocsOf([d, e])), ConnectorOf(LastOfPage, OneByOne([d, e])))
    ensures d.artifact.key in covers("5")
  {
    ResumedFromFive(d, e);
    assert d in DocsOf([d, e]);
    MustCover(covers, KeysOfDocs(DocsOf([d, e])), ConnectorOf(LastOfPage, OneByOne([d, e])), "5", d.artifact.key);
  }

  lemma MustCover(covers: Coverage, upstream: set<DedupeKey>, conn: Connector, c: Cursor, key: DedupeKey)
    requires KeepsPromise(covers, upstream, conn) && key in upstream && key !in Emitted(conn.incremental(Some(c)))
    ensures key in covers(c)
  {
    assert StreamKeepsPromise(covers, upstream, Some(c), conn.incremental(Some(c)));
  }

  lemma ResumedFromFive(d: Doc, e: Doc)
    requires Before(d.updatedAt, "5") && e.updatedAt == "5" && !Before("5", "5")
    ensures Emitted(ConnectorOf(LastOfPage, OneByOne([d, e])).incremental(Some("5"))) == {e.artifact.key}
  {
    TwoPages(d, e, Some("5"));
    PageStream(e, [[e]], Some("5"));
    OneEmitted(e.artifact, [CheckpointEmit("5")]);
    assert [ArtifactEmit(e.artifact)] + [CheckpointEmit("5")] == [ArtifactEmit(e.artifact), CheckpointEmit("5")];
  }

  lemma BroughtBeforeFive(covers: Coverage, e: Doc, f: Doc)
    requires e.updatedAt == "5"
    requires KeepsPromise(covers, KeysOfDocs(DocsOf([e, f])), ConnectorOf(LastOfPage, OneByOne([e, f])))
    ensures covers("5") <= {e.artifact.key}
  {
    var stream := ConnectorOf(LastOfPage, OneByOne([e, f])).backfill;
    TwoPages(e, f, None);
    PageStream(e, [[e], [f]], None);
    var rest := stream[1..];
    assert stream == [ArtifactEmit(e.artifact)] + rest && stream[1] == CheckpointEmit("5");
    OneEmitted(e.artifact, rest);
    assert StreamKeepsPromise(covers, KeysOfDocs(DocsOf([e, f])), None, stream);
  }

  // ---------------------------------------------------------------------------
  // A drained stream moves the cursor on
  // ---------------------------------------------------------------------------

  ghost predicate NotOlder(docs: set<Doc>, c: Cursor) {
    forall d :: d in docs ==> !Before(c, d.updatedAt)
  }

  /** Times are known, and in each page the last document is the newest. */
  ghost predicate Stampable(marking: Marking, pages: seq<seq<Doc>>) {
    && (forall d :: d in Items(pages) ==> d.updatedAt != "")
    && (marking.LastOfPage? ==> Ascending(pages) && forall i, d :: 0 <= i < |pages| && d in pages[i] ==>
          !Before(pages[i][|pages[i]| - 1].updatedAt, d.updatedAt))
  }

  lemma NotBeforeTransitive(a: Cursor, b: Cursor, c: Cursor)
    requires !Before(a, b) && !Before(b, c)
    ensures !Before(a, c)
  {
    BeforeIsTotal(a, b, c);
  }

  lemma {:induction false} NewestOfPage(max: Option<Cursor>, page: seq<Doc>)
    requires forall d :: d in page ==> d.updatedAt != ""
    ensures var newest := NewestOf(max, page);
      && (page != [] || max.Some? ==> newest.Some?)
      && (newest.Some? ==> NotOlder(DocsOf(page), newest.value))
      && (max.Some? ==> !Before(newest.value, max.value))
  {
    if max.Some? {
      BeforeIsTotal(max.value, max.value, max.value);
    }
    if page != [] {
      var n := |page| - 1;
      assert page == page[..n] + [page[n]];
      NewestOfPage(max, page[..n]);
      var before, newest := NewestOf(max, page[..n]), NewestOf(max, page);
      BeforeIsTotal(newest.value, newest.value, newest.value);
      if before.Some? {
        NewerIsNotOlder(before.value, page[n].updatedAt);
        forall d | d in DocsOf(page[..n]) ensures !Before(newest.value, d.updatedAt) {
          NotBeforeTransitive(newest.value, before.value, d.updatedAt);
        }
        if max.Some? {
          NotBeforeTransitive(newest.value, before.value, max.value);
        }
      }
    }
  }

  lemma NewerIsNotOlder(max: Cursor, updatedAt: Cursor)
    ensures var newest := Newer(Some(max), updatedAt).value; !Before(newest, max) && !Before(newest, updatedAt)
  {
    BeforeIsTotal(max, updatedAt, updatedAt);
    BeforeIsTotal(updatedAt, max, max);
    BeforeIsTotal(max, max, max);
    assert max == "" ==> !Before(updatedAt, max);
  }

  lemma {:induction false} NewestIsNewest(from: Option<Cursor>, pages: seq<seq<Doc>>)
    requires forall d :: d in Items(pages) ==> d.updatedAt != ""
    ensures var newest := Newest(from, pages);
      && (Items(pages) != {} || from.Some? ==> newest.Some?)
      && (newest.Some? ==> NotOlder(Items(pages), newest.value))
      && (from.Some? ==> !Before(newest.value, from.value))
  {
    if from.Some? {
      BeforeIsTotal(from.value, from.value, from.value);
    }
    if pages != [] {
      var n := |pages| - 1;
      ItemsSnoc(pages, |pages|);
      assert pages[..|pages|] == pages;
      NewestIsNewest(from, pages[..n]);
      NewestOfPage(Newest(from, pages[..n]), pages[n]);
      var before, newest := Newest(from, pages[..n]), Newest(from, pages);
      if before.Some? {
        forall d | d in Items(pages[..n]) ensures !Before(newest.value, d.updatedAt) {
          NotBeforeTransitive(newest.value, before.value, d.updatedAt);
        }
        if from.Some? {
          NotBeforeTransitive(newest.value, before.value, from.value);
        }
      }
    }
  }

  /** The last checkpoint issued up to page `n`, or where the stream started. */
  function IssuedUpTo(marking: Marking, from: Option<Cursor>, pages: seq<seq<Doc>>, n: nat): Option<Cursor>
    requires n <= |pages|
  {
    if n == 0 then from
    else
      var mark := Mark(marking, from, pages, n);
      if mark.Some? then mark else IssuedUpTo(marking, from, pages, n - 1)
  }

  lemma {:induction false} IssuedLast(marking: Marking, from: Option<Cursor>, pages: seq<seq<Doc>>, n: nat)
    requires n <= |pages|
    ensures LastCheckpoint(Stream(marking, from, pages, n), from, IssuedUpTo(marking, from, pages, n))
  {
    if n == 0 {
      assert NoneAfter(Stream(marking, from, pages, 0), -1);
    } else {
      var before, mark := Stream(marking, from, pages, n - 1), Mark(marking, from, pages, n);
      IssuedLast(marking, from, pages, n - 1);
      ArtifactsKeepLast(before, pages[n - 1], from, IssuedUpTo(marking, from, pages, n - 1));
      if mark.Some? {
        LastCheckpointSnoc(before + Artifacts(pages[n - 1]), CheckpointEmit(mark.value), from,
          IssuedUpTo(marking, from, pages, n - 1), mark);
      } else {
        assert before + Artifacts(pages[n - 1]) + [] == before + Artifacts(pages[n - 1]);
      }
    }
  }

  lemma {:induction false} ArtifactsKeepLast(before: seq<Emit>, page: seq<Doc>, from: Option<Cursor>,
      cursor: Option<Cursor>)
    requires LastCheckpoint(before, from, cursor)
    ensures LastCheckpoint(before + Artifacts(page), from, cursor)
  {
    if page == [] {
      assert before + Artifacts(page) == before;
    } else {
      var n := |page| - 1;
      ArtifactsKeepLast(before, page[..n], from, cursor);
      LastCheckpointSnoc(before + Artifacts(page[..n]), ArtifactEmit(page[n].artifact), from, cursor, cursor);
      assert before + Artifacts(page) == before + Artifacts(page[..n]) + [ArtifactEmit(page[n].artifact)];
    }
  }

  lemma LastIsUnique(stream: seq<Emit>, otherwise: Option<Cursor>, c: Option<Cursor>, d: Option<Cursor>)
    requires LastCheckpoint(stream, otherwise, c) && LastCheckpoint(stream, otherwise, d)
    ensures c == d
  {
    if i :| 0 <= i < |stream| && NoneAfter(stream, i) && stream[i].CheckpointEmit? && c == Some(stream[i].cursor) {
      var j :| 0 <= j < |stream| && NoneAfter(stream, j) && stream[j].CheckpointEmit? && d == Some(stream[j].cursor);
      assert i == j;
    }
  }

  lemma {:induction false} IssuedIsNewestSoFar(from: Option<Cursor>, pages: seq<seq<Doc>>, n: nat)
    requires n <= |pages| && forall d :: d in Items(pages[..n]) ==> d.updatedAt != ""
    ensures IssuedUpTo(NewestSoFar, from, pages, n) == Newest(from, pages[..n])
  {
    if n > 0 {
      ItemsSnoc(pages, n);
      IssuedIsNewestSoFar(from, pages, n - 1);
      NewestStep(from, pages, n - 1);
      NewestOfIsSeen(Newest(from, pages[..n - 1]), pages[n - 1]);
    }
  }

  lemma {:induction false} NothingIssuedEarly(from: Option<Cursor>, pages: seq<seq<Doc>>, n: nat)
    requires n < |pages|
    ensures IssuedUpTo(NewestAtEnd, from, pages, n) == from
  {
    if n > 0 {
      NothingIssuedEarly(from, pages, n - 1);
    }
  }

  lemma {:induction false} IssuedAtEnd(from: Option<Cursor>, pages: seq<seq<Doc>>)
    requires forall d :: d in Items(pages) ==> d.updatedAt != ""
    ensures IssuedUpTo(NewestAtEnd, from, pages, |pages|) == Newest(from, pages)
  {
    if pages != [] {
      assert pages[..|pages|] == pages;
      NothingIssuedEarly(from, pages, |pages| - 1);
      NewestIsSeen(from, pages);
    }
  }

  lemma {:induction false} IssuedByPage(from: Option<Cursor>, pages: seq<seq<Doc>>, n: nat)
    requires n <= |pages| && Stampable(LastOfPage, pages)
    ensures Items(pages[..n]) != {} ==>
      IssuedUpTo(LastOfPage, from, pages, n).Some?
      && NotOlder(Items(pages[..n]), IssuedUpTo(LastOfPage, from, pages, n).value)
  {
    if n > 0 {
      IssuedByPage(from, pages, n - 1);
      ItemsSnoc(pages, n);
      if pages[n - 1] != [] {
        LastOfPageIsNewest(pages, n);
      }
    }
  }

  lemma LastOfPageIsNewest(pages: seq<seq<Doc>>, n: nat)
    requires 0 < n <= |pages| && Stampable(LastOfPage, pages) && pages[n - 1] != []
    ensures var last := pages[n - 1][|pages[n - 1]| - 1];
      last.updatedAt != "" && NotOlder(Items(pages[..n]), last.updatedAt)
  {
    var last := pages[n - 1][|pages[n - 1]| - 1];
    LastIsKnown(pages, n - 1);
    forall d | d in Items(pages[..n]) ensures !Before(last.updatedAt, d.updatedAt) {
      var j := PageOf(pages, n, d);
      LastIsNotOlder(pages, j, n - 1, d);
    }
  }

  lemma LastIsKnown(pages: seq<seq<Doc>>, n: nat)
    requires n < |pages| && Stampable(LastOfPage, pages) && pages[n] != []
    ensures pages[n][|pages[n]| - 1].updatedAt != ""
  {
    ListedOnPage(pages, n, pages[n][|pages[n]| - 1]);
  }

  lemma LastIsNotOlder(pages: seq<seq<Doc>>, j: nat, n: nat, d: Doc)
    requires j <= n < |pages| && Stampable(LastOfPage, pages) && pages[n] != [] && d in pages[j]
    ensures !Before(pages[n][|pages[n]| - 1].updatedAt, d.updatedAt)
  {
    if j < n {
      assert pages[n][|pages[n]| - 1] in pages[n];
    }
  }

  lemma PageOf(pages: seq<seq<Doc>>, n: nat, d: Doc) returns (j: nat)
    requires n <= |pages| && d in Items(pages[..n])
    ensures j < n && d in pages[j]
  {
    assert pages[..0] == [];
    ItemsAreOnPages(pages, 0, n, d);
    j :| 0 <= j < n && d in pages[j];
  }

  lemma {:induction false} ListedOnPage(pages: seq<seq<Doc>>, i: nat, d: Doc)
    requires i < |pages| && d in pages[i]
    ensures d in Items(pages)
    decreases |pages|
  {
    ItemsSnoc(pages, |pages|);
    assert pages[..|pages|] == pages;
    if i < |pages| - 1 {
      ListedOnPage(pages[..|pages| - 1], i, d);
    }
  }

  /** A drained stream that listed anything leaves a cursor that no listed document is newer than: the next
      incremental run starts from there and not from the beginning. */
  lemma {:induction false} DrainedStreamMovesOn(marking: Marking, from: Option<Cursor>, pages: seq<seq<Doc>>,
      cursor: Option<Cursor>)
    requires Stampable(marking, pages) && Items(pages) != {}
    requires LastCheckpoint(Stream(marking, from, pages, |pages|), from, cursor)
    ensures cursor.Some? && NotOlder(Items(pages), cursor.value)
  {
    assert pages[..|pages|] == pages;
    IssuedLast(marking, from, pages, |pages|);
    LastIsUnique(Stream(marking, from, pages, |pages|), from, cursor, IssuedUpTo(marking, from, pages, |pages|));
    NewestIsNewest(from, pages);
    match marking
    case LastOfPage => IssuedByPage(from, pages, |pages|);
    case NewestSoFar => IssuedIsNewestSoFar(from, pages, |pages|);
    case NewestAtEnd => IssuedAtEnd(from, pages);
  }
}
