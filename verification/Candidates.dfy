/** Scoring and queueing of near-duplicate people: `scoreMatch`, `shouldQueue` and
    `sharesExactRef` of `packages/identity/src/matching.ts`, and `findMatchCandidates` of
    `packages/identity/src/candidates.ts`.  */
module Candidates {
  import opened Refs
  import opened Sorting
  import JaroWinkler

  type Id = string

  const QUEUE_THRESHOLD: real := 0.84
  const AUTO_MERGE_THRESHOLD: real := 1.0
  const DEFAULT_SCAN_LIMIT: nat := 500

  datatype Signals = Signals(nameSimilarity: real, sharedDomain: bool, sharedOrg: bool)

  /** A person row: its folded display name and its normalized refs. */
  datatype Person = Person(id: Id, name: string, refs: seq<Ref>)

  /** A row of `identity_review_queue`; `entityAId` is the smaller id of the pair. */
  datatype Row = Row(entityAId: Id, entityBId: Id, score: real, signals: Signals)

  datatype MatchCandidate = MatchCandidate(entityId: Id, score: real, signals: Signals, queued: bool)

  // ---------------------------------------------------------------------------
  // Scoring
  // ---------------------------------------------------------------------------

  function MinReal(x: real, y: real): real {
    if x <= y then x else y
  }

  function ScoreMatch(nameA: string, nameB: string, sharedDomain: bool, sharedOrg: bool): (real, Signals) {
    var similarity := JaroWinkler.Similarity(nameA, nameB);
    var raised := similarity + (if sharedDomain then 0.05 else 0.0) + (if sharedOrg then 0.05 else 0.0);
    (MinReal(raised, 0.99), Signals(similarity, sharedDomain, sharedOrg))
  }

  predicate ShouldQueue(score: real, signals: Signals) {
    && score < AUTO_MERGE_THRESHOLD
    && score >= QUEUE_THRESHOLD
    && (signals.nameSimilarity >= 0.9 || signals.sharedDomain || signals.sharedOrg)
  }

  /** Position of the last '@' among the first `n` characters; -1 if there is none. */
  function LastAt(s: string, n: nat): (r: int)
    requires n <= |s|
    ensures -1 <= r < n
  {
    if n == 0 then -1 else if s[n - 1] == '@' then n - 1 else LastAt(s, n - 1)
  }

  function DomainOf(r: Ref): set<string> {
    if r.connector == IDENTITY_REF_DOMAIN then {r.externalId}
    else if r.connector == IDENTITY_REF_EMAIL then
      var at := LastAt(r.externalId, |r.externalId|);
      if at > 0 then {r.externalId[at + 1..]} else {}
    else {}
  }

  function DomainsOf(refs: seq<Ref>): set<string> {
    set r, d | r in refs && d in DomainOf(r) :: d
  }

  /** The organizations reached from `id` over `member_of` edges. */
  function OrgsOf(memberOf: set<(Id, Id)>, id: Id): set<Id> {
    set e | e in memberOf && e.0 == id :: e.1
  }

  predicate Intersects(a: set<string>, b: set<string>) {
    exists v :: v in a && v in b
  }

  /** The score of a pair, seen from `x`. */
  function PairScore(memberOf: set<(Id, Id)>, x: Person, y: Person): (real, Signals) {
    ScoreMatch(x.name, y.name,
               Intersects(DomainsOf(x.refs), DomainsOf(y.refs)),
               Intersects(OrgsOf(memberOf, x.id), OrgsOf(memberOf, y.id)))
  }

  /** Whether scanning from `x` puts the pair in the queue. */
  predicate Queues(memberOf: set<(Id, Id)>, x: Person, y: Person) {
    var (score, signals) := PairScore(memberOf, x, y);
    !SharesExactRef(x.refs, y.refs) && ShouldQueue(score, signals)
  }

  /** `domain` stands in `r`: as a whole in a domain ref, after the last '@' of an address in an email ref. */
  ghost predicate NamesDomain(r: Ref, domain: string) {
    || (r.connector == "fde:domain" && r.externalId == domain)
    || (r.connector == "fde:email" && '@' !in domain
        && exists local :: local != "" && r.externalId == local + "@" + domain)
  }

  lemma {:induction false} LastAtSplits(s: string, n: nat)
    requires n <= |s|
    ensures var at := LastAt(s, n);
      (at >= 0 ==> s[at] == '@') && forall i :: at < i < n ==> s[i] != '@'
  {
    if n > 0 && s[n - 1] != '@' {
      LastAtSplits(s, n - 1);
    }
  }

  lemma DomainExactly(r: Ref, domain: string)
    ensures domain in DomainOf(r) <==> NamesDomain(r, domain)
  {
    assert |"fde:domain"| != |"fde:email"|;
    var s := r.externalId;
    var at := LastAt(s, |s|);
    if r.connector == "fde:email" {
      if at > 0 {
        CutAtLast(s);
      }
      forall local: string | '@' !in domain && local != "" && s == local + "@" + domain
        ensures at > 0 && s[at + 1..] == domain
      {
        LastOfAddress(local, domain);
      }
    }
  }

  lemma CutAtLast(s: string)
    requires LastAt(s, |s|) >= 0
    ensures var at := LastAt(s, |s|);
      s == s[..at] + "@" + s[at + 1..] && '@' !in s[at + 1..]
  {
    LastAtSplits(s, |s|);
    CutAround(s, LastAt(s, |s|));
  }

  lemma CutAround(s: string, at: nat)
    requires at < |s| && s[at] == '@'
    ensures s == s[..at] + "@" + s[at + 1..]
  {
    assert s == s[..at] + s[at..] && s[at..] == "@" + s[at + 1..];
  }

  lemma LastOfAddress(local: string, domain: string)
    requires '@' !in domain
    ensures var s := local + "@" + domain;
      LastAt(s, |s|) == |local| && s[|local| + 1..] == domain
  {
    var s := local + "@" + domain;
    LastAtSplits(s, |s|);
    assert s[|local|] == '@';
    assert forall i :: |local| < i < |s| ==> s[i] == domain[i - |local| - 1];
  }

  /** The signals of a pair: the similarity of the names, some domain that both name, and some organization
      that both are members of. */
  lemma {:induction false} SignalsExactly(memberOf: set<(Id, Id)>, x: Person, y: Person)
    ensures var signals := PairScore(memberOf, x, y).1;
      && signals.nameSimilarity == JaroWinkler.Similarity(x.name, y.name)
      && (signals.sharedDomain <==>
            exists r, s, domain :: r in x.refs && s in y.refs && NamesDomain(r, domain) && NamesDomain(s, domain))
      && (signals.sharedOrg <==> exists org :: (x.id, org) in memberOf && (y.id, org) in memberOf)
  {
    forall r, domain ensures domain in DomainOf(r) <==> NamesDomain(r, domain) {
      DomainExactly(r, domain);
    }
    var dx, dy := DomainsOf(x.refs), DomainsOf(y.refs);
    if d :| d in dx && d in dy {
      var r :| r in x.refs && d in DomainOf(r);
      var s :| s in y.refs && d in DomainOf(s);
      assert NamesDomain(r, d) && NamesDomain(s, d);
    }
    if r, s, d :| r in x.refs && s in y.refs && NamesDomain(r, d) && NamesDomain(s, d) {
      assert d in dx && d in dy;
    }
    var ox, oy := OrgsOf(memberOf, x.id), OrgsOf(memberOf, y.id);
    if org :| (x.id, org) in memberOf && (y.id, org) in memberOf {
      assert org in ox && org in oy;
    }
  }

  /** The score: the similarity, a twentieth more for each of the two signals, but at most 0.99. */
  lemma {:induction false} ScoreExactly(memberOf: set<(Id, Id)>, x: Person, y: Person)
    ensures var (score, signals) := PairScore(memberOf, x, y);
      var signalled := (if signals.sharedDomain then 1 else 0) + (if signals.sharedOrg then 1 else 0);
      if 100.0 * signals.nameSimilarity + (5 * signalled) as real <= 99.0
      then 100.0 * score == 100.0 * signals.nameSimilarity + (5 * signalled) as real
      else 100.0 * score == 99.0
  {
  }

  /** The queue decision, spelled out on the name similarity: the name alone must reach 0.9,
      0.79 with one corroborating signal, 0.74 with both.  A fuzzy score never auto-merges. */
  lemma {:induction false} QueueBand(nameA: string, nameB: string, sharedDomain: bool, sharedOrg: bool)
    ensures var (score, signals) := ScoreMatch(nameA, nameB, sharedDomain, sharedOrg);
            var similarity := JaroWinkler.Similarity(nameA, nameB);
            && 0.0 <= score < AUTO_MERGE_THRESHOLD
            && (ShouldQueue(score, signals) <==>
                  || similarity >= 0.9
                  || ((sharedDomain || sharedOrg) && similarity >= 0.79)
                  || (sharedDomain && sharedOrg && similarity >= 0.74))
  {
    JaroWinkler.SimilarityRange(nameA, nameB);
  }

  /** Score, signals and decision are the same from either side of the pair. */
  lemma {:induction false} PairSymmetric(memberOf: set<(Id, Id)>, x: Person, y: Person)
    ensures PairScore(memberOf, x, y) == PairScore(memberOf, y, x)
    ensures Queues(memberOf, x, y) <==> Queues(memberOf, y, x)
  {
    JaroWinkler.SimilaritySymmetric(x.name, y.name);
    assert Intersects(DomainsOf(x.refs), DomainsOf(y.refs)) <==> Intersects(DomainsOf(y.refs), DomainsOf(x.refs));
    assert Intersects(OrgsOf(memberOf, x.id), OrgsOf(memberOf, y.id)) <==>
      Intersects(OrgsOf(memberOf, y.id), OrgsOf(memberOf, x.id));
    assert SharesExactRef(x.refs, y.refs) <==> SharesExactRef(y.refs, x.refs);
  }

  // ---------------------------------------------------------------------------
  // The queue table
  // ---------------------------------------------------------------------------

  function OrderedPair(x: Id, y: Id): (Id, Id) {
    if StringLt(x, y) then (x, y) else (y, x)
  }

  function PairOf(r: Row): (Id, Id) {
    (r.entityAId, r.entityBId)
  }

  /** `identity_review_queue` has a unique index on the pair. */
  predicate HasPair(rows: seq<Row>, pair: (Id, Id)) {
    exists i :: 0 <= i < |rows| && PairOf(rows[i]) == pair
  }

  /** Pairs are stored smaller id first, name two distinct people, and occur once. */
  ghost predicate WellFormed(rows: seq<Row>) {
    && (forall i :: 0 <= i < |rows| ==> StringLt(rows[i].entityAId, rows[i].entityBId))
    && (forall i, j :: 0 <= i < j < |rows| ==> PairOf(rows[i]) != PairOf(rows[j]))
  }

  function RowFor(memberOf: set<(Id, Id)>, x: Person, y: Person): Row {
    var (score, signals) := PairScore(memberOf, x, y);
    var (a, b) := OrderedPair(x.id, y.id);
    Row(a, b, score, signals)
  }

  /** `INSERT ... ON CONFLICT DO NOTHING` on the ordered pair. */
  function Enqueue(rows: seq<Row>, row: Row): seq<Row> {
    if HasPair(rows, PairOf(row)) then rows else rows + [row]
  }

  /** The rows one more candidate `y` adds when `x` is scanned. */
  function ScanOne(memberOf: set<(Id, Id)>, rows: seq<Row>, x: Person, y: Person): seq<Row> {
    if Queues(memberOf, x, y) then Enqueue(rows, RowFor(memberOf, x, y)) else rows
  }

  function Scan(memberOf: set<(Id, Id)>, rows: seq<Row>, x: Person, others: seq<Person>): seq<Row> {
    if others == [] then rows
    else ScanOne(memberOf, Scan(memberOf, rows, x, others[..|others| - 1]), x, others[|others| - 1])
  }

  /** What the scan of `x` reports for each queued pair, before sorting. */
  function Report(memberOf: set<(Id, Id)>, rows: seq<Row>, x: Person, others: seq<Person>): seq<MatchCandidate> {
    if others == [] then []
    else
      var n := |others| - 1;
      var y := others[n];
      var before := Scan(memberOf, rows, x, others[..n]);
      var (score, signals) := PairScore(memberOf, x, y);
      Report(memberOf, rows, x, others[..n]) +
      if Queues(memberOf, x, y) then [MatchCandidate(y.id, score, signals, !HasPair(before, OrderedPair(x.id, y.id)))]
      else []
  }

  predicate ByScoreDescending(x: MatchCandidate, y: MatchCandidate) {
    x.score >= y.score
  }

  /** The other people, oldest first, cut at the scan limit. */
  function Others(people: seq<Person>, self: Id, limit: nat): (r: seq<Person>)
    ensures |r| <= limit
    ensures forall y :: y in r ==> y in people && y.id != self
    ensures |people| <= limit ==> forall y :: y in people && y.id != self ==> y in r
  {
    if limit == 0 || people == [] then []
    else if people[0].id == self then Others(people[1..], self, limit)
    else [people[0]] + Others(people[1..], self, limit - 1)
  }

  /** Someone is left out only when the limit is used up, by people who come earlier. */
  lemma {:induction false} OthersAreOldest(people: seq<Person>, self: Id, limit: nat, i: nat)
    requires i < |people| && people[i].id != self && people[i] !in Others(people, self, limit)
    ensures |Others(people, self, limit)| == limit
    ensures forall y :: y in Others(people, self, limit) ==> y in people[..i]
  {
    if limit > 0 && i > 0 {
      OthersAreOldest(people[1..], self, if people[0].id == self then limit else limit - 1, i - 1);
      assert people[..i] == [people[0]] + people[1..][..i - 1];
    }
  }

  /** A queued row: the two ids, smaller first, and the score and signals of the pair. */
  lemma {:induction false} RowInFields(memberOf: set<(Id, Id)>, x: Person, y: Person)
    requires x.id != y.id
    ensures var r := RowFor(memberOf, x, y);
      && {r.entityAId, r.entityBId} == {x.id, y.id} && r.entityAId != r.entityBId && StringLe(r.entityAId, r.entityBId)
      && (r.score, r.signals) == PairScore(memberOf, x, y)
  {
    StringLeTotal(x.id, y.id);
  }

  /** No person occurs twice: `id` is the primary key. */
  ghost predicate DistinctIds(people: seq<Person>) {
    forall i, j :: 0 <= i < j < |people| ==> people[i].id != people[j].id
  }

  /** What a scan of `x` should say of `y`, in terms of the queue it started from. */
  function CandidateFor(memberOf: set<(Id, Id)>, rows: seq<Row>, x: Person, y: Person): MatchCandidate {
    var (score, signals) := PairScore(memberOf, x, y);
    MatchCandidate(y.id, score, signals, !HasPair(rows, OrderedPair(x.id, y.id)))
  }

  function QueuedFor(memberOf: set<(Id, Id)>, x: Person, others: seq<Person>): set<Person> {
    set y | y in others && Queues(memberOf, x, y)
  }

  /** One candidate for each of `others` that queues with `x`, and no other. */
  ghost predicate ReportsQueued(memberOf: set<(Id, Id)>, rows: seq<Row>, x: Person, others: seq<Person>,
      out: seq<MatchCandidate>) {
    && |out| == |QueuedFor(memberOf, x, others)|
    && (forall y :: y in QueuedFor(memberOf, x, others) ==> CandidateFor(memberOf, rows, x, y) in out)
    && forall m :: m in out ==>
      exists y :: y in QueuedFor(memberOf, x, others) && m == CandidateFor(memberOf, rows, x, y)
  }

  /** Scanning `others` queues no pair with a person who is not among them. */
  lemma {:induction false} ScanKeepsPair(memberOf: set<(Id, Id)>, rows: seq<Row>, x: Person, others: seq<Person>,
      y: Person)
    requires forall z :: z in others ==> z.id != y.id && z.id != x.id
    ensures HasPair(Scan(memberOf, rows, x, others), OrderedPair(x.id, y.id)) <==>
      HasPair(rows, OrderedPair(x.id, y.id))
  {
    if others != [] {
      var n := |others| - 1;
      ScanKeepsPair(memberOf, rows, x, others[..n], y);
      var before := Scan(memberOf, rows, x, others[..n]);
      assert OrderedPair(x.id, others[n].id) != OrderedPair(x.id, y.id);
      EnqueueKeepsPair(before, RowFor(memberOf, x, others[n]), OrderedPair(x.id, y.id));
    }
  }

  lemma EnqueueKeepsPair(rows: seq<Row>, row: Row, pair: (Id, Id))
    requires PairOf(row) != pair
    ensures HasPair(Enqueue(rows, row), pair) <==> HasPair(rows, pair)
  {
    if HasPair(rows, pair) {
      var i :| 0 <= i < |rows| && PairOf(rows[i]) == pair;
      assert Enqueue(rows, row)[i] == rows[i];
    }
  }

  /** What a scan reports: each person it queues, once, with the pair's score, and marked as newly
      queued exactly when the pair was not in the queue before the scan. */
  lemma {:induction false} ReportContents(memberOf: set<(Id, Id)>, rows: seq<Row>, x: Person, others: seq<Person>)
    requires DistinctIds(others) && forall y :: y in others ==> y.id != x.id
    ensures ReportsQueued(memberOf, rows, x, others, Report(memberOf, rows, x, others))
  {
    if others == [] {
      assert QueuedFor(memberOf, x, others) == {};
    } else {
      var n := |others| - 1;
      var y := others[n];
      assert others == others[..n] + [y];
      ReportContents(memberOf, rows, x, others[..n]);
      ScanKeepsPair(memberOf, rows, x, others[..n], y);
      assert y !in others[..n];
      ReportGrows(memberOf, rows, x, others[..n], y, Report(memberOf, rows, x, others[..n]));
    }
  }

  lemma ReportGrows(memberOf: set<(Id, Id)>, rows: seq<Row>, x: Person, others: seq<Person>, y: Person,
      out: seq<MatchCandidate>)
    requires y !in others && ReportsQueued(memberOf, rows, x, others, out)
    ensures ReportsQueued(memberOf, rows, x, others + [y],
              out + if Queues(memberOf, x, y) then [CandidateFor(memberOf, rows, x, y)] else [])
  {
    QueuedSnoc(memberOf, x, others, y);
    if Queues(memberOf, x, y) {
      OneMoreReported(memberOf, rows, x, others, y, out);
    } else {
      assert out + [] == out;
    }
  }

  lemma QueuedSnoc(memberOf: set<(Id, Id)>, x: Person, others: seq<Person>, y: Person)
    ensures QueuedFor(memberOf, x, others + [y]) ==
      QueuedFor(memberOf, x, others) + if Queues(memberOf, x, y) then {y} else {}
  {
  }

  lemma OneMoreReported(memberOf: set<(Id, Id)>, rows: seq<Row>, x: Person, others: seq<Person>, y: Person,
      out: seq<MatchCandidate>)
    requires ReportsQueued(memberOf, rows, x, others, out) && y !in QueuedFor(memberOf, x, others)
    requires QueuedFor(memberOf, x, others + [y]) == QueuedFor(memberOf, x, others) + {y}
    ensures ReportsQueued(memberOf, rows, x, others + [y], out + [CandidateFor(memberOf, rows, x, y)])
  {
  }

  lemma {:induction false} OthersDistinct(people: seq<Person>, self: Id, limit: nat)
    requires DistinctIds(people)
    ensures DistinctIds(Others(people, self, limit))
  {
    if limit > 0 && people != [] {
      OthersDistinct(people[1..], self, if people[0].id == self then limit else limit - 1);
    }
  }

  predicate Descending(out: seq<MatchCandidate>) {
    forall i, j :: 0 <= i < j < |out| ==> out[i].score >= out[j].score
  }

  lemma SortedReport(memberOf: set<(Id, Id)>, rows: seq<Row>, x: Person, people: seq<Person>, limit: nat)
    ensures var (others, out) := (Others(people, x.id, limit),
      Sort(ByScoreDescending, Report(memberOf, rows, x, Others(people, x.id, limit))));
      Descending(out) && (DistinctIds(people) ==> ReportsQueued(memberOf, rows, x, others, out))
  {
    var others := Others(people, x.id, limit);
    SortSorts(ByScoreDescending, Report(memberOf, rows, x, others));
    if DistinctIds(people) {
      OthersDistinct(people, x.id, limit);
      ReportContents(memberOf, rows, x, others);
    }
  }

  class ReviewQueue {
    var rows: seq<Row>

    /** `findMatchCandidates`: scores `self` against everyone else and enqueues what lands in the band. */
    method FindMatchCandidates(people: seq<Person>, memberOf: set<(Id, Id)>, selfId: Id,
        limit: nat := DEFAULT_SCAN_LIMIT)
      returns (out: seq<MatchCandidate>)
      requires WellFormed(rows) && UniqueIds(people)
      modifies this
      ensures WellFormed(rows)
      ensures (forall p :: p in people ==> p.id != selfId) ==> out == [] && rows == old(rows)
      ensures forall x :: x in people && x.id == selfId ==>
                && rows == Scan(memberOf, old(rows), x, Others(people, selfId, limit))
                && out == Sort(ByScoreDescending, Report(memberOf, old(rows), x, Others(people, selfId, limit)))
                && (DistinctIds(people) ==> ReportsQueued(memberOf, old(rows), x, Others(people, selfId, limit), out))
      ensures Descending(out)
    {
      out := [];
      if !exists p :: p in people && p.id == selfId {
        return;
      }
      var self :| self in people && self.id == selfId;
      var others := Others(people, selfId, limit);
      for i := 0 to |others|
        invariant WellFormed(rows)
        invariant rows == Scan(memberOf, old(rows), self, others[..i])
        invariant out == Report(memberOf, old(rows), self, others[..i])
      {
        var other := others[i];
        assert others[..i + 1][..i] == others[..i];
        if SharesExactRef(self.refs, other.refs) {
          continue;
        }
        var (score, signals) := PairScore(memberOf, self, other);
        if !ShouldQueue(score, signals) {
          continue;
        }
        var queued := EnqueuePair(selfId, other.id, score, signals);
        out := out + [MatchCandidate(other.id, score, signals, queued)];
      }
      assert others[..|others|] == others;
      out := Sort(ByScoreDescending, out);
      SortedReport(memberOf, old(rows), self, people, limit);
    }

    method EnqueuePair(x: Id, y: Id, score: real, signals: Signals) returns (queued: bool)
      requires x != y && WellFormed(rows)
      modifies this
      ensures WellFormed(rows)
      ensures queued <==> !HasPair(old(rows), OrderedPair(x, y))
      ensures rows == Enqueue(old(rows), Row(OrderedPair(x, y).0, OrderedPair(x, y).1, score, signals))
    {
      StringLeTotal(x, y);
      var (a, b) := if StringLt(x, y) then (x, y) else (y, x);
      queued := !HasPair(rows, (a, b));
      if queued {
        rows := rows + [Row(a, b, score, signals)];
      }
    }
  }

  // ---------------------------------------------------------------------------
  // Whole runs: the order in which people are scanned does not matter
  // ---------------------------------------------------------------------------

  function Contents(rows: seq<Row>): set<Row> {
    set r | r in rows
  }

  /** Scanning the people `selves` one after the other. */
  function ScanAll(memberOf: set<(Id, Id)>, rows: seq<Row>, people: seq<Person>, limit: nat,
      selves: seq<Person>): seq<Row> {
    if selves == [] then rows
    else
      var n := |selves| - 1;
      Scan(memberOf, ScanAll(memberOf, rows, people, limit, selves[..n]), selves[n],
        Others(people, selves[n].id, limit))
  }

  /** The pairs a run over `selves` brings up, with the row each one gets. */
  function Wanted(memberOf: set<(Id, Id)>, x: Person, others: seq<Person>): set<Row> {
    set y | y in others && Queues(memberOf, x, y) :: RowFor(memberOf, x, y)
  }

  function WantedAll(memberOf: set<(Id, Id)>, people: seq<Person>, limit: nat, selves: seq<Person>): set<Row> {
    set x, y | x in selves && y in Others(people, x.id, limit) && Queues(memberOf, x, y) :: RowFor(memberOf, x, y)
  }

  predicate UniqueIds(people: seq<Person>) {
    forall p, q :: p in people && q in people && p.id == q.id ==> p == q
  }

  /** Wanted rows that agree on the pair agree on everything: this is where symmetry is used. */
  lemma RowDeterminedByPair(memberOf: set<(Id, Id)>, people: seq<Person>, x: Person, y: Person, u: Person, v: Person)
    requires UniqueIds(people) && x in people && y in people && u in people && v in people
    requires PairOf(RowFor(memberOf, x, y)) == PairOf(RowFor(memberOf, u, v))
    ensures RowFor(memberOf, x, y) == RowFor(memberOf, u, v)
    ensures Queues(memberOf, x, y) <==> Queues(memberOf, u, v)
  {
    PairSymmetric(memberOf, x, y);
    StringLeTotal(x.id, y.id);
    StringLeTotal(u.id, v.id);
  }

  /** `rows` is what remains of `start` after adding exactly the rows of `wanted` whose pair was new. */
  ghost predicate Settled(start: seq<Row>, wanted: set<Row>, rows: seq<Row>) {
    && WellFormed(rows)
    && Contents(rows) == Contents(start) + set r | r in wanted && !HasPair(start, PairOf(r))
  }

  ghost predicate PairsDetermineRows(wanted: set<Row>) {
    forall r, s :: r in wanted && s in wanted && PairOf(r) == PairOf(s) ==> r == s
  }

  lemma EnqueueSettles(start: seq<Row>, wanted: set<Row>, rows: seq<Row>, row: Row)
    requires Settled(start, wanted, rows)
    requires StringLt(row.entityAId, row.entityBId)
    requires PairsDetermineRows(wanted + {row})
    ensures Settled(start, wanted + {row}, Enqueue(rows, row))
  {
    var pair := PairOf(row);
    if HasPair(rows, pair) {
      var i :| 0 <= i < |rows| && PairOf(rows[i]) == pair;
      assert rows[i] in Contents(rows);
      if rows[i] in start {
        var k :| 0 <= k < |start| && start[k] == rows[i];
        assert HasPair(start, pair);
      } else {
        assert rows[i] in wanted && rows[i] == row;
      }
    } else {
      forall k | 0 <= k < |start| ensures PairOf(start[k]) != pair {
        assert start[k] in Contents(rows);
      }
      assert Contents(rows + [row]) == Contents(rows) + {row};
    }
  }

  ghost predicate AllFromPeople(memberOf: set<(Id, Id)>, people: seq<Person>, wanted: set<Row>) {
    forall r :: r in wanted ==> FromPeople(memberOf, people, r)
  }

  /** `wanted` extended candidate by candidate, as the scan of `x` goes. */
  function WantedFrom(memberOf: set<(Id, Id)>, wanted: set<Row>, x: Person, others: seq<Person>): set<Row> {
    if others == [] then wanted
    else
      var n := |others| - 1;
      var before := WantedFrom(memberOf, wanted, x, others[..n]);
      if Queues(memberOf, x, others[n]) then before + {RowFor(memberOf, x, others[n])} else before
  }

  lemma {:induction false} WantedFromIs(memberOf: set<(Id, Id)>, wanted: set<Row>, x: Person, others: seq<Person>)
    ensures WantedFrom(memberOf, wanted, x, others) == wanted + Wanted(memberOf, x, others)
  {
    if others == [] {
      assert Wanted(memberOf, x, others) == {};
    } else {
      var n := |others| - 1;
      WantedFromIs(memberOf, wanted, x, others[..n]);
      WantedSnoc(memberOf, x, others);
    }
  }

  lemma WantedSnoc(memberOf: set<(Id, Id)>, x: Person, others: seq<Person>)
    requires others != []
    ensures var n := |others| - 1;
      Wanted(memberOf, x, others) == Wanted(memberOf, x, others[..n])
        + if Queues(memberOf, x, others[n]) then {RowFor(memberOf, x, others[n])} else {}
  {
    var n := |others| - 1;
    assert others == others[..n] + [others[n]];
  }

  lemma ScanOneSettles(memberOf: set<(Id, Id)>, people: seq<Person>, start: seq<Row>, wanted: set<Row>,
      rows: seq<Row>, x: Person, y: Person)
    requires UniqueIds(people) && x in people && y in people && x.id != y.id
    requires AllFromPeople(memberOf, people, wanted) && Settled(start, wanted, rows)
    requires Queues(memberOf, x, y)
    ensures Settled(start, wanted + {RowFor(memberOf, x, y)}, ScanOne(memberOf, rows, x, y))
    ensures AllFromPeople(memberOf, people, wanted + {RowFor(memberOf, x, y)})
  {
    var row := RowFor(memberOf, x, y);
    StringLeTotal(x.id, y.id);
    assert FromPeople(memberOf, people, row);
    forall r, s | r in wanted + {row} && s in wanted + {row} && PairOf(r) == PairOf(s) ensures r == s {
      SamePair(memberOf, people, r, s);
    }
    EnqueueSettles(start, wanted, rows, row);
  }

  lemma {:induction false} ScanSettles(memberOf: set<(Id, Id)>, people: seq<Person>, start: seq<Row>,
      wanted: set<Row>, rows: seq<Row>,
                                       x: Person, others: seq<Person>)
    requires UniqueIds(people) && x in people
    requires forall y :: y in others ==> y in people && y.id != x.id
    requires AllFromPeople(memberOf, people, wanted) && Settled(start, wanted, rows)
    ensures Settled(start, WantedFrom(memberOf, wanted, x, others), Scan(memberOf, rows, x, others))
    ensures AllFromPeople(memberOf, people, WantedFrom(memberOf, wanted, x, others))
  {
    if others != [] {
      var n := |others| - 1;
      ScanSettles(memberOf, people, start, wanted, rows, x, others[..n]);
      if Queues(memberOf, x, others[n]) {
        ScanOneSettles(memberOf, people, start, WantedFrom(memberOf, wanted, x, others[..n]),
                       Scan(memberOf, rows, x, others[..n]), x, others[n]);
      }
    }
  }

  ghost predicate FromPeople(memberOf: set<(Id, Id)>, people: seq<Person>, r: Row) {
    exists x, y :: x in people && y in people && r == RowFor(memberOf, x, y)
  }

  lemma SamePair(memberOf: set<(Id, Id)>, people: seq<Person>, r: Row, s: Row)
    requires UniqueIds(people) && PairOf(r) == PairOf(s)
    requires FromPeople(memberOf, people, r) && FromPeople(memberOf, people, s)
    ensures r == s
  {
    var x, y :| x in people && y in people && r == RowFor(memberOf, x, y);
    var u, v :| u in people && v in people && s == RowFor(memberOf, u, v);
    RowDeterminedByPair(memberOf, people, x, y, u, v);
  }

  /** A run over any sequence of people leaves the old rows plus one row for each pair that some
      scan brought up and that was not queued before.  The right-hand side does not mention the
      order of `selves`, nor which member of a pair was scanned first. */
  lemma {:induction false} RunSettles(memberOf: set<(Id, Id)>, rows: seq<Row>, people: seq<Person>, limit: nat,
      selves: seq<Person>)
    requires UniqueIds(people) && WellFormed(rows)
    requires forall x :: x in selves ==> x in people
    ensures Settled(rows, WantedAll(memberOf, people, limit, selves), ScanAll(memberOf, rows, people, limit, selves))
    ensures AllFromPeople(memberOf, people, WantedAll(memberOf, people, limit, selves))
  {
    if selves == [] {
      assert WantedAll(memberOf, people, limit, selves) == {};
    } else {
      var n := |selves| - 1;
      var x := selves[n];
      var others := Others(people, x.id, limit);
      RunSettles(memberOf, rows, people, limit, selves[..n]);
      assert selves == selves[..n] + [x];
      var before := WantedAll(memberOf, people, limit, selves[..n]);
      assert WantedAll(memberOf, people, limit, selves) == before + Wanted(memberOf, x, others);
      ScanSettles(memberOf, people, rows, before, ScanAll(memberOf, rows, people, limit, selves[..n]), x, others);
      WantedFromIs(memberOf, before, x, others);
    }
  }

  /** Two runs over the same people, in any two orders and with any repetitions, queue the same rows. */
  lemma {:induction false} OrderIrrelevant(memberOf: set<(Id, Id)>, rows: seq<Row>, people: seq<Person>, limit: nat,
      selves: seq<Person>, selves': seq<Person>)
    requires UniqueIds(people) && WellFormed(rows)
    requires forall x :: x in selves ==> x in people
    requires forall x :: x in selves <==> x in selves'
    ensures Contents(ScanAll(memberOf, rows, people, limit, selves)) ==
      Contents(ScanAll(memberOf, rows, people, limit, selves'))
    ensures |ScanAll(memberOf, rows, people, limit, selves)| == |ScanAll(memberOf, rows, people, limit, selves')|
  {
    RunSettles(memberOf, rows, people, limit, selves);
    RunSettles(memberOf, rows, people, limit, selves');
    assert WantedAll(memberOf, people, limit, selves) == WantedAll(memberOf, people, limit, selves');
    var r, s := ScanAll(memberOf, rows, people, limit, selves), ScanAll(memberOf, rows, people, limit, selves');
    DistinctLength(r);
    DistinctLength(s);
  }

  lemma {:induction false} DistinctLength(rows: seq<Row>)
    requires WellFormed(rows)
    ensures |Contents(rows)| == |rows|
  {
    if rows != [] {
      var n := |rows| - 1;
      DistinctLength(rows[..n]);
      assert rows == rows[..n] + [rows[n]];
      assert Contents(rows) == Contents(rows[..n]) + {rows[n]};
      assert rows[n] !in rows[..n];
    }
  }

  /** With a scan limit that covers everyone, a pair is found whichever of its members is scanned. */
  lemma {:induction false} EitherSideFinds(memberOf: set<(Id, Id)>, people: seq<Person>, limit: nat, x: Person,
      y: Person)
    requires |people| <= limit && x in people && y in people && x.id != y.id && Queues(memberOf, x, y)
    ensures RowFor(memberOf, x, y) in Wanted(memberOf, x, Others(people, x.id, limit))
    ensures RowFor(memberOf, x, y) in Wanted(memberOf, y, Others(people, y.id, limit))
  {
    PairSymmetric(memberOf, x, y);
    StringLeTotal(x.id, y.id);
    assert RowFor(memberOf, y, x) == RowFor(memberOf, x, y);
  }

  /** A queued pair has a name similarity of at least 0.74, and one of 0.9 or a shared signal. */
  lemma {:induction false} QueuedPairsAreSimilar(memberOf: set<(Id, Id)>, x: Person, y: Person)
    requires Queues(memberOf, x, y)
    ensures var signals := RowFor(memberOf, x, y).signals;
            && 0.74 <= signals.nameSimilarity <= 1.0
            && (signals.nameSimilarity >= 0.9 || signals.sharedDomain || signals.sharedOrg)
  {
    QueueBand(x.name, y.name,
              Intersects(DomainsOf(x.refs), DomainsOf(y.refs)),
              Intersects(OrgsOf(memberOf, x.id), OrgsOf(memberOf, y.id)));
    JaroWinkler.SimilarityRange(x.name, y.name);
  }
}
