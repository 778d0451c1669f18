/** Findings of the review tool: `dedupeFindings` of `tools/review/src/passes.ts` and `computeVerdict`
    of `tools/review/src/github.ts`.  The title slug is a parameter.  */
module Findings {
  import opened Options
  import opened Sorting

  datatype Severity = High | Medium | Low | Nit

  datatype Finding = Finding(severity: Severity, file: string, line: Option<nat>, title: string, detail: string,
    pass: string)

  /** Position in `SEVERITIES`: the smaller, the more severe. */
  function Rank(s: Severity): nat {
    match s
    case High => 0
    case Medium => 1
    case Low => 2
    case Nit => 3
  }

  predicate BySeverity(a: Finding, b: Finding) {
    Rank(a.severity) <= Rank(b.severity)
  }

  function SortFindings(findings: seq<Finding>): (r: seq<Finding>)
    ensures multiset(r) == multiset(findings)
    ensures forall f :: f in r <==> f in findings
  {
    Sort(BySeverity, findings)
  }

  type Slug = string -> string

  /** The two clearly name the same thing: same file, and same line or same title. */
  predicate SameIssue(slug: Slug, k: Finding, f: Finding) {
    k.file == f.file && ((f.line.Some? && k.line == f.line) || slug(k.title) == slug(f.title))
  }

  predicate Covered(slug: Slug, kept: seq<Finding>, f: Finding) {
    exists k :: k in kept && SameIssue(slug, k, f)
  }

  /** Greedy: each finding is kept unless it repeats one kept before it. */
  function Kept(slug: Slug, s: seq<Finding>): seq<Finding> {
    if s == [] then []
    else
      var kept := Kept(slug, s[..|s| - 1]);
      var f := s[|s| - 1];
      if Covered(slug, kept, f) then kept else kept + [f]
  }

  function Deduped(slug: Slug, findings: seq<Finding>): seq<Finding> {
    Kept(slug, SortFindings(findings))
  }

  method DedupeFindings(slug: Slug, findings: seq<Finding>) returns (kept: seq<Finding>)
    ensures kept == Deduped(slug, findings)
  {
    kept := [];
    var sorted := SortFindings(findings);
    for i := 0 to |sorted|
      invariant kept == Kept(slug, sorted[..i])
    {
      assert sorted[..i + 1][..i] == sorted[..i];
      var dup := exists k :: k in kept && SameIssue(slug, k, sorted[i]);
      if !dup {
        kept := kept + [sorted[i]];
      }
    }
    assert sorted[..|sorted|] == sorted;
  }

  ghost predicate NoRepeats(slug: Slug, s: seq<Finding>) {
    forall i, j :: 0 <= i < j < |s| ==> !SameIssue(slug, s[i], s[j])
  }

  lemma {:induction false} KeptHasNoRepeats(slug: Slug, s: seq<Finding>)
    ensures NoRepeats(slug, Kept(slug, s))
  {
    if s != [] {
      KeptHasNoRepeats(slug, s[..|s| - 1]);
    }
  }

  lemma {:induction false} KeptIsIn(slug: Slug, s: seq<Finding>)
    ensures forall k :: k in Kept(slug, s) ==> k in s
    ensures Sorted(BySeverity, s) ==> Sorted(BySeverity, Kept(slug, s))
  {
    if s != [] {
      KeptIsIn(slug, s[..|s| - 1]);
      if Sorted(BySeverity, s) {
        var rest, last := s[..|s| - 1], s[|s| - 1];
        assert forall k :: k in rest ==> BySeverity(k, last);
      }
    }
  }

  /** Of sorted findings, each has a kept one that names the same issue and is at least as severe. */
  lemma {:induction false} KeptCovers(slug: Slug, s: seq<Finding>, f: Finding)
    requires Sorted(BySeverity, s) && f in s
    ensures exists k :: k in Kept(slug, s) && SameIssue(slug, k, f) && BySeverity(k, f)
  {
    var last := s[|s| - 1];
    var rest := s[..|s| - 1];
    if f in rest {
      KeptCovers(slug, rest, f);
      var k :| k in Kept(slug, rest) && SameIssue(slug, k, f) && BySeverity(k, f);
      assert k in Kept(slug, s);
    } else {
      assert f == last;
      KeptIsIn(slug, rest);
      if Covered(slug, Kept(slug, rest), f) {
        var k :| k in Kept(slug, rest) && SameIssue(slug, k, f);
        assert BySeverity(k, f) && k in Kept(slug, s);
      } else {
        assert SameIssue(slug, f, f) && f == Kept(slug, s)[|Kept(slug, s)| - 1];
      }
    }
  }

  lemma {:induction false} KeptFixesNoRepeats(slug: Slug, s: seq<Finding>)
    requires NoRepeats(slug, s)
    ensures Kept(slug, s) == s
  {
    if s != [] {
      KeptFixesNoRepeats(slug, s[..|s| - 1]);
    }
  }

  lemma SortedBySeverity(findings: seq<Finding>)
    ensures Sorted(BySeverity, SortFindings(findings))
  {
    SortSorts(BySeverity, findings);
  }

  /** What is reported is a selection of what was found, most severe first, with no issue twice. */
  lemma {:induction false} DedupeSelects(slug: Slug, findings: seq<Finding>)
    ensures var kept := Deduped(slug, findings);
      && (forall k :: k in kept ==> k in findings)
      && Sorted(BySeverity, kept)
      && NoRepeats(slug, kept)
  {
    SortedBySeverity(findings);
    KeptIsIn(slug, SortFindings(findings));
    KeptHasNoRepeats(slug, SortFindings(findings));
  }

  /** Nothing is lost: whatever is dropped repeats something kept that is at least as severe. */
  lemma {:induction false} DedupeCovers(slug: Slug, findings: seq<Finding>, f: Finding)
    requires f in findings
    ensures exists k :: k in Deduped(slug, findings) && SameIssue(slug, k, f) && BySeverity(k, f)
  {
    SortedBySeverity(findings);
    KeptCovers(slug, SortFindings(findings), f);
  }

  lemma {:induction false} DedupeIdempotent(slug: Slug, findings: seq<Finding>)
    ensures Deduped(slug, Deduped(slug, findings)) == Deduped(slug, findings)
  {
    var kept := Deduped(slug, findings);
    DedupeSelects(slug, findings);
    SortFixesSorted(BySeverity, kept);
    KeptFixesNoRepeats(slug, kept);
  }

  /** Among findings of one severity the first reported is the one kept: the sort is stable. */
  lemma {:induction false} DedupeKeepsOrder(findings: seq<Finding>, f: Finding)
    ensures Ties(BySeverity, f, SortFindings(findings)) == Ties(BySeverity, f, findings)
  {
    SortStable(BySeverity, f, findings);
  }

  /** High before medium before low before nit. */
  predicate MoreSevere(a: Severity, b: Severity) {
    match a
    case High => !b.High?
    case Medium => b.Low? || b.Nit?
    case Low => b.Nit?
    case Nit => false
  }

  /** One file, and one known line or one title up to its slug. */
  predicate OneIssue(slug: Slug, f: Finding, g: Finding) {
    && f.file == g.file
    && ((f.line.Some? && g.line.Some? && f.line.value == g.line.value) || slug(f.title) == slug(g.title))
  }

  /** What is kept, field by field: no two findings of one file share a line or a title, none comes before a
      more severe one, each finding left out repeats a kept one that is no less severe, and a finding that
      shares file and line, or file and title, with no other is kept. */
  lemma {:induction false} DedupeInFields(slug: Slug, findings: seq<Finding>)
    ensures var kept := Deduped(slug, findings);
      && (forall i, j :: 0 <= i < j < |kept| ==>
            !OneIssue(slug, kept[i], kept[j]) && !MoreSevere(kept[j].severity, kept[i].severity))
      && (forall f :: f in kept ==> f in findings)
      && (forall f :: f in findings ==>
            exists k :: k in kept && OneIssue(slug, k, f) && !MoreSevere(f.severity, k.severity))
      && (forall f :: f in findings && (forall g :: g in findings && g != f ==> !OneIssue(slug, g, f)) ==> f in kept)
  {
    var kept := Deduped(slug, findings);
    DedupeSelects(slug, findings);
    forall i, j | 0 <= i < j < |kept|
      ensures !OneIssue(slug, kept[i], kept[j]) && !MoreSevere(kept[j].severity, kept[i].severity)
    {
      assert !SameIssue(slug, kept[i], kept[j]) && BySeverity(kept[i], kept[j]);
    }
    forall f | f in findings
      ensures exists k :: k in kept && OneIssue(slug, k, f) && !MoreSevere(f.severity, k.severity)
    {
      DedupeCovers(slug, findings, f);
      var k :| k in kept && SameIssue(slug, k, f) && BySeverity(k, f);
      assert OneIssue(slug, k, f) && !MoreSevere(f.severity, k.severity);
    }
  }

  // ---------------------------------------------------------------------------
  // computeVerdict
  // ---------------------------------------------------------------------------

  function Blocking(findings: seq<Finding>, level: Severity): seq<Finding> {
    if findings == [] then []
    else if Rank(findings[0].severity) <= Rank(level) then [findings[0]] + Blocking(findings[1..], level)
    else Blocking(findings[1..], level)
  }

  predicate Approve(findings: seq<Finding>, level: Severity) {
    Blocking(findings, level) == []
  }

  lemma {:induction false} ApproveExactly(findings: seq<Finding>, level: Severity)
    ensures Approve(findings, level) <==> forall f :: f in findings ==> Rank(f.severity) > Rank(level)
  {
    if findings != [] {
      ApproveExactly(findings[1..], level);
      assert findings == [findings[0]] + findings[1..];
    }
  }

  /** Approval at a level: every finding is less severe than it. */
  lemma {:induction false} ApprovalLevel(findings: seq<Finding>, level: Severity)
    ensures Approve(findings, level) <==> forall f :: f in findings ==> MoreSevere(level, f.severity)
  {
    ApproveExactly(findings, level);
  }

  /** Dropping repeats never turns a block into an approval, nor the reverse, at any level. */
  lemma {:induction false} DedupeKeepsVerdict(slug: Slug, findings: seq<Finding>, level: Severity)
    ensures Approve(Deduped(slug, findings), level) <==> Approve(findings, level)
  {
    var kept := Deduped(slug, findings);
    ApproveExactly(findings, level);
    ApproveExactly(kept, level);
    DedupeSelects(slug, findings);
    forall f | f in findings && Rank(f.severity) <= Rank(level) ensures !Approve(kept, level) {
      DedupeCovers(slug, findings, f);
    }
  }
}
