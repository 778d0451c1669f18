/** External references and their union: `normalizeExternalRefs` and `unionRefs` of
    `packages/identity/src/matching.ts`, `normalizeRefs` of `packages/db/src/graph-write.ts`.
    The value normalizers are a parameter; nothing is assumed about them, not even idempotence.  */
module Refs {
  import opened Options
  import opened Sorting

  datatype Ref = Ref(connector: string, externalId: string)

  /** Normalizes one ref; `None` when the id comes out empty. */
  type Normalizer = Ref -> Option<Ref>

  const IDENTITY_REF_EMAIL := "fde:email"
  const IDENTITY_REF_SSO := "fde:sso"
  const IDENTITY_REF_DOMAIN := "fde:domain"

  function Include(refs: seq<Ref>, r: Ref): seq<Ref> {
    if r in refs then refs else refs + [r]
  }

  /** Keeps first occurrences. */
  function Dedupe(refs: seq<Ref>): (r: seq<Ref>)
    ensures Distinct(r)
    ensures forall x :: x in r <==> x in refs
  {
    if refs == [] then []
    else
      var n := |refs| - 1;
      assert refs == refs[..n] + [refs[n]];
      Include(Dedupe(refs[..n]), refs[n])
  }

  lemma DedupeSnoc(refs: seq<Ref>, r: Ref)
    ensures Dedupe(refs + [r]) == Include(Dedupe(refs), r)
  {
    assert (refs + [r])[..|refs|] == refs;
  }

  function Folded(norm: Normalizer, refs: seq<Ref>): seq<Ref> {
    if refs == [] then []
    else
      var n := |refs| - 1;
      Folded(norm, refs[..n]) + if norm(refs[n]).Some? then [norm(refs[n]).value] else []
  }

  lemma {:induction false} FoldedContents(norm: Normalizer, refs: seq<Ref>, x: Ref)
    ensures x in Folded(norm, refs) <==> exists r :: r in refs && norm(r) == Some(x)
  {
    if refs != [] {
      var n := |refs| - 1;
      FoldedContents(norm, refs[..n], x);
      assert refs == refs[..n] + [refs[n]];
    }
  }

  lemma {:induction false} DedupeFixesDistinct(refs: seq<Ref>)
    requires Distinct(refs)
    ensures Dedupe(refs) == refs
  {
    if refs != [] {
      var n := |refs| - 1;
      DedupeFixesDistinct(refs[..n]);
      assert refs == refs[..n] + [refs[n]];
      assert refs[n] !in refs[..n];
    }
  }

  /** Removing duplicates early changes nothing. */
  lemma {:induction false} DedupeAppend(a: seq<Ref>, b: seq<Ref>)
    ensures Dedupe(Dedupe(a) + b) == Dedupe(a + b)
  {
    if b == [] {
      assert Dedupe(a) + b == Dedupe(a) && a + b == a;
      DedupeFixesDistinct(Dedupe(a));
    } else {
      var n := |b| - 1;
      DedupeAppend(a, b[..n]);
      assert Dedupe(a) + b == (Dedupe(a) + b[..n]) + [b[n]];
      assert a + b == (a + b[..n]) + [b[n]];
      DedupeSnoc(Dedupe(a) + b[..n], b[n]);
      DedupeSnoc(a + b[..n], b[n]);
    }
  }

  lemma {:induction false} DedupeAppendRight(a: seq<Ref>, b: seq<Ref>)
    ensures Dedupe(a + Dedupe(b)) == Dedupe(a + b)
  {
    if b != [] {
      var n := |b| - 1;
      var d := Dedupe(b[..n]);
      DedupeAppendRight(a, b[..n]);
      assert a + b == (a + b[..n]) + [b[n]];
      DedupeSnoc(a + b[..n], b[n]);
      if b[n] in d {
        assert b[n] in Dedupe(a + d);
      } else {
        assert a + (d + [b[n]]) == (a + d) + [b[n]];
        DedupeSnoc(a + d, b[n]);
      }
    }
  }

  /** Refs already there add nothing. */
  lemma {:induction false} DedupeAbsorbs(x: seq<Ref>, y: seq<Ref>)
    requires Distinct(x) && forall r :: r in y ==> r in x
    ensures Dedupe(x + y) == x
  {
    if y == [] {
      assert x + y == x;
      DedupeFixesDistinct(x);
    } else {
      var n := |y| - 1;
      DedupeAbsorbs(x, y[..n]);
      assert x + y == (x + y[..n]) + [y[n]];
      DedupeSnoc(x + y[..n], y[n]);
    }
  }

  /** What both `unionRefs` return: everything of either side once, the first side's order first. */
  function Union(norm: Normalizer, a: seq<Ref>, b: seq<Ref>): (r: seq<Ref>)
    ensures Distinct(r)
  {
    Dedupe(Folded(norm, a) + Folded(norm, b))
  }

  method NormalizeExternalRefs(norm: Normalizer, refs: seq<Ref>) returns (out: seq<Ref>)
    ensures out == Dedupe(Folded(norm, refs))
  {
    var seen: set<Ref> := {};
    out := [];
    for i := 0 to |refs|
      invariant out == Dedupe(Folded(norm, refs[..i]))
      invariant forall x :: x in seen <==> x in out
    {
      assert refs[..i + 1][..i] == refs[..i];
      var folded := norm(refs[i]);
      if folded.None? {
        assert Folded(norm, refs[..i + 1]) == Folded(norm, refs[..i]);
        continue;
      }
      DedupeSnoc(Folded(norm, refs[..i]), folded.value);
      if folded.value in seen {
        continue;
      }
      seen := seen + {folded.value};
      out := out + [folded.value];
    }
    assert refs[..|refs|] == refs;
  }

  lemma DedupeBoth(a: seq<Ref>, b: seq<Ref>)
    ensures Dedupe(Dedupe(a) + Dedupe(b)) == Dedupe(a + b)
  {
    DedupeAppend(a, Dedupe(b));
    DedupeAppendRight(a, b);
  }

  lemma DedupeNext(a: seq<Ref>, b: seq<Ref>, i: nat)
    requires i < |b|
    ensures Dedupe(a + b[..i + 1]) == Include(Dedupe(a + b[..i]), b[i])
  {
    assert a + b[..i + 1] == (a + b[..i]) + [b[i]];
    DedupeSnoc(a + b[..i], b[i]);
  }

  /** Pushes every incoming ref that is not there yet. */
  method PushMissing(start: seq<Ref>, incoming: seq<Ref>) returns (merged: seq<Ref>)
    requires Distinct(start)
    ensures merged == Dedupe(start + incoming)
  {
    merged := start;
    var have := set r | r in start;
    assert start + incoming[..0] == start;
    DedupeFixesDistinct(start);
    for i := 0 to |incoming|
      invariant merged == Dedupe(start + incoming[..i])
      invariant forall x :: x in have <==> x in merged
    {
      DedupeNext(start, incoming, i);
      if incoming[i] !in have {
        have := have + {incoming[i]};
        merged := merged + [incoming[i]];
      }
    }
    assert incoming[..|incoming|] == incoming;
  }

  method UnionRefs(norm: Normalizer, a: seq<Ref>, b: seq<Ref>) returns (merged: seq<Ref>)
    ensures merged == Union(norm, a, b)
  {
    var mine := NormalizeExternalRefs(norm, a);
    var theirs := NormalizeExternalRefs(norm, b);
    merged := PushMissing(mine, theirs);
    DedupeBoth(Folded(norm, a), Folded(norm, b));
  }

  /** `sharesExactRef`, on normalized refs */
  predicate SharesExactRef(a: seq<Ref>, b: seq<Ref>) {
    exists r :: r in b && r in a
  }

  /** Two entities share a ref exactly when their union is shorter than both sides together. */
  lemma {:induction false} UnionShrinksWhenShared(norm: Normalizer, a: seq<Ref>, b: seq<Ref>)
    ensures |Union(norm, a, b)| <= |Dedupe(Folded(norm, a))| + |Dedupe(Folded(norm, b))|
    ensures |Union(norm, a, b)| < |Dedupe(Folded(norm, a))| + |Dedupe(Folded(norm, b))| <==>
      SharesExactRef(Folded(norm, a), Folded(norm, b))
  {
    var x, y := Dedupe(Folded(norm, a)), Dedupe(Folded(norm, b));
    DedupeAppend(Folded(norm, a), Folded(norm, b));
    DedupeAppendRight(x, Folded(norm, b));
    UnionLength(x, y);
    assert SharesExactRef(Folded(norm, a), Folded(norm, b)) <==> exists r :: r in y && r in x;
  }

  lemma {:induction false} UnionLength(x: seq<Ref>, y: seq<Ref>)
    requires Distinct(x) && Distinct(y)
    ensures |Dedupe(x + y)| <= |x| + |y|
    ensures |Dedupe(x + y)| == |x| + |y| <==> forall r :: r in y ==> r !in x
  {
    if y == [] {
      assert x + y == x;
      DedupeFixesDistinct(x);
    } else {
      var n := |y| - 1;
      UnionLength(x, y[..n]);
      UnionSnoc(x, y);
      assert y == y[..n] + [y[n]];
    }
  }

  lemma UnionSnoc(x: seq<Ref>, y: seq<Ref>)
    requires y != [] && Distinct(y)
    ensures var n := |y| - 1;
      |Dedupe(x + y)| == |Dedupe(x + y[..n])| + if y[n] in x then 0 else 1
  {
    var n := |y| - 1;
    var init := x + y[..n];
    NewOnlyIfMissing(x, y[..n], y[n]);
    assert x + y == init + [y[n]];
    DedupeSnoc(init, y[n]);
  }

  lemma NewOnlyIfMissing(x: seq<Ref>, y: seq<Ref>, r: Ref)
    requires r !in y
    ensures r in Dedupe(x + y) <==> r in x
  {
  }

  /** A ref the normalizer leaves alone is never lost by a union. */
  lemma {:induction false} UnionKeepsStable(norm: Normalizer, a: seq<Ref>, b: seq<Ref>, r: Ref)
    requires (r in a || r in b) && norm(r) == Some(r)
    ensures r in Union(norm, a, b)
  {
    FoldedContents(norm, a, r);
    FoldedContents(norm, b, r);
  }

  /** First occurrences keep their order: what more refs add comes at the end. */
  lemma {:induction false} DedupePrefix(a: seq<Ref>, b: seq<Ref>)
    ensures Dedupe(a) <= Dedupe(a + b)
  {
    if b == [] {
      assert a + b == a;
    } else {
      var n := |b| - 1;
      DedupePrefix(a, b[..n]);
      assert a + b == (a + b[..n]) + [b[n]];
      DedupeSnoc(a + b[..n], b[n]);
    }
  }

  /** A union, ref by ref: what either side normalizes to, once; first what the first side has, in its order. */
  lemma {:induction false} UnionExactly(norm: Normalizer, a: seq<Ref>, b: seq<Ref>)
    ensures forall x :: x in Union(norm, a, b) <==> exists r :: (r in a || r in b) && norm(r) == Some(x)
    ensures Distinct(Union(norm, a, b)) && Dedupe(Folded(norm, a)) <= Union(norm, a, b)
  {
    DedupePrefix(Folded(norm, a), Folded(norm, b));
    forall x ensures x in Union(norm, a, b) <==> exists r :: (r in a || r in b) && norm(r) == Some(x) {
      FoldedContents(norm, a, x);
      FoldedContents(norm, b, x);
    }
  }

  /** Normalizing keeps the order. */
  lemma {:induction false} FoldedAppend(norm: Normalizer, a: seq<Ref>, b: seq<Ref>)
    ensures Folded(norm, a + b) == Folded(norm, a) + Folded(norm, b)
  {
    if b == [] {
      assert a + b == a;
    } else {
      var n := |b| - 1;
      FoldedAppend(norm, a, b[..n]);
      assert (a + b)[..|a| + n] == a + b[..n] && (a + b)[|a| + n] == b[n];
    }
  }
}
