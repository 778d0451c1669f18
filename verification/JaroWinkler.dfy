/** The name matcher of `packages/identity/src/matching.ts`.

    `jaroWinkler` scans `a` from the left and lets every character take the first free equal
    character of `b` inside a window.  The definition is lopsided, yet the review queue stores
    unordered pairs, so the score has to be the same from either side.  The argument here:
    read as a set of pairs, the scan produces a STABLE matching in which both sides prefer
    smaller indices; stability is stated without mentioning which string was scanned; and two
    stable matchings are equal (otherwise a pair in one and not the other leads to a pair with
    a smaller index sum in the other and not the one, for ever).  */
module JaroWinkler {

  function Max(x: int, y: int): int {
    if x < y then y else x
  }

  function Min(x: int, y: int): int {
    if x < y then x else y
  }

  /** `Math.max(0, Math.floor(Math.max(a.length, b.length) / 2) - 1)` */
  function MatchWindow(m: nat, n: nat): nat {
    Max(0, Max(m, n) / 2 - 1)
  }

  // ---------------------------------------------------------------------------
  // The greedy scan, as a function
  // ---------------------------------------------------------------------------

  /** The first position of `b` in `[j, hi)` that holds `c` and is not in `used`; -1 if none. */
  function FirstFree(c: char, b: string, used: seq<int>, j: nat, hi: nat): (r: int)
    requires hi <= |b|
    ensures r == -1 || j <= r < hi
    ensures r != -1 ==> b[r] == c && r !in used
    ensures forall k :: j <= k < (if r == -1 then hi else r) ==> b[k] != c || k in used
    decreases hi - j
  {
    if j >= hi then -1
    else if b[j] == c && j !in used then j
    else FirstFree(c, b, used, j + 1, hi)
  }

  function WindowLo(i: nat, w: nat): nat {
    Max(0, i - w)
  }

  function WindowHi(i: nat, w: nat, n: nat): nat {
    Min(i + w + 1, n)
  }

  /** For each of the first `n` positions of `a`: the position of `b` it took, or -1. */
  function Partners(a: string, b: string, w: nat, n: nat): (p: seq<int>)
    requires n <= |a|
    ensures |p| == n
    ensures forall i :: 0 <= i < n ==> -1 <= p[i] < |b|
  {
    if n == 0 then []
    else
      var p := Partners(a, b, w, n - 1);
      p + [FirstFree(a[n - 1], b, p, WindowLo(n - 1, w), WindowHi(n - 1, w, |b|))]
  }

  /** `aMatched` after the first `|p|` positions of an `m`-character string were scanned */
  function LeftMarks(p: seq<int>, m: nat): (on: seq<bool>)
    requires |p| <= m
    ensures |on| == m
  {
    seq(m, i => 0 <= i < |p| && p[i] != -1)
  }

  /** `bMatched` likewise, for an `n`-character string */
  function RightMarks(p: seq<int>, n: nat): (on: seq<bool>)
    ensures |on| == n
  {
    seq(n, j => j in p)
  }

  /** The characters of `s` at marked positions from `i` on, in order. */
  function KeptFrom(s: string, on: seq<bool>, i: nat): (r: string)
    requires |s| == |on| && i <= |s|
    ensures |r| <= |s| - i
    ensures |r| == |s| - i ==> r == s[i..]
    decreases |s| - i
  {
    if i == |s| then ""
    else if on[i] then [s[i]] + KeptFrom(s, on, i + 1)
    else KeptFrom(s, on, i + 1)
  }

  function Kept(s: string, on: seq<bool>): (r: string)
    requires |s| == |on|
    ensures |r| <= |s|
    ensures |r| == |s| ==> r == s
  {
    KeptFrom(s, on, 0)
  }

  /** How many positions of two equally long strings differ. */
  function Mismatches(s: string, t: string): (n: nat)
    requires |s| == |t|
    ensures n <= |s|
    ensures n == 0 <==> s == t
  {
    if s == "" then 0
    else (if s[0] != t[0] then 1 else 0) + Mismatches(s[1..], t[1..])
  }

  /** Length of the common prefix, counted up to `cap`. */
  function PrefixLength(a: string, b: string, cap: nat): (n: nat)
    ensures n <= cap && n <= |a| && n <= |b|
    ensures a[..n] == b[..n]
    ensures n < cap && n < |a| && n < |b| ==> a[n] != b[n]
  {
    if cap == 0 || a == "" || b == "" || a[0] != b[0] then 0
    else 1 + PrefixLength(a[1..], b[1..], cap - 1)
  }

  function Jaro(m: nat, la: nat, lb: nat, mismatches: nat): real
    requires m > 0 && la > 0 && lb > 0
  {
    var t := mismatches as real / 2.0;
    (m as real / la as real + m as real / lb as real + (m as real - t) / m as real) / 3.0
  }

  /** `prefixScale` is 0.1 over at most four characters. */
  function Boost(jaro: real, prefix: nat): real {
    jaro + prefix as real * 0.1 * (1.0 - jaro)
  }

  /** The matched characters of `a` and of `b`, each in its own order. */
  function KeptPair(a: string, b: string): (k: (string, string))
    ensures |k.0| == |k.1| && |k.0| <= |a| && |k.1| <= |b|
    ensures |k.0| == |a| == |b| ==> k == (a, b)
  {
    var w := MatchWindow(|a|, |b|);
    var p := Partners(a, b, w, |a|);
    EqualCounts(a, b, w, |a|);
    (Kept(a, LeftMarks(p, |a|)), Kept(b, RightMarks(p, |b|)))
  }

  function Score(ka: string, kb: string, la: nat, lb: nat, prefix: nat): real
    requires |ka| == |kb| && la > 0 && lb > 0
  {
    if ka == "" then 0.0 else Boost(Jaro(|ka|, la, lb, Mismatches(ka, kb)), prefix)
  }

  /** What `jaroWinkler(a, b)` returns, over the reals. */
  function Similarity(a: string, b: string): real {
    if a == b then if a == "" then 0.0 else 1.0
    else if a == "" || b == "" then 0.0
    else
      var k := KeptPair(a, b);
      Score(k.0, k.1, |a|, |b|, PrefixLength(a, b, 4))
  }

  // ---------------------------------------------------------------------------
  // Both mark arrays hold the same number of trues
  // ---------------------------------------------------------------------------

  lemma {:induction false} KeptOneMore(s: string, on: seq<bool>, j: nat, i: nat)
    requires |s| == |on| && i <= |s| && j < |s| && !on[j]
    ensures |KeptFrom(s, on[j := true], i)| == |KeptFrom(s, on, i)| + if i <= j then 1 else 0
    decreases |s| - i
  {
    if i < |s| {
      KeptOneMore(s, on, j, i + 1);
    }
  }

  lemma {:induction false} KeptNone(s: string, on: seq<bool>, i: nat)
    requires |s| == |on| && i <= |s| && forall k :: 0 <= k < |on| ==> !on[k]
    ensures KeptFrom(s, on, i) == ""
    decreases |s| - i
  {
    if i < |s| {
      KeptNone(s, on, i + 1);
    }
  }

  lemma {:induction false} EqualCounts(a: string, b: string, w: nat, n: nat)
    requires n <= |a|
    ensures var p := Partners(a, b, w, n);
            |Kept(a, LeftMarks(p, |a|))| == |Kept(b, RightMarks(p, |b|))|
  {
    var p := Partners(a, b, w, n);
    if n == 0 {
      KeptNone(a, LeftMarks(p, |a|), 0);
      KeptNone(b, RightMarks(p, |b|), 0);
    } else {
      EqualCounts(a, b, w, n - 1);
      MarksStep(a, b, w, n);
      var q := Partners(a, b, w, n - 1);
      if p[n - 1] != -1 {
        KeptOneMore(a, LeftMarks(q, |a|), n - 1, 0);
        KeptOneMore(b, RightMarks(q, |b|), p[n - 1], 0);
      }
    }
  }

  /** One round of the outer loop sets at most one mark on each side. */
  lemma MarksStep(a: string, b: string, w: nat, n: nat)
    requires 0 < n <= |a|
    ensures var p, q := Partners(a, b, w, n), Partners(a, b, w, n - 1);
            var j := p[n - 1];
            && p == q + [j]
            && !LeftMarks(q, |a|)[n - 1]
            && (j == -1 ==> LeftMarks(p, |a|) == LeftMarks(q, |a|) && RightMarks(p, |b|) == RightMarks(q, |b|))
            && (j != -1 ==> !RightMarks(q, |b|)[j]
                            && LeftMarks(p, |a|) == LeftMarks(q, |a|)[n - 1 := true]
                            && RightMarks(p, |b|) == RightMarks(q, |b|)[j := true])
  {
    var p, q := Partners(a, b, w, n), Partners(a, b, w, n - 1);
    var j := p[n - 1];
    assert p == q + [j];
    assert forall k :: k in p <==> k in q || k == j;
  }

  // ---------------------------------------------------------------------------
  // Symmetry: the scan yields the one stable matching
  // ---------------------------------------------------------------------------

  /** `a[i]` may be matched with `b[j]`. */
  predicate Compatible(a: string, b: string, w: nat, i: int, j: int) {
    0 <= i < |a| && 0 <= j < |b| && a[i] == b[j] && i - w <= j <= i + w
  }

  ghost predicate Injective(M: set<(int, int)>) {
    && (forall i, j, j' :: (i, j) in M && (i, j') in M ==> j == j')
    && (forall i, i', j :: (i, j) in M && (i', j) in M ==> i == i')
  }

  /** No compatible pair was passed over by both of its members: one of them got something earlier. */
  ghost predicate Stable(a: string, b: string, w: nat, M: set<(int, int)>) {
    && Injective(M)
    && (forall i, j :: (i, j) in M ==> Compatible(a, b, w, i, j))
    && (forall i, j :: Compatible(a, b, w, i, j) && (i, j) !in M ==>
          (exists j' :: j' < j && (i, j') in M) || (exists i' :: i' < i && (i', j) in M))
  }

  lemma {:induction false} StablePairAgrees(a: string, b: string, w: nat, M: set<(int, int)>, N: set<(int, int)>,
      i: int, j: int)
    requires Stable(a, b, w, M) && Stable(a, b, w, N) && (i, j) in M
    ensures (i, j) in N
    decreases i + j
  {
    assert Compatible(a, b, w, i, j);
    if (i, j) !in N {
      if j' :| j' < j && (i, j') in N {
        StablePairAgrees(a, b, w, N, M, i, j');
      } else {
        var i' :| i' < i && (i', j) in N;
        StablePairAgrees(a, b, w, N, M, i', j);
      }
      assert false;
    }
  }

  /** There is at most one stable matching. */
  lemma {:induction false} StableMatchingUnique(a: string, b: string, w: nat, M: set<(int, int)>, N: set<(int, int)>)
    requires Stable(a, b, w, M) && Stable(a, b, w, N)
    ensures M == N
  {
    forall m | m in M ensures m in N {
      StablePairAgrees(a, b, w, M, N, m.0, m.1);
    }
    forall m | m in N ensures m in M {
      StablePairAgrees(a, b, w, N, M, m.0, m.1);
    }
  }

  function Pairs(p: seq<int>): (M: set<(int, int)>)
    ensures forall i, j :: (i, j) in M <==> 0 <= i < |p| && p[i] == j && j != -1
  {
    set i | 0 <= i < |p| && p[i] != -1 :: (i, p[i])
  }

  function Swap(M: set<(int, int)>): (N: set<(int, int)>)
    ensures forall i, j :: (i, j) in N <==> (j, i) in M
  {
    set m | m in M :: (m.1, m.0)
  }

  lemma {:induction false} PartnersPrefix(a: string, b: string, w: nat, n: nat, m: nat)
    requires n <= m <= |a|
    ensures Partners(a, b, w, m)[..n] == Partners(a, b, w, n)
    decreases m
  {
    if n < m {
      PartnersPrefix(a, b, w, n, m - 1);
      assert Partners(a, b, w, m)[..n] == Partners(a, b, w, m - 1)[..n];
    }
  }

  lemma {:induction false} PartnersFacts(a: string, b: string, w: nat, n: nat, i: nat)
    requires i < n <= |a|
    ensures var p := Partners(a, b, w, n);
            && p[i] == FirstFree(a[i], b, p[..i], WindowLo(i, w), WindowHi(i, w, |b|))
  {
    PartnersPrefix(a, b, w, i, n);
    PartnersPrefix(a, b, w, i + 1, n);
    PartnersLast(a, b, w, i);
    AtPrefix(Partners(a, b, w, n), i);
  }

  lemma PartnersLast(a: string, b: string, w: nat, i: nat)
    requires i < |a|
    ensures Partners(a, b, w, i + 1)[i] ==
      FirstFree(a[i], b, Partners(a, b, w, i), WindowLo(i, w), WindowHi(i, w, |b|))
  {
  }

  lemma AtPrefix(p: seq<int>, i: nat)
    requires i < |p|
    ensures p[i] == p[..i + 1][i]
  {
  }

  /** Every position of `a` took the first compatible position of `b` not taken before it. */
  ghost predicate TookFirst(a: string, b: string, w: nat, p: seq<int>) {
    && |p| == |a|
    && forall i :: 0 <= i < |a| ==> p[i] == FirstFree(a[i], b, p[..i], WindowLo(i, w), WindowHi(i, w, |b|))
  }

  lemma GreedyTookFirst(a: string, b: string, w: nat)
    ensures TookFirst(a, b, w, Partners(a, b, w, |a|))
  {
    var p := Partners(a, b, w, |a|);
    forall i | 0 <= i < |a|
      ensures p[i] == FirstFree(a[i], b, p[..i], WindowLo(i, w), WindowHi(i, w, |b|))
    {
      PartnersFacts(a, b, w, |a|, i);
    }
  }

  lemma TakenOnce(a: string, b: string, w: nat, p: seq<int>, i: int, i': int)
    requires TookFirst(a, b, w, p)
    requires 0 <= i < i' < |p| && p[i'] != -1
    ensures p[i] != p[i']
  {
    assert p[..i'][i] == p[i];
  }

  lemma TakenAreDistinct(a: string, b: string, w: nat, p: seq<int>)
    requires TookFirst(a, b, w, p)
    ensures Injective(Pairs(p))
  {
    forall i, i', j | (i, j) in Pairs(p) && (i', j) in Pairs(p) ensures i == i' {
      if i < i' {
        TakenOnce(a, b, w, p, i, i');
      } else if i' < i {
        TakenOnce(a, b, w, p, i', i);
      }
    }
  }

  lemma PassedOver(a: string, b: string, w: nat, p: seq<int>, i: int, j: int)
    requires TookFirst(a, b, w, p)
    requires Compatible(a, b, w, i, j) && p[i] != j
    ensures -1 != p[i] < j || exists i' :: 0 <= i' < i && p[i'] == j
  {
    if j in p[..i] {
      var i' :| 0 <= i' < i && p[..i][i'] == j;
      assert p[i'] == j;
    }
  }

  /** The scan's matching is stable. */
  lemma {:induction false} GreedyIsStable(a: string, b: string, w: nat)
    ensures Stable(a, b, w, Pairs(Partners(a, b, w, |a|)))
  {
    var p := Partners(a, b, w, |a|);
    var M := Pairs(p);
    GreedyTookFirst(a, b, w);
    TakenAreDistinct(a, b, w, p);
    forall i, j | Compatible(a, b, w, i, j) && (i, j) !in M
      ensures (exists j' :: j' < j && (i, j') in M) || (exists i' :: i' < i && (i', j) in M)
    {
      PassedOver(a, b, w, p, i, j);
      if -1 != p[i] < j {
        assert (i, p[i]) in M;
      } else {
        var i' :| 0 <= i' < i && p[i'] == j;
        assert (i', j) in M;
      }
    }
  }

  lemma SwapStable(a: string, b: string, w: nat, M: set<(int, int)>)
    requires Stable(a, b, w, M)
    ensures Stable(b, a, w, Swap(M))
  {
    var N := Swap(M);
    forall i, j | Compatible(b, a, w, i, j) && (i, j) !in N
      ensures (exists j' :: j' < j && (i, j') in N) || (exists i' :: i' < i && (i', j) in N)
    {
      assert Compatible(a, b, w, j, i) && (j, i) !in M;
      if i' :| i' < i && (j, i') in M {
        assert (i', j) in N;
      } else {
        var j' :| j' < j && (j', i) in M;
        assert (i, j') in N;
      }
    }
  }

  /** Scanning from either side marks the same positions of both strings. */
  lemma {:induction false} SameMarks(a: string, b: string, w: nat)
    ensures var p, q := Partners(a, b, w, |a|), Partners(b, a, w, |b|);
            && LeftMarks(p, |a|) == RightMarks(q, |a|)
            && RightMarks(p, |b|) == LeftMarks(q, |b|)
  {
    var p, q := Partners(a, b, w, |a|), Partners(b, a, w, |b|);
    GreedyIsStable(a, b, w);
    GreedyIsStable(b, a, w);
    SwapStable(b, a, w, Pairs(q));
    StableMatchingUnique(a, b, w, Pairs(p), Swap(Pairs(q)));
    forall i, j | 0 <= i < |a| && 0 <= j < |b|
      ensures p[i] == j <==> q[j] == i
    {
      assert (i, j) in Pairs(p) <==> (j, i) in Pairs(q);
    }
    LeftIsRight(p, q);
    LeftIsRight(q, p);
  }

  lemma LeftIsRight(p: seq<int>, q: seq<int>)
    requires forall i :: 0 <= i < |p| ==> -1 <= p[i] < |q|
    requires forall j :: 0 <= j < |q| ==> -1 <= q[j] < |p|
    requires forall i, j :: 0 <= i < |p| && 0 <= j < |q| ==> (p[i] == j <==> q[j] == i)
    ensures LeftMarks(p, |p|) == RightMarks(q, |p|)
  {
    forall i | 0 <= i < |p| ensures LeftMarks(p, |p|)[i] == RightMarks(q, |p|)[i] {
      if p[i] != -1 {
        assert q[p[i]] == i;
      } else {
        assert forall j :: 0 <= j < |q| ==> q[j] != i;
      }
    }
  }

  lemma {:induction false} MismatchesSymmetric(s: string, t: string)
    requires |s| == |t|
    ensures Mismatches(s, t) == Mismatches(t, s)
  {
    if s != "" {
      MismatchesSymmetric(s[1..], t[1..]);
    }
  }

  lemma {:induction false} PrefixSymmetric(a: string, b: string, cap: nat)
    ensures PrefixLength(a, b, cap) == PrefixLength(b, a, cap)
  {
    if cap != 0 && a != "" && b != "" && a[0] == b[0] {
      PrefixSymmetric(a[1..], b[1..], cap - 1);
    }
  }

  /** Swapping the strings swaps what is kept of them. */
  lemma KeptPairSwaps(a: string, b: string)
    ensures KeptPair(b, a) == (KeptPair(a, b).1, KeptPair(a, b).0)
  {
    SameMarks(a, b, MatchWindow(|a|, |b|));
  }

  /** The score does not depend on the order of its arguments. */
  lemma {:induction false} SimilaritySymmetric(a: string, b: string)
    ensures Similarity(a, b) == Similarity(b, a)
  {
    if a != b && a != "" && b != "" {
      var k := KeptPair(a, b);
      KeptPairSwaps(a, b);
      MismatchesSymmetric(k.0, k.1);
      PrefixSymmetric(a, b, 4);
    }
  }

  // ---------------------------------------------------------------------------
  // Range
  // ---------------------------------------------------------------------------

  lemma RatioAtMostOne(x: real, y: real)
    requires 0.0 <= x <= y && 0.0 < y
    ensures 0.0 <= x / y <= 1.0
    ensures 0.0 < x ==> 0.0 < x / y
    ensures x / y == 1.0 <==> x == y
  {
    assert x == (x / y) * y;
  }

  lemma JaroRange(m: nat, la: nat, lb: nat, mismatches: nat)
    requires 0 < m <= la && m <= lb && mismatches <= m
    ensures 0.0 < Jaro(m, la, lb, mismatches) <= 1.0
    ensures Jaro(m, la, lb, mismatches) == 1.0 <==> m == la == lb && mismatches == 0
  {
    var t := mismatches as real / 2.0;
    var x, y, z := m as real / la as real, m as real / lb as real, (m as real - t) / m as real;
    RatioAtMostOne(m as real, la as real);
    RatioAtMostOne(m as real, lb as real);
    RatioAtMostOne(m as real - t, m as real);
    assert z > 0.0;
    assert Jaro(m, la, lb, mismatches) == (x + y + z) / 3.0;
    assert z == 1.0 <==> mismatches == 0;
    assert x == 1.0 <==> m == la;
    assert y == 1.0 <==> m == lb;
  }

  lemma BoostRange(jaro: real, prefix: nat)
    requires 0.0 < jaro <= 1.0 && prefix <= 4
    ensures jaro <= Boost(jaro, prefix) <= 1.0
    ensures Boost(jaro, prefix) == 1.0 <==> jaro == 1.0
  {
    if prefix == 0 {
      assert Boost(jaro, prefix) == jaro + 0.0 * 0.1 * (1.0 - jaro);
    } else if prefix == 1 {
      assert Boost(jaro, prefix) == jaro + 1.0 * 0.1 * (1.0 - jaro);
    } else if prefix == 2 {
      assert Boost(jaro, prefix) == jaro + 2.0 * 0.1 * (1.0 - jaro);
    } else if prefix == 3 {
      assert Boost(jaro, prefix) == jaro + 3.0 * 0.1 * (1.0 - jaro);
    } else {
      assert Boost(jaro, prefix) == jaro + 4.0 * 0.1 * (1.0 - jaro);
    }
  }

  lemma ScoreRange(ka: string, kb: string, la: nat, lb: nat, prefix: nat)
    requires |ka| == |kb| <= la && |kb| <= lb && la > 0 && lb > 0 && prefix <= 4
    ensures 0.0 <= Score(ka, kb, la, lb, prefix) <= 1.0
    ensures Score(ka, kb, la, lb, prefix) == 1.0 ==> |ka| == la == lb && ka == kb
  {
    if ka != "" {
      JaroRange(|ka|, la, lb, Mismatches(ka, kb));
      BoostRange(Jaro(|ka|, la, lb, Mismatches(ka, kb)), prefix);
    }
  }

  /** Scores lie in [0, 1], and 1 is reached exactly by equal non-empty strings. */
  lemma {:induction false} SimilarityRange(a: string, b: string)
    ensures 0.0 <= Similarity(a, b) <= 1.0
    ensures Similarity(a, b) == 1.0 <==> a == b && a != ""
  {
    if a != b && a != "" && b != "" {
      var k := KeptPair(a, b);
      ScoreRange(k.0, k.1, |a|, |b|, PrefixLength(a, b, 4));
    }
  }

  // ---------------------------------------------------------------------------
  // The value, without the scan
  // ---------------------------------------------------------------------------

  /** Equal characters at the same place, or less than half the longer string apart: with `d` places
      between them, `d + 1` is at most half of it. */
  predicate Near(a: string, b: string, i: int, j: int) {
    && 0 <= i < |a| && 0 <= j < |b| && a[i] == b[j]
    && var d := if i < j then j - i else i - j;
       d == 0 || 2 * (d + 1) <= |a| || 2 * (d + 1) <= |b|
  }

  /** Pairs of near characters, each in one pair at most, none passed over for later ones on both sides. */
  ghost predicate NearStable(a: string, b: string, M: set<(int, int)>) {
    && Injective(M)
    && (forall i, j :: (i, j) in M ==> Near(a, b, i, j))
    && (forall i, j :: Near(a, b, i, j) && (i, j) !in M ==>
          (exists j' :: j' < j && (i, j') in M) || (exists i' :: i' < i && (i', j) in M))
  }

  lemma NearIsCompatible(a: string, b: string, i: int, j: int)
    ensures Near(a, b, i, j) <==> Compatible(a, b, MatchWindow(|a|, |b|), i, j)
  {
  }

  lemma NearStableIsStable(a: string, b: string, M: set<(int, int)>)
    ensures NearStable(a, b, M) <==> Stable(a, b, MatchWindow(|a|, |b|), M)
  {
    forall i, j ensures Near(a, b, i, j) <==> Compatible(a, b, MatchWindow(|a|, |b|), i, j) {
      NearIsCompatible(a, b, i, j);
    }
  }

  function Matching(a: string, b: string): set<(int, int)> {
    Pairs(Partners(a, b, MatchWindow(|a|, |b|), |a|))
  }

  lemma MatchingIsTheOne(a: string, b: string, M: set<(int, int)>)
    ensures NearStable(a, b, M) <==> M == Matching(a, b)
  {
    GreedyIsStable(a, b, MatchWindow(|a|, |b|));
    NearStableIsStable(a, b, Matching(a, b));
    NearStableIsStable(a, b, M);
    if NearStable(a, b, M) {
      StableMatchingUnique(a, b, MatchWindow(|a|, |b|), M, Matching(a, b));
    }
  }

  function Lefts(M: set<(int, int)>): set<int> {
    set m | m in M :: m.0
  }

  function Rights(M: set<(int, int)>): set<int> {
    set m | m in M :: m.1
  }

  /** `xs` lists the positions of `s` in ascending order. */
  ghost predicate Lists(xs: seq<int>, s: set<int>) {
    (forall k, l :: 0 <= k < l < |xs| ==> xs[k] < xs[l]) && forall x :: x in xs <==> x in s
  }

  lemma {:induction false} ListedCount(xs: seq<int>, s: set<int>)
    requires Lists(xs, s)
    ensures |xs| == |s|
  {
    if xs != [] {
      ListsInit(xs, s);
      ListedCount(xs[..|xs| - 1], s - {xs[|xs| - 1]});
    } else {
      forall x ensures x !in s {
        assert x in xs <==> x in s;
      }
      assert s == {};
    }
  }

  lemma ListsInit(xs: seq<int>, s: set<int>)
    requires Lists(xs, s) && xs != []
    ensures xs[|xs| - 1] in s && Lists(xs[..|xs| - 1], s - {xs[|xs| - 1]})
  {
    var n := |xs| - 1;
    assert xs == xs[..n] + [xs[n]];
    assert xs[n] in xs;
    forall x ensures x in xs[..n] <==> x in s - {xs[n]} {
      assert x in xs <==> x in s;
    }
  }

  lemma {:induction false} PairCount(M: set<(int, int)>)
    requires Injective(M)
    ensures |Lefts(M)| == |M| == |Rights(M)|
  {
    if M == {} {
      assert Lefts(M) == {} && Rights(M) == {};
    } else {
      var m :| m in M;
      PairCount(M - {m});
      OnePairLess(M, m.0, m.1);
    }
  }

  lemma OnePairLess(M: set<(int, int)>, i: int, j: int)
    requires Injective(M) && (i, j) in M
    ensures var N := M - {(i, j)};
      && Lefts(M) == Lefts(N) + {i} && i !in Lefts(N)
      && Rights(M) == Rights(N) + {j} && j !in Rights(N)
  {
    forall i', j' | (i', j') in M && (i', j') != (i, j) ensures i' != i && j' != j {
      assert (i, j') in M ==> j' == j;
      assert (i', j) in M ==> i' == i;
    }
    forall n | n in M ensures (n.0, n.1) in M {
    }
  }

  lemma {:induction false} KeptAt(s: string, on: seq<bool>, xs: seq<int>, i: nat)
    requires |s| == |on| && i <= |s|
    requires forall k, l :: 0 <= k < l < |xs| ==> xs[k] < xs[l]
    requires forall k :: 0 <= k < |xs| ==> i <= xs[k] < |s|
    requires forall x :: i <= x < |s| ==> (on[x] <==> x in xs)
    ensures |KeptFrom(s, on, i)| == |xs|
    ensures forall k :: 0 <= k < |xs| ==> KeptFrom(s, on, i)[k] == s[xs[k]]
    decreases |s| - i
  {
    assert xs == [] || i <= xs[0] < |s|;
    if i < |s| {
      if on[i] {
        var k :| 0 <= k < |xs| && xs[k] == i;
        assert k == 0 || xs[0] < xs[k];
        assert xs == [xs[0]] + xs[1..];
        KeptAt(s, on, xs[1..], i + 1);
      } else {
        assert i !in xs;
        KeptAt(s, on, xs, i + 1);
      }
    }
  }

  function Differing(s: string, t: string): set<int> {
    set k | 0 <= k < |s| && k < |t| && s[k] != t[k]
  }

  lemma {:induction false} MismatchesCount(s: string, t: string)
    requires |s| == |t|
    ensures Mismatches(s, t) == |Differing(s, t)|
  {
    if s != "" {
      var n := |s| - 1;
      MismatchesCount(s[..n], t[..n]);
      MismatchesSnoc(s, t);
      assert Differing(s, t) == Differing(s[..n], t[..n]) + if s[n] != t[n] then {n} else {};
    }
  }

  lemma {:induction false} MismatchesSnoc(s: string, t: string)
    requires |s| == |t| > 0
    ensures var n := |s| - 1;
      Mismatches(s, t) == Mismatches(s[..n], t[..n]) + if s[n] != t[n] then 1 else 0
  {
    var n := |s| - 1;
    if n > 0 {
      MismatchesSnoc(s[1..], t[1..]);
      assert s[1..][..n - 1] == s[..n][1..] && t[1..][..n - 1] == t[..n][1..];
    }
  }

  /** Positions in the lists at which the paired-off characters differ. */
  function Differences(a: string, b: string, xs: seq<int>, ys: seq<int>): set<int> {
    set k | 0 <= k < |xs| && k < |ys| && 0 <= xs[k] < |a| && 0 <= ys[k] < |b| && a[xs[k]] != b[ys[k]]
  }

  lemma LeftMarksOf(p: seq<int>, m: nat, xs: seq<int>)
    requires |p| == m && Lists(xs, Lefts(Pairs(p)))
    ensures forall k :: 0 <= k < |xs| ==> 0 <= xs[k] < m
    ensures forall x :: 0 <= x < m ==> (LeftMarks(p, m)[x] <==> x in xs)
  {
    forall x ensures x in xs <==> 0 <= x < m && p[x] != -1 {
      if x in xs {
        var q :| q in Pairs(p) && q.0 == x;
        assert (q.0, q.1) in Pairs(p);
      }
      if 0 <= x < m && p[x] != -1 {
        assert (x, p[x]) in Pairs(p);
      }
    }
    assert forall k :: 0 <= k < |xs| ==> xs[k] in xs;
  }

  lemma RightMarksOf(p: seq<int>, n: nat, ys: seq<int>)
    requires Lists(ys, Rights(Pairs(p))) && forall i :: 0 <= i < |p| ==> -1 <= p[i] < n
    ensures forall k :: 0 <= k < |ys| ==> 0 <= ys[k] < n
    ensures forall y :: 0 <= y < n ==> (RightMarks(p, n)[y] <==> y in ys)
  {
    forall y ensures y in ys <==> y != -1 && y in p {
      if y in ys {
        var q :| q in Pairs(p) && q.1 == y;
        assert (q.0, q.1) in Pairs(p);
      }
      if y != -1 && y in p {
        var i :| 0 <= i < |p| && p[i] == y;
        assert (i, y) in Pairs(p);
      }
    }
    assert forall k :: 0 <= k < |ys| ==> ys[k] in ys;
  }

  /** What the two scans keep, in terms of the matching. */
  lemma KeptByMatching(a: string, b: string, xs: seq<int>, ys: seq<int>)
    requires Lists(xs, Lefts(Matching(a, b))) && Lists(ys, Rights(Matching(a, b)))
    ensures var k := KeptPair(a, b);
      |k.0| == |k.1| == |xs| == |ys| == |Matching(a, b)| && Mismatches(k.0, k.1) == |Differences(a, b, xs, ys)|
  {
    var w := MatchWindow(|a|, |b|);
    var p, k := Partners(a, b, w, |a|), KeptPair(a, b);
    LeftMarksOf(p, |a|, xs);
    RightMarksOf(p, |b|, ys);
    KeptAt(a, LeftMarks(p, |a|), xs, 0);
    KeptAt(b, RightMarks(p, |b|), ys, 0);
    GreedyIsStable(a, b, w);
    PairCount(Matching(a, b));
    ListedCount(xs, Lefts(Matching(a, b)));
    ListedCount(ys, Rights(Matching(a, b)));
    MismatchesCount(k.0, k.1);
    assert Differing(k.0, k.1) == Differences(a, b, xs, ys);
  }

  /** The strings agree on exactly their first `p` characters, or on the first four of them. */
  ghost predicate AgreeFor(a: string, b: string, p: nat) {
    && p <= 4 && p <= |a| && p <= |b| && (forall k :: 0 <= k < p ==> a[k] == b[k])
    && (p == 4 || p == |a| || p == |b| || a[p] != b[p])
  }

  lemma SharesAdd(m: real, d: real)
    requires m > 0.0
    ensures (m - d / 2.0) / m == 1.0 - d / (2.0 * m)
  {
    var x, y := d / (2.0 * m), (m - d / 2.0) / m;
    assert x * (2.0 * m) == d && y * m == m - d / 2.0;
    ZeroFactor(x * 2.0 - d / m, m);
    ZeroFactor(y - (1.0 - x), m);
  }

  lemma ZeroFactor(z: real, m: real)
    requires z * m == 0.0 && m > 0.0
    ensures z == 0.0
  {
  }

  lemma Boosted(jaro: real, p: nat)
    requires p <= 4
    ensures Boost(jaro, p) == jaro + p as real / 10.0 * (1.0 - jaro)
  {
    assert p as real * 0.1 == p as real / 10.0;
  }

  /** Two strings of `la` and `lb` characters with `m` matched pairs, `d` differences and `p` leading
      characters in common. */
  function Formula(la: nat, lb: nat, m: nat, d: nat, p: nat): real
    requires la > 0 && lb > 0 && m > 0
  {
    var jaro := (m as real / la as real + m as real / lb as real + 1.0 - d as real / (2.0 * m as real)) / 3.0;
    jaro + p as real / 10.0 * (1.0 - jaro)
  }

  lemma ValueOfKept(a: string, b: string, n: nat, d: nat, p: nat)
    requires a != b && a != "" && b != "" && p <= 4 && p == PrefixLength(a, b, 4)
    requires var k := KeptPair(a, b); |k.0| == n > 0 && Mismatches(k.0, k.1) == d
    ensures Similarity(a, b) == Formula(|a|, |b|, n, d, p)
  {
    BoostIsFormula(|a|, |b|, n, d, p);
  }

  lemma BoostIsFormula(la: nat, lb: nat, m: nat, d: nat, p: nat)
    requires la > 0 && lb > 0 && m > 0 && p <= 4
    ensures Boost(Jaro(m, la, lb, d), p) == Formula(la, lb, m, d, p)
  {
    var jaro := (m as real / la as real + m as real / lb as real + 1.0 - d as real / (2.0 * m as real)) / 3.0;
    SharesAdd(m as real, d as real);
    assert Jaro(m, la, lb, d) == jaro;
    Boosted(jaro, p);
  }

  /** The score of two different strings from any stable matching of near characters: `m` pairs, `d` places
      at which the two lists of matched characters differ, and `p` leading characters in common. */
  lemma {:induction false} SimilarityValue(a: string, b: string, M: set<(int, int)>, xs: seq<int>, ys: seq<int>, p: nat)
    requires a != b && NearStable(a, b, M) && Lists(xs, Lefts(M)) && Lists(ys, Rights(M)) && AgreeFor(a, b, p)
    ensures M == {} ==> Similarity(a, b) == 0.0
    ensures M != {} ==>
      && a != "" && b != "" && |xs| == |ys| == |M|
      && Similarity(a, b) == Formula(|a|, |b|, |M|, |Differences(a, b, xs, ys)|, p)
  {
    MatchingIsTheOne(a, b, M);
    MatchingValue(a, b, xs, ys, p);
  }

  lemma MatchingValue(a: string, b: string, xs: seq<int>, ys: seq<int>, p: nat)
    requires var M := Matching(a, b); Lists(xs, Lefts(M)) && Lists(ys, Rights(M))
    requires a != b && AgreeFor(a, b, p)
    ensures Matching(a, b) == {} ==> Similarity(a, b) == 0.0
    ensures Matching(a, b) != {} ==>
      && a != "" && b != "" && |xs| == |ys| == |Matching(a, b)|
      && Similarity(a, b) == Formula(|a|, |b|, |xs|, |Differences(a, b, xs, ys)|, p)
  {
    KeptByMatching(a, b, xs, ys);
    if Matching(a, b) != {} {
      MatchedAreNonEmpty(a, b);
      AgreedPrefix(a, b, p);
      ValueOfKept(a, b, |xs|, |Differences(a, b, xs, ys)|, p);
    }
  }

  lemma MatchedAreNonEmpty(a: string, b: string)
    requires Matching(a, b) != {}
    ensures a != "" && b != ""
  {
    var m :| m in Matching(a, b);
    assert (m.0, m.1) in Matching(a, b);
  }

  lemma AgreedPrefix(a: string, b: string, p: nat)
    requires AgreeFor(a, b, p)
    ensures p == PrefixLength(a, b, 4)
  {
    assert a[..p] == b[..p];
    PrefixUnique(a, b, 4, p);
  }

  function Ascending(s: set<int>, n: nat): seq<int> {
    if n == 0 then [] else Ascending(s, n - 1) + if n - 1 in s then [n - 1] else []
  }

  lemma {:induction false} AscendingLists(s: set<int>, n: nat)
    ensures Lists(Ascending(s, n), set x | x in s && 0 <= x < n)
  {
    if n > 0 {
      AscendingLists(s, n - 1);
      var before := Ascending(s, n - 1);
      forall x ensures x in Ascending(s, n) <==> x in s && 0 <= x < n {
        assert x in before <==> x in (set y | y in s && 0 <= y < n - 1);
      }
      assert forall k :: 0 <= k < |before| ==> before[k] in before;
    }
  }

  /** There is such a matching, with its lists, for any two strings. */
  lemma {:induction false} NearMatchingExists(a: string, b: string)
    returns (M: set<(int, int)>, xs: seq<int>, ys: seq<int>)
    ensures NearStable(a, b, M) && Lists(xs, Lefts(M)) && Lists(ys, Rights(M))
  {
    M := Matching(a, b);
    MatchingIsTheOne(a, b, M);
    xs, ys := Ascending(Lefts(M), |a|), Ascending(Rights(M), |b|);
    AscendingLists(Lefts(M), |a|);
    AscendingLists(Rights(M), |b|);
    assert forall m :: m in M ==> (m.0, m.1) in M && Near(a, b, m.0, m.1);
    assert Lefts(M) == set x | x in Lefts(M) && 0 <= x < |a|;
    assert Rights(M) == set y | y in Rights(M) && 0 <= y < |b|;
  }

  /** The score is above zero exactly when the strings have near characters. */
  lemma {:induction false} PositiveExactly(a: string, b: string)
    ensures Similarity(a, b) > 0.0 <==> exists i, j :: Near(a, b, i, j)
  {
    if a == b {
      if a != "" {
        assert Near(a, b, 0, 0);
      }
    } else {
      var M, xs, ys := NearMatchingExists(a, b);
      MatchingIsTheOne(a, b, M);
      KeptByMatching(a, b, xs, ys);
      var k := KeptPair(a, b);
      if M != {} {
        var m :| m in M;
        assert (m.0, m.1) in M && Near(a, b, m.0, m.1);
        JaroRange(|k.0|, |a|, |b|, Mismatches(k.0, k.1));
        BoostRange(Jaro(|k.0|, |a|, |b|, Mismatches(k.0, k.1)), PrefixLength(a, b, 4));
      }
    }
  }

  // ---------------------------------------------------------------------------
  // The loops
  // ---------------------------------------------------------------------------

  /** The first nested loop: fills both mark arrays and counts. */
  method MarkMatches(a: string, b: string, w: nat, aMatched: array<bool>, bMatched: array<bool>) returns (matches: nat)
    requires aMatched.Length == |a| && bMatched.Length == |b| && aMatched != bMatched
    requires forall i :: 0 <= i < |a| ==> !aMatched[i]
    requires forall j :: 0 <= j < |b| ==> !bMatched[j]
    modifies aMatched, bMatched
    ensures aMatched[..] == LeftMarks(Partners(a, b, w, |a|), |a|)
    ensures bMatched[..] == RightMarks(Partners(a, b, w, |a|), |b|)
    ensures matches == |Kept(a, aMatched[..])|
  {
    matches := 0;
    KeptNone(a, aMatched[..], 0);
    for i := 0 to |a|
      invariant aMatched[..] == LeftMarks(Partners(a, b, w, i), |a|)
      invariant bMatched[..] == RightMarks(Partners(a, b, w, i), |b|)
      invariant matches == |Kept(a, aMatched[..])|
    {
      ghost var p := Partners(a, b, w, i);
      MarksStep(a, b, w, i + 1);
      var j, hi := WindowLo(i, w), WindowHi(i, w, |b|);
      while j < hi
        invariant Partners(a, b, w, i + 1)[i] == FirstFree(a[i], b, p, j, hi)
        decreases hi - j
      {
        if bMatched[j] || a[i] != b[j] {
          j := j + 1;
          continue;
        }
        KeptOneMore(a, aMatched[..], i, 0);
        aMatched[i] := true;
        bMatched[j] := true;
        matches := matches + 1;
        break;
      }
    }
  }

  lemma MismatchesCons(c: char, d: char, s: string, t: string)
    requires |s| == |t|
    ensures Mismatches([c] + s, [d] + t) == (if c != d then 1 else 0) + Mismatches(s, t)
  {
    assert ([c] + s)[1..] == s && ([d] + t)[1..] == t;
  }

  /** The second loop: walks both mark arrays with `k` chasing the marks of `b`. */
  method CountMismatches(a: string, b: string, aMatched: array<bool>, bMatched: array<bool>) returns (n: nat)
    requires aMatched.Length == |a| && bMatched.Length == |b|
    requires |Kept(a, aMatched[..])| == |Kept(b, bMatched[..])|
    ensures n == Mismatches(Kept(a, aMatched[..]), Kept(b, bMatched[..]))
  {
    n := 0;
    var k := 0;
    ghost var am, bm := aMatched[..], bMatched[..];
    for i := 0 to |a|
      invariant 0 <= k <= |b|
      invariant |KeptFrom(a, am, i)| == |KeptFrom(b, bm, k)|
      invariant n + Mismatches(KeptFrom(a, am, i), KeptFrom(b, bm, k)) == Mismatches(Kept(a, am), Kept(b, bm))
    {
      if aMatched[i] {
        ghost var target := KeptFrom(b, bm, k);
        while !bMatched[k]
          invariant 0 <= k < |b|
          invariant KeptFrom(b, bm, k) == target
          decreases |b| - k
        {
          k := k + 1;
        }
        MismatchesCons(a[i], b[k], KeptFrom(a, am, i + 1), KeptFrom(b, bm, k + 1));
        if a[i] != b[k] {
          n := n + 1;
        }
        k := k + 1;
      }
    }
  }

  method CommonPrefix(a: string, b: string) returns (prefix: nat)
    ensures prefix == PrefixLength(a, b, 4)
  {
    prefix := 0;
    var cap := Min(4, Min(|a|, |b|));
    for i := 0 to cap
      invariant prefix == i && a[..i] == b[..i]
    {
      if a[i] == b[i] {
        prefix := prefix + 1;
      } else {
        PrefixUnique(a, b, 4, prefix);
        return;
      }
    }
    PrefixUnique(a, b, 4, prefix);
  }

  lemma PrefixUnique(a: string, b: string, cap: nat, n: nat)
    requires n <= cap && n <= |a| && n <= |b| && a[..n] == b[..n]
    requires n < cap && n < |a| && n < |b| ==> a[n] != b[n]
    ensures n == PrefixLength(a, b, cap)
  {
    var m := PrefixLength(a, b, cap);
    assert forall k :: 0 <= k < n ==> a[k] == a[..n][k] == b[..n][k] == b[k];
    assert forall k :: 0 <= k < m ==> a[k] == a[..m][k] == b[..m][k] == b[k];
  }

  /** `jaroWinkler(a, b)` */
  method Compute(a: string, b: string) returns (score: real)
    ensures score == Similarity(a, b)
    ensures 0.0 <= score <= 1.0
  {
    SimilarityRange(a, b);
    if a == b {
      return if a == "" then 0.0 else 1.0;
    }
    if a == "" || b == "" {
      return 0.0;
    }
    var w := MatchWindow(|a|, |b|);
    var aMatched := new bool[|a|](_ => false);
    var bMatched := new bool[|b|](_ => false);
    var matches := MarkMatches(a, b, w, aMatched, bMatched);
    EqualCounts(a, b, w, |a|);
    if matches == 0 {
      return 0.0;
    }
    var mismatches := CountMismatches(a, b, aMatched, bMatched);
    var jaro := Jaro(matches, |a|, |b|, mismatches);
    var prefix := CommonPrefix(a, b);
    return Boost(jaro, prefix);
  }
}
