/** `Array.prototype.sort` with a comparator: the one stable ordering of its input.
    Insertion sort is used as the reference; stability makes its result the only possible one. */
module Sorting {

  ghost predicate TotalPreorder<T(!new)>(le: (T, T) -> bool) {
    && (forall x, y :: le(x, y) || le(y, x))
    && (forall x, y, z :: le(x, y) && le(y, z) ==> le(x, z))
  }

  ghost predicate Sorted<T>(le: (T, T) -> bool, s: seq<T>) {
    forall i, j :: 0 <= i < j < |s| ==> le(s[i], s[j])
  }

  /** Inserts `x` before the first element that may not precede it. */
  function Insert<T(!new)>(le: (T, T) -> bool, x: T, s: seq<T>): (r: seq<T>)
    ensures multiset(r) == multiset(s) + multiset{x}
  {
    if s == [] || le(x, s[0]) then
      assert s == [] || s == [s[0]] + s[1..];
      [x] + s
    else
      assert s == [s[0]] + s[1..];
      [s[0]] + Insert(le, x, s[1..])
  }

  function Sort<T(!new)>(le: (T, T) -> bool, s: seq<T>): (r: seq<T>)
    ensures multiset(r) == multiset(s)
    ensures |r| == |s|
    ensures forall x :: x in r <==> x in s
  {
    if s == [] then []
    else
      assert s == [s[0]] + s[1..];
      var r := Insert(le, s[0], Sort(le, s[1..]));
      SameElements(r, s);
      r
  }

  lemma SameElements<T(!new)>(r: seq<T>, s: seq<T>)
    requires multiset(r) == multiset(s)
    ensures |r| == |s| && forall x :: x in r <==> x in s
  {
    assert |multiset(r)| == |r| && |multiset(s)| == |s|;
    forall x ensures x in r <==> x in s {
      assert x in r <==> x in multiset(r);
      assert x in s <==> x in multiset(s);
    }
  }

  lemma {:induction false} InsertSorted<T(!new)>(le: (T, T) -> bool, x: T, s: seq<T>)
    requires TotalPreorder(le) && Sorted(le, s)
    ensures Sorted(le, Insert(le, x, s))
  {
    if s != [] && !le(x, s[0]) {
      var r := Insert(le, x, s[1..]);
      InsertSorted(le, x, s[1..]);
      forall y | y in r ensures le(s[0], y) {
        assert y in multiset(r);
        assert y == x || y in s[1..];
      }
    }
  }

  lemma {:induction false} SortSorts<T(!new)>(le: (T, T) -> bool, s: seq<T>)
    requires TotalPreorder(le)
    ensures Sorted(le, Sort(le, s))
  {
    if s != [] {
      SortSorts(le, s[1..]);
      InsertSorted(le, s[0], Sort(le, s[1..]));
    }
  }

  /** A sorted sequence is left alone. */
  lemma {:induction false} SortFixesSorted<T(!new)>(le: (T, T) -> bool, s: seq<T>)
    requires Sorted(le, s)
    ensures Sort(le, s) == s
  {
    if s != [] {
      SortFixesSorted(le, s[1..]);
      assert |s| == 1 || le(s[0], s[1]);
    }
  }

  predicate Tie<T>(le: (T, T) -> bool, x: T, y: T) {
    le(x, y) && le(y, x)
  }

  /** The members of `s` that tie with `x`, in order. */
  function Ties<T>(le: (T, T) -> bool, x: T, s: seq<T>): seq<T> {
    if s == [] then []
    else if Tie(le, x, s[0]) then [s[0]] + Ties(le, x, s[1..])
    else Ties(le, x, s[1..])
  }

  lemma TiesCons<T>(le: (T, T) -> bool, x: T, y: T, s: seq<T>)
    ensures Ties(le, x, [y] + s) == if Tie(le, x, y) then [y] + Ties(le, x, s) else Ties(le, x, s)
  {
    assert ([y] + s)[1..] == s;
  }

  lemma {:induction false} InsertTies<T(!new)>(le: (T, T) -> bool, x: T, y: T, s: seq<T>)
    requires TotalPreorder(le)
    ensures Ties(le, x, Insert(le, y, s)) == Ties(le, x, [y] + s)
  {
    if s != [] && !le(y, s[0]) {
      assert !(Tie(le, x, y) && Tie(le, x, s[0]));
      InsertTies(le, x, y, s[1..]);
      TiesCons(le, x, y, s[1..]);
      TiesCons(le, x, y, s);
      TiesCons(le, x, s[0], Insert(le, y, s[1..]));
    }
  }

  /** Elements that tie keep their order. */
  lemma {:induction false} SortStable<T(!new)>(le: (T, T) -> bool, x: T, s: seq<T>)
    requires TotalPreorder(le)
    ensures Ties(le, x, Sort(le, s)) == Ties(le, x, s)
  {
    if s != [] {
      SortStable(le, x, s[1..]);
      InsertTies(le, x, s[0], Sort(le, s[1..]));
      TiesCons(le, x, s[0], Sort(le, s[1..]));
    }
  }

  // ---------------------------------------------------------------------------
  // Strings, compared character by character
  // ---------------------------------------------------------------------------

  predicate StringLe(s: string, t: string) {
    s == "" || (t != "" && (s[0] < t[0] || (s[0] == t[0] && StringLe(s[1..], t[1..]))))
  }

  predicate StringLt(s: string, t: string) {
    StringLe(s, t) && s != t
  }

  lemma {:induction false} StringLeTotal(s: string, t: string)
    ensures StringLe(s, t) || StringLe(t, s)
    ensures StringLe(s, t) && StringLe(t, s) ==> s == t
  {
    if s != "" && t != "" && s[0] == t[0] {
      StringLeTotal(s[1..], t[1..]);
      assert s == [s[0]] + s[1..] && t == [t[0]] + t[1..];
    }
  }

  lemma {:induction false} StringLeTransitive(s: string, t: string, u: string)
    requires StringLe(s, t) && StringLe(t, u)
    ensures StringLe(s, u)
  {
    if s != "" && s[0] == t[0] && t[0] == u[0] {
      StringLeTransitive(s[1..], t[1..], u[1..]);
    }
  }

  /** The first place where two strings differ. */
  ghost predicate DifferFirstAt(s: string, t: string, k: nat) {
    k < |s| && k < |t| && s[..k] == t[..k] && s[k] != t[k]
  }

  /** One string comes before another when it begins the other, or has the smaller code unit at the first
      place where they differ. */
  lemma {:induction false} StringOrder(s: string, t: string)
    ensures StringLe(s, t) <==> s <= t || exists k: nat :: DifferFirstAt(s, t, k) && s[k] < t[k]
  {
    if s != "" && t != "" && s[0] == t[0] {
      StringOrder(s[1..], t[1..]);
      assert s == [s[0]] + s[1..] && t == [t[0]] + t[1..];
      forall k: nat ensures DifferFirstAt(s, t, k + 1) <==> DifferFirstAt(s[1..], t[1..], k) {
        DifferLater(s, t, k);
      }
      if k: nat :| DifferFirstAt(s, t, k) && s[k] < t[k] {
        assert k > 0 && DifferFirstAt(s[1..], t[1..], k - 1);
      }
      if k: nat :| DifferFirstAt(s[1..], t[1..], k) && s[1..][k] < t[1..][k] {
        assert DifferFirstAt(s, t, k + 1);
      }
    } else if s != "" && t != "" {
      assert DifferFirstAt(s, t, 0);
      forall k: nat | 0 < k <= |s| && k <= |t| ensures s[..k] != t[..k] {
        assert s[..k][0] == s[0] && t[..k][0] == t[0];
      }
    }
  }

  lemma DifferLater(s: string, t: string, k: nat)
    requires s != "" && t != "" && s[0] == t[0]
    ensures DifferFirstAt(s, t, k + 1) <==> DifferFirstAt(s[1..], t[1..], k)
  {
    if k + 1 <= |s| && k + 1 <= |t| {
      assert s[..k + 1] == [s[0]] + s[1..][..k] && t[..k + 1] == [t[0]] + t[1..][..k];
      assert s[1..][..k] == s[..k + 1][1..] && t[1..][..k] == t[..k + 1][1..];
    }
  }

  lemma StringLeIsTotalPreorder()
    ensures TotalPreorder(StringLe)
  {
    forall s, t ensures StringLe(s, t) || StringLe(t, s) {
      StringLeTotal(s, t);
    }
    forall s, t, u | StringLe(s, t) && StringLe(t, u) ensures StringLe(s, u) {
      StringLeTransitive(s, t, u);
    }
  }

  /** `sort()` without a comparator, on strings */
  function SortStrings(ids: seq<string>): (r: seq<string>)
    ensures multiset(r) == multiset(ids)
    ensures forall x :: x in r <==> x in ids
  {
    Sort(StringLe, ids)
  }

  ghost predicate Distinct<T(!new)>(s: seq<T>) {
    forall i, j :: 0 <= i < j < |s| ==> s[i] != s[j]
  }

  lemma SortDistinct<T(!new)>(le: (T, T) -> bool, s: seq<T>)
    requires Distinct(s)
    ensures Distinct(Sort(le, s))
  {
    var r := Sort(le, s);
    forall i, j | 0 <= i < j < |r| ensures r[i] != r[j] {
      if r[i] == r[j] {
        CountedTwice(r, i, j);
        DistinctOnce(s, r[i]);
      }
    }
  }

  lemma SortedDistinct(ids: seq<string>)
    requires Distinct(ids)
    ensures var r := SortStrings(ids); forall i, j :: 0 <= i < j < |r| ==> StringLt(r[i], r[j])
  {
    StringLeIsTotalPreorder();
    SortSorts(StringLe, ids);
    SortDistinct(StringLe, ids);
  }

  lemma CountedTwice<T(!new)>(s: seq<T>, i: nat, j: nat)
    requires i < j < |s| && s[i] == s[j]
    ensures multiset(s)[s[i]] >= 2
  {
    assert s == s[..j] + s[j..];
    assert s[..j][i] in multiset(s[..j]) && s[j..][0] in multiset(s[j..]);
  }

  lemma {:induction false} DistinctOnce<T(!new)>(s: seq<T>, x: T)
    requires Distinct(s)
    ensures multiset(s)[x] <= 1
  {
    if s != [] {
      DistinctOnce(s[1..], x);
      assert s == [s[0]] + s[1..];
      assert s[0] !in s[1..];
      assert multiset(s) == multiset{s[0]} + multiset(s[1..]);
    }
  }
}
