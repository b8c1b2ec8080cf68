/** Ordering and sorting of the file names found in a bag directory. Paths
    that share a parent compare by their last component, and a Python string
    compares code point by code point, a proper prefix first. */
module PathOrder {

  /** `a` sorts no later than `b`. */
  predicate NameLe(a: string, b: string)
    decreases |a|
  {
    |a| == 0 || (|b| > 0 && (a[0] < b[0] || (a[0] == b[0] && NameLe(a[1..], b[1..]))))
  }

  lemma {:induction false} NameLeTotal(a: string, b: string)
    ensures NameLe(a, b) || NameLe(b, a)
    decreases |a|
  {
    if |a| > 0 && |b| > 0 && a[0] == b[0] {
      NameLeTotal(a[1..], b[1..]);
    }
  }

  lemma {:induction false} NameLeTransitive(a: string, b: string, c: string)
    requires NameLe(a, b) && NameLe(b, c)
    ensures NameLe(a, c)
    decreases |a|
  {
    if |a| > 0 && a[0] == b[0] && b[0] == c[0] {
      NameLeTransitive(a[1..], b[1..], c[1..]);
    }
  }

  lemma {:induction false} NameLeAntisymmetric(a: string, b: string)
    requires NameLe(a, b) && NameLe(b, a)
    ensures a == b
    decreases |a|
  {
    if |a| > 0 {
      NameLeAntisymmetric(a[1..], b[1..]);
      assert a == [a[0]] + a[1..];
      assert b == [b[0]] + b[1..];
    }
  }

  predicate Sorted(s: seq<string>) {
    forall i, j :: 0 <= i < j < |s| ==> NameLe(s[i], s[j])
  }

  /** Every name of `s` sorts no earlier than `y`. */
  predicate NoneBefore(y: string, s: seq<string>) {
    forall j :: 0 <= j < |s| ==> NameLe(y, s[j])
  }

  lemma ConsSorted(y: string, s: seq<string>)
    requires Sorted(s) && NoneBefore(y, s)
    ensures Sorted([y] + s)
  {
  }

  lemma NoneBeforeSorted(y: string, s: seq<string>)
    requires Sorted(s) && |s| > 0 && NameLe(y, s[0])
    ensures NoneBefore(y, s)
  {
    forall j | 0 < j < |s|
      ensures NameLe(y, s[j])
    {
      NameLeTransitive(y, s[0], s[j]);
    }
  }

  /** A lower bound of `s` and of `x` is a lower bound of any rearrangement
      of `s` with `x` added. */
  lemma NoneBeforeRearranged(y: string, x: string, s: seq<string>, r: seq<string>)
    requires NoneBefore(y, s) && NameLe(y, x)
    requires multiset(r) == multiset(s) + multiset{x}
    ensures NoneBefore(y, r)
  {
    forall j | 0 <= j < |r|
      ensures NameLe(y, r[j])
    {
      assert r[j] in multiset(r);
      if r[j] != x {
        assert r[j] in multiset(s);
      }
    }
  }

  /** Puts `x` in its place in an already sorted sequence. */
  function Insert(x: string, s: seq<string>): (r: seq<string>)
    requires Sorted(s)
    ensures Sorted(r)
    ensures multiset(r) == multiset(s) + multiset{x}
    decreases |s|
  {
    if |s| == 0 then
      [x]
    else if NameLe(x, s[0]) then
      NoneBeforeSorted(x, s);
      ConsSorted(x, s);
      assert s == [s[0]] + s[1..];
      [x] + s
    else
      var rest := Insert(x, s[1..]);
      NameLeTotal(x, s[0]);
      assert NoneBefore(s[0], s[1..]) by {
        forall j | 0 <= j < |s[1..]|
          ensures NameLe(s[0], s[1..][j])
        {
          assert s[1..][j] == s[j + 1];
        }
      }
      NoneBeforeRearranged(s[0], x, s[1..], rest);
      ConsSorted(s[0], rest);
      assert s == [s[0]] + s[1..];
      [s[0]] + rest
  }

  /** Insertion sort: the sorted rearrangement of `s`. */
  function Sort(s: seq<string>): (r: seq<string>)
    ensures Sorted(r)
    ensures multiset(r) == multiset(s)
    decreases |s|
  {
    if |s| == 0 then
      []
    else
      assert s == [s[0]] + s[1..];
      Insert(s[0], Sort(s[1..]))
  }

  lemma TailMultiset(s: seq<string>)
    requires |s| > 0
    ensures multiset(s[1..]) == multiset(s) - multiset{s[0]}
  {
    assert s == [s[0]] + s[1..];
    assert multiset(s) == multiset{s[0]} + multiset(s[1..]);
  }

  /** Two sorted sequences with the same names start with the same name. */
  lemma SortedHeadsAgree(s: seq<string>, t: seq<string>)
    requires Sorted(s) && Sorted(t)
    requires multiset(s) == multiset(t)
    requires |s| > 0
    ensures |t| > 0 && s[0] == t[0]
  {
    assert s[0] in multiset(t);
    var j :| 0 <= j < |t| && t[j] == s[0];
    assert t[0] in multiset(s);
    var i :| 0 <= i < |s| && s[i] == t[0];
    if i > 0 && j > 0 {
      NameLeAntisymmetric(s[0], t[0]);
    }
  }

  /** There is only one sorted rearrangement of a multiset of names, so the
      order in which they were listed cannot show through. */
  lemma {:induction false} SortedUnique(s: seq<string>, t: seq<string>)
    requires Sorted(s) && Sorted(t)
    requires multiset(s) == multiset(t)
    ensures s == t
    decreases |s|
  {
    if |s| == 0 {
      assert |t| == |multiset(t)| == 0;
    } else {
      SortedHeadsAgree(s, t);
      TailMultiset(s);
      TailMultiset(t);
      SortedUnique(s[1..], t[1..]);
      assert s == [s[0]] + s[1..];
      assert t == [t[0]] + t[1..];
    }
  }

  /** Sorting any rearrangement of the same names gives the same sequence. */
  lemma SortIgnoresOrder(s: seq<string>, t: seq<string>)
    requires multiset(s) == multiset(t)
    ensures Sort(s) == Sort(t)
  {
    SortedUnique(Sort(s), Sort(t));
  }
}
