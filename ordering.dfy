/**
 * The order Python uses when it sorts strings (`sorted(...)`, `sorted(..., key=lambda t: t.tag)`):
 * lexicographic comparison by character code. `SortedSet` is the deterministic listing of a set of
 * names or tags in that order.
 */
module Ordering {

  /** `a <= b` for Python strings: lexicographic by character code, a prefix comes first. */
  predicate Below(a: string, b: string)
  {
    |a| == 0 || (|b| != 0 && (a[0] < b[0] || (a[0] == b[0] && Below(a[1..], b[1..]))))
  }

  lemma {:induction false} BelowReflexive(a: string)
    ensures Below(a, a)
  {
    if |a| != 0 { BelowReflexive(a[1..]); }
  }

  lemma {:induction false} BelowAntisymmetric(a: string, b: string)
    requires Below(a, b) && Below(b, a)
    ensures a == b
  {
    if |a| != 0 && |b| != 0 {
      BelowAntisymmetric(a[1..], b[1..]);
      assert a == [a[0]] + a[1..] && b == [b[0]] + b[1..];
    }
  }

  lemma {:induction false} BelowTransitive(a: string, b: string, c: string)
    requires Below(a, b) && Below(b, c)
    ensures Below(a, c)
  {
    if |a| != 0 && |b| != 0 && |c| != 0 && a[0] == b[0] == c[0] {
      BelowTransitive(a[1..], b[1..], c[1..]);
    }
  }

  lemma {:induction false} BelowTotal(a: string, b: string)
    ensures Below(a, b) || Below(b, a)
  {
    if |a| != 0 && |b| != 0 && a[0] == b[0] {
      BelowTotal(a[1..], b[1..]);
    }
  }

  /** `m` is the smallest element of `s`. */
  predicate IsLeast(m: string, s: set<string>)
  {
    m in s && forall x :: x in s ==> Below(m, x)
  }

  lemma {:induction false} LeastExists(s: set<string>)
    requires s != {}
    ensures exists m :: IsLeast(m, s)
    decreases |s|
  {
    var x :| x in s;
    if s == {x} {
      BelowReflexive(x);
      assert IsLeast(x, s);
    } else {
      var rest := s - {x};
      LeastExists(rest);
      var m :| IsLeast(m, rest);
      BelowTotal(x, m);
      if Below(x, m) {
        forall y | y in s
          ensures Below(x, y)
        {
          if y == x { BelowReflexive(x); } else { BelowTransitive(x, m, y); }
        }
        assert IsLeast(x, s);
      } else {
        assert IsLeast(m, s);
      }
    }
  }

  lemma LeastUnique(s: set<string>)
    ensures forall m, m' :: IsLeast(m, s) && IsLeast(m', s) ==> m == m'
  {
    forall m, m' | IsLeast(m, s) && IsLeast(m', s)
      ensures m == m'
    {
      BelowAntisymmetric(m, m');
    }
  }

  /** The smallest element of a non-empty set of strings. */
  function Least(s: set<string>): (m: string)
    requires s != {}
    ensures IsLeast(m, s)
  {
    LeastExists(s);
    LeastUnique(s);
    var m :| IsLeast(m, s); m
  }

  /** Every element strictly below every later one: sorted, and no element twice. */
  predicate StrictlySorted(r: seq<string>)
  {
    forall i, j :: 0 <= i < j < |r| ==> Below(r[i], r[j]) && r[i] != r[j]
  }

  /** The elements of `s` in ascending order, each once: Python's `sorted(s)`. */
  function SortedSet(s: set<string>): (r: seq<string>)
    ensures |r| == |s|
    ensures forall x :: x in r <==> x in s
    decreases |s|
  {
    if s == {} then []
    else
      var m := Least(s);
      [m] + SortedSet(s - {m})
  }

  /** The listing holds exactly the elements of the set. */
  lemma SortedSetElements(s: set<string>)
    ensures (set x | x in SortedSet(s)) == s
  {
  }

  /** The listing is strictly ascending: each element below every later one, none twice. */
  lemma {:induction false} SortedSetSorted(s: set<string>)
    ensures StrictlySorted(SortedSet(s))
    decreases |s|
  {
    if s != {} {
      var m := Least(s);
      SortedSetSorted(s - {m});
      ConsLeastSorted(m, s, SortedSet(s - {m}));
    }
  }

  /** Putting the least element in front of a strictly sorted listing of the others keeps it strictly sorted. */
  lemma ConsLeastSorted(m: string, s: set<string>, rest: seq<string>)
    requires IsLeast(m, s) && StrictlySorted(rest)
    requires forall x :: x in rest ==> x in s - {m}
    ensures StrictlySorted([m] + rest)
  {
    var r := [m] + rest;
    forall i, j | 0 <= i < j < |r| ensures Below(r[i], r[j]) && r[i] != r[j] {
      assert r[j] == rest[j - 1];
      if i == 0 {
        assert r[j] in rest;
      } else {
        assert r[i] == rest[i - 1];
      }
    }
  }


  /** The first element of a strictly sorted sequence is the least of its elements. */
  lemma HeadIsLeast(r: seq<string>, s: set<string>)
    requires r != [] && StrictlySorted(r)
    requires forall x :: x in r <==> x in s
    ensures IsLeast(r[0], s)
  {
    BelowReflexive(r[0]);
    forall x | x in s ensures Below(r[0], x) {
      var j :| 0 <= j < |r| && r[j] == x;
    }
  }

  /** Without its first element, a strictly sorted sequence is still strictly sorted and holds the rest. */
  lemma TailIsSorted(r: seq<string>, s: set<string>)
    requires r != [] && StrictlySorted(r)
    requires forall x :: x in r <==> x in s
    ensures StrictlySorted(r[1..])
    ensures forall x :: x in r[1..] <==> x in s - {r[0]}
  {
    var t := r[1..];
    forall i, j | 0 <= i < j < |t| ensures Below(t[i], t[j]) && t[i] != t[j] {
      assert t[i] == r[i + 1] && t[j] == r[j + 1];
    }
    forall x ensures x in t <==> x in s - {r[0]} {
      if x in t {
        var j :| 0 <= j < |t| && t[j] == x;
        assert r[j + 1] == x;
      }
      if x in s - {r[0]} {
        var j :| 0 <= j < |r| && r[j] == x;
        assert t[j - 1] == x;
      }
    }
  }

  /** A sorted listing is the only one: any strictly sorted sequence holding exactly `s` is `SortedSet(s)`. */
  lemma {:induction false} SortedSetUnique(r: seq<string>, s: set<string>)
    requires StrictlySorted(r)
    requires forall x :: x in r <==> x in s
    ensures r == SortedSet(s)
    decreases |r|
  {
    if r != [] {
      HeadIsLeast(r, s);
      LeastUnique(s);
      var m := Least(s);
      assert r[0] == m;
      TailIsSorted(r, s);
      SortedSetUnique(r[1..], s - {m});
      assert r == [m] + r[1..];
    } else {
      assert forall x :: x !in s;
    }
  }

}
