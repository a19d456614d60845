/**
 * Python's ordering of `str` values and `sorted(d.keys())` over a dict whose
 * keys are node names. Strings compare lexicographically by code point, a
 * proper prefix coming first; `sorted` lists the keys in increasing order.
 */
module KeyOrder {

  /** `a <= b` on Python strings. */
  predicate Below(a: string, b: string)
    decreases |a|
  {
    |a| == 0 || (|b| > 0 && (a[0] < b[0] || (a[0] == b[0] && Below(a[1..], b[1..]))))
  }

  lemma {:induction false} BelowReflexive(a: string)
    ensures Below(a, a)
    decreases |a|
  {
    if |a| > 0 {
      BelowReflexive(a[1..]);
    }
  }

  lemma {:induction false} BelowAntisymmetric(a: string, b: string)
    requires Below(a, b) && Below(b, a)
    ensures a == b
    decreases |a|
  {
    if |a| > 0 {
      assert |b| > 0 && a[0] == b[0];
      BelowAntisymmetric(a[1..], b[1..]);
      assert a == [a[0]] + a[1..];
      assert b == [b[0]] + b[1..];
    }
  }

  lemma {:induction false} BelowTransitive(a: string, b: string, c: string)
    requires Below(a, b) && Below(b, c)
    ensures Below(a, c)
    decreases |a|
  {
    if |a| > 0 && a[0] == b[0] && b[0] == c[0] {
      BelowTransitive(a[1..], b[1..], c[1..]);
    }
  }

  lemma {:induction false} BelowTotal(a: string, b: string)
    ensures Below(a, b) || Below(b, a)
    decreases |a|
  {
    if |a| > 0 && |b| > 0 && a[0] == b[0] {
      BelowTotal(a[1..], b[1..]);
    }
  }

  /** `k` is the smallest element of `s`. */
  predicate IsLeast(k: string, s: set<string>)
  {
    k in s && forall x :: x in s ==> Below(k, x)
  }

  /** Every finite non-empty set of strings has a smallest element. */
  lemma {:induction false} LeastExists(s: set<string>)
    requires s != {}
    ensures exists k :: IsLeast(k, s)
    decreases |s|
  {
    var x :| x in s;
    if s == {x} {
      BelowReflexive(x);
      assert IsLeast(x, s);
    } else {
      LeastExists(s - {x});
      var y :| IsLeast(y, s - {x});
      BelowTotal(x, y);
      if Below(x, y) {
        forall z | z in s
          ensures Below(x, z)
        {
          if z == x {
            BelowReflexive(x);
          } else {
            BelowTransitive(x, y, z);
          }
        }
        assert IsLeast(x, s);
      } else {
        assert IsLeast(y, s);
      }
    }
  }

  lemma LeastUnique(j: string, k: string, s: set<string>)
    requires IsLeast(j, s) && IsLeast(k, s)
    ensures j == k
  {
    BelowAntisymmetric(j, k);
  }

  /** Strictly increasing: sorted and without repetition. */
  ghost predicate Increasing(r: seq<string>)
  {
    forall i, j :: 0 <= i < j < |r| ==> Below(r[i], r[j]) && r[i] != r[j]
  }

  /** `sorted(keys)`: the keys, least first (SortedKeysIncreasing and
      SortedKeysSize state that each occurs once, in increasing order). */
  ghost function SortedKeys(s: set<string>): (r: seq<string>)
    ensures forall x :: x in r <==> x in s
    decreases |s|
  {
    if s == {} then []
    else
      LeastExists(s);
      var k :| IsLeast(k, s);
      [k] + SortedKeys(s - {k})
  }

  lemma {:induction false} SortedKeysSize(s: set<string>)
    ensures |SortedKeys(s)| == |s|
    decreases |s|
  {
    if s != {} {
      LeastExists(s);
      var k :| IsLeast(k, s);
      SortedKeysHead(s, k);
      SortedKeysSize(s - {k});
    }
  }

  /** Putting the least element of a set in front of an increasing listing
      of other elements of the set keeps it increasing. */
  lemma IncreasingCons(k: string, rest: seq<string>, s: set<string>)
    requires IsLeast(k, s)
    requires Increasing(rest)
    requires forall x :: x in rest ==> x in s && x != k
    ensures Increasing([k] + rest)
  {
    var r := [k] + rest;
    forall i, j | 0 <= i < j < |r|
      ensures Below(r[i], r[j]) && r[i] != r[j]
    {
      if i == 0 {
        assert r[j] == rest[j - 1];
      } else {
        assert r[i] == rest[i - 1] && r[j] == rest[j - 1];
      }
    }
  }

  lemma {:induction false} SortedKeysIncreasing(s: set<string>)
    ensures Increasing(SortedKeys(s))
    decreases |s|
  {
    if s != {} {
      LeastExists(s);
      var k :| IsLeast(k, s);
      SortedKeysHead(s, k);
      SortedKeysIncreasing(s - {k});
      IncreasingCons(k, SortedKeys(s - {k}), s);
    }
  }

  /** The smallest key comes first and the rest follows sorted. */
  lemma SortedKeysHead(s: set<string>, k: string)
    requires IsLeast(k, s)
    ensures SortedKeys(s) == [k] + SortedKeys(s - {k})
  {
    LeastExists(s);
    var k' :| IsLeast(k', s) && SortedKeys(s) == [k'] + SortedKeys(s - {k'});
    LeastUnique(k, k', s);
  }

  /** The head of an increasing listing of a set is its least element. */
  lemma HeadIsLeast(r: seq<string>, s: set<string>)
    requires r != [] && Increasing(r)
    requires forall x :: x in r <==> x in s
    ensures IsLeast(r[0], s)
  {
    forall x | x in s
      ensures Below(r[0], x)
    {
      var i :| 0 <= i < |r| && r[i] == x;
      if i == 0 {
        BelowReflexive(x);
      }
    }
  }

  /** The tail of an increasing listing of a set lists the rest of the set. */
  lemma TailLists(r: seq<string>, s: set<string>)
    requires r != [] && Increasing(r)
    requires forall x :: x in r <==> x in s
    ensures Increasing(r[1..])
    ensures forall x :: x in r[1..] <==> x in s - {r[0]}
  {
    forall i, j | 0 <= i < j < |r| - 1
      ensures Below(r[1..][i], r[1..][j]) && r[1..][i] != r[1..][j]
    {
      assert r[1..][i] == r[i + 1] && r[1..][j] == r[j + 1];
    }
    forall x
      ensures x in r[1..] <==> x in s - {r[0]}
    {
      if x in r[1..] {
        var i :| 0 <= i < |r| - 1 && r[1..][i] == x;
        assert r[i + 1] == x;
      }
      if x in s - {r[0]} {
        var i :| 0 <= i < |r| && r[i] == x;
        assert r[1..][i - 1] == x;
      }
    }
  }

  /** Sorting is determined by the set: any increasing listing of exactly the
      keys is the sorted one. */
  lemma {:induction false} SortedKeysUnique(r: seq<string>, s: set<string>)
    requires Increasing(r)
    requires forall x :: x in r <==> x in s
    ensures r == SortedKeys(s)
    decreases |r|
  {
    if r == [] {
      assert s == {};
    } else {
      HeadIsLeast(r, s);
      SortedKeysHead(s, r[0]);
      TailLists(r, s);
      SortedKeysUnique(r[1..], s - {r[0]});
      assert r == [r[0]] + r[1..];
    }
  }

  lemma SortStep(r: seq<string>, rest: set<string>, k: string, s: set<string>)
    requires IsLeast(k, rest)
    requires r + SortedKeys(rest) == SortedKeys(s)
    ensures (r + [k]) + SortedKeys(rest - {k}) == SortedKeys(s)
    ensures |rest - {k}| < |rest|
  {
    SortedKeysHead(rest, k);
    assert (r + [k]) + SortedKeys(rest - {k}) == r + ([k] + SortedKeys(rest - {k}));
  }

  /** `sorted(d.keys())`: repeatedly takes the smallest remaining key. */
  method SortKeys(s: set<string>) returns (r: seq<string>)
    ensures Increasing(r)
    ensures forall x :: x in r <==> x in s
  {
    r := [];
    var rest := s;
    while rest != {}
      invariant rest <= s
      invariant r + SortedKeys(rest) == SortedKeys(s)
      decreases |rest|
    {
      LeastExists(rest);
      var k :| IsLeast(k, rest);
      SortStep(r, rest, k, s);
      r := r + [k];
      rest := rest - {k};
    }
    assert SortedKeys(rest) == [];
    assert r == SortedKeys(s);
    SortedKeysIncreasing(s);
  }
}
