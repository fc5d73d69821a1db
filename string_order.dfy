/**
 * JavaScript's default `Array.prototype.sort` order on strings, and a sort
 * that produces it. `make_patkey` sorts the keys of a pattern object with it.
 */
module StringOrder {

  /** `a` sorts no later than `b`: the first differing character decides, and a proper prefix comes first. */
  predicate NoLater(a: string, b: string)
  {
    a == [] || (b != [] && (a[0] < b[0] || (a[0] == b[0] && NoLater(a[1..], b[1..]))))
  }

  lemma {:induction false} Reflexive(a: string)
    ensures NoLater(a, a)
  {
    if a != [] {
      Reflexive(a[1..]);
    }
  }

  lemma {:induction false} Total(a: string, b: string)
    ensures NoLater(a, b) || NoLater(b, a)
  {
    if a != [] && b != [] && a[0] == b[0] {
      Total(a[1..], b[1..]);
    }
  }

  lemma {:induction false} Antisymmetric(a: string, b: string)
    requires NoLater(a, b) && NoLater(b, a)
    ensures a == b
  {
    if a != [] {
      Antisymmetric(a[1..], b[1..]);
      assert a == [a[0]] + a[1..] && b == [b[0]] + b[1..];
    }
  }

  lemma {:induction false} Transitive(a: string, b: string, c: string)
    requires NoLater(a, b) && NoLater(b, c)
    ensures NoLater(a, c)
  {
    if a != [] && b != [] && c != [] && a[0] == b[0] && b[0] == c[0] {
      Transitive(a[1..], b[1..], c[1..]);
    }
  }

  predicate Sorted(s: seq<string>)
  {
    forall i, j :: 0 <= i < j < |s| ==> NoLater(s[i], s[j])
  }

  /** Places `x` before the first element it sorts no later than. */
  function Insert(x: string, s: seq<string>): seq<string>
  {
    if s == [] then [x]
    else if NoLater(x, s[0]) then [x] + s
    else [s[0]] + Insert(x, s[1..])
  }

  lemma {:induction false} InsertPermutes(x: string, s: seq<string>)
    ensures multiset(Insert(x, s)) == multiset(s) + multiset{x}
  {
    if s != [] && !NoLater(x, s[0]) {
      InsertPermutes(x, s[1..]);
      assert s == [s[0]] + s[1..];
    }
  }

  /** Every element of `s` sorts no earlier than `x`. */
  predicate AllNoEarlier(x: string, s: seq<string>)
  {
    forall j :: 0 <= j < |s| ==> NoLater(x, s[j])
  }

  lemma PrependSorted(x: string, s: seq<string>)
    requires Sorted(s) && AllNoEarlier(x, s)
    ensures Sorted([x] + s)
  {
    var r := [x] + s;
    forall i, j | 0 <= i < j < |r|
      ensures NoLater(r[i], r[j])
    {
      if i == 0 {
        assert r[j] == s[j - 1];
      } else {
        assert r[i] == s[i - 1] && r[j] == s[j - 1];
      }
    }
  }

  lemma TailSorted(s: seq<string>)
    requires Sorted(s) && s != []
    ensures Sorted(s[1..]) && AllNoEarlier(s[0], s[1..])
  {
    forall i, j | 0 <= i < j < |s[1..]|
      ensures NoLater(s[1..][i], s[1..][j])
    {
      assert s[1..][i] == s[i + 1] && s[1..][j] == s[j + 1];
    }
    forall j | 0 <= j < |s[1..]|
      ensures NoLater(s[0], s[1..][j])
    {
      assert s[1..][j] == s[j + 1];
    }
  }

  lemma {:induction false} InsertSorted(x: string, s: seq<string>)
    requires Sorted(s)
    ensures Sorted(Insert(x, s))
  {
    if s == [] {
    } else if NoLater(x, s[0]) {
      forall j | 0 <= j < |s|
        ensures NoLater(x, s[j])
      {
        if j > 0 {
          Transitive(x, s[0], s[j]);
        }
      }
      PrependSorted(x, s);
    } else {
      Total(x, s[0]);
      var t := s[1..];
      TailSorted(s);
      InsertSorted(x, t);
      InsertPermutes(x, t);
      var rest := Insert(x, t);
      forall j | 0 <= j < |rest|
        ensures NoLater(s[0], rest[j])
      {
        assert rest[j] in multiset(rest);
        if rest[j] != x {
          assert rest[j] in multiset(t);
          var k :| 0 <= k < |t| && t[k] == rest[j];
        }
      }
      PrependSorted(s[0], rest);
    }
  }

  /** The keys in sorted order: a sorted permutation of the input. */
  function Sort(s: seq<string>): (r: seq<string>)
    ensures Sorted(r)
    ensures multiset(r) == multiset(s)
  {
    if s == [] then []
    else
      var rest := Sort(s[1..]);
      InsertSorted(s[0], rest);
      InsertPermutes(s[0], rest);
      assert s == [s[0]] + s[1..];
      Insert(s[0], rest)
  }

  lemma HeadIsLeast(s: seq<string>, e: string)
    requires Sorted(s) && e in s
    ensures NoLater(s[0], e)
  {
    var j :| 0 <= j < |s| && s[j] == e;
    if j == 0 {
      Reflexive(e);
    }
  }

  lemma TailMultiset(s: seq<string>)
    requires s != []
    ensures multiset(s[1..]) == multiset(s) - multiset{s[0]}
  {
    assert s == [s[0]] + s[1..];
  }

  /** A sorted arrangement of a multiset of strings is unique. */
  lemma {:induction false} SortedUnique(x: seq<string>, y: seq<string>)
    requires Sorted(x) && Sorted(y)
    requires multiset(x) == multiset(y)
    ensures x == y
  {
    if x == [] {
      assert |multiset(y)| == 0;
    } else {
      SameHead(x, y);
      TailMultiset(x);
      TailMultiset(y);
      TailSorted(x);
      TailSorted(y);
      SortedUnique(x[1..], y[1..]);
      assert x == [x[0]] + x[1..] && y == [y[0]] + y[1..];
    }
  }

  /** Two sorted arrangements of the same non-empty multiset start with the same string. */
  lemma SameHead(x: seq<string>, y: seq<string>)
    requires Sorted(x) && Sorted(y) && x != []
    requires multiset(x) == multiset(y)
    ensures y != [] && x[0] == y[0]
  {
    assert |y| == |multiset(y)| == |multiset(x)| > 0;
    assert x[0] in multiset(y) && y[0] in multiset(x);
    HeadIsLeast(y, x[0]);
    HeadIsLeast(x, y[0]);
    Antisymmetric(x[0], y[0]);
  }

  /** No string occurs twice. */
  predicate Distinct(s: seq<string>)
  {
    forall i, j :: 0 <= i < j < |s| ==> s[i] != s[j]
  }

  lemma {:induction false} DistinctAtMostOnce(s: seq<string>, e: string)
    requires Distinct(s)
    ensures multiset(s)[e] <= 1
  {
    if s != [] {
      TailMultiset(s);
      assert Distinct(s[1..]) by {
        forall i, j | 0 <= i < j < |s[1..]|
          ensures s[1..][i] != s[1..][j]
        {
          assert s[1..][i] == s[i + 1] && s[1..][j] == s[j + 1];
        }
      }
      DistinctAtMostOnce(s[1..], e);
      if s[0] == e {
        assert e !in s[1..];
      }
      assert multiset(s) == multiset{s[0]} + multiset(s[1..]);
    }
  }

  /** A rearrangement of a sequence without repetitions has none either. */
  lemma DistinctPermute(s: seq<string>, t: seq<string>)
    requires Distinct(s) && multiset(s) == multiset(t)
    ensures Distinct(t)
  {
    if !Distinct(t) {
      var i, j :| 0 <= i < j < |t| && t[i] == t[j];
      var e := t[i];
      assert t == t[..j] + t[j..];
      assert e in t[..j] && e == t[j..][0];
      assert multiset(t)[e] == multiset(t[..j])[e] + multiset(t[j..])[e];
      DistinctAtMostOnce(s, e);
    }
  }
}
