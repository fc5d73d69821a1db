/**
 * `make_patkey`: the string under which the balancer files the targets of a
 * pattern. A string is its own key; an object is cleaned of housekeeping
 * keys, rebuilt with its keys in sorted order and serialised.
 */
module PatKey {
  import opened Objects
  import opened StringOrder

  /**
   * The two helpers of the framework's utility object that this core calls.
   * `isMeta` tells which keys `seneca.util.clean` strips; `pattern` is
   * `seneca.util.pattern`, which serialises an object given as its fields in
   * insertion order. Nothing else is assumed of either.
   */
  datatype Util = Util(isMeta: string -> bool, pattern: seq<Field> -> string)

  /** The own fields of a pattern value: those of an object; any other value has none, as `_.keys` reports. */
  function FieldsOf(pat: Value): seq<Field>
  {
    if pat.Record? then pat.fields else []
  }

  /** `_.keys(seneca.util.clean(pat))`: the keys that survive cleaning, in insertion order. */
  function CleanKeys(util: Util, obj: seq<Field>): seq<string>
  {
    if obj == [] then []
    else (if util.isMeta(obj[0].0) then [] else [obj[0].0]) + CleanKeys(util, obj[1..])
  }

  /** The keys that survive cleaning are exactly the object's keys that `clean` keeps. */
  lemma {:induction false} CleanKeysMembers(util: Util, obj: seq<Field>)
    ensures forall k :: k in CleanKeys(util, obj) <==> HasKey(obj, k) && !util.isMeta(k)
  {
    if obj != [] {
      CleanKeysMembers(util, obj[1..]);
      forall k | HasKey(obj, k) && obj[0].0 != k
        ensures HasKey(obj[1..], k)
      {
        var i :| 0 <= i < |obj| && obj[i].0 == k;
        assert obj[1..][i - 1] == obj[i];
      }
      forall k | HasKey(obj[1..], k)
        ensures HasKey(obj, k)
      {
        var i :| 0 <= i < |obj[1..]| && obj[1..][i].0 == k;
        assert obj[i + 1] == obj[1..][i];
      }
      assert HasKey(obj, obj[0].0);
    }
  }

  /** The copying loop of `make_patkey`: starting from `{}`, `cleanpat[k] = pat[k]` for each key of `ks` in turn. */
  function Rebuild(ks: seq<string>, pat: seq<Field>): seq<Field>
  {
    if ks == [] then []
    else Set(Rebuild(ks[..|ks| - 1], pat), ks[|ks| - 1], Get(pat, ks[|ks| - 1]))
  }

  /** The object `make_patkey` hands to the serialiser. */
  function CanonicalFields(util: Util, pat: seq<Field>): seq<Field>
  {
    Rebuild(Sort(CleanKeys(util, pat)), pat)
  }

  function MakePatKey(util: Util, pat: Value): string
  {
    if pat.Text? then pat.s
    else util.pattern(CanonicalFields(util, FieldsOf(pat)))
  }

  /** A string pattern is its own key, so making the key of a key changes nothing. */
  lemma KeyIsFixedPoint(util: Util, pat: Value)
    ensures pat.Text? ==> MakePatKey(util, pat) == pat.s
    ensures MakePatKey(util, Text(MakePatKey(util, pat))) == MakePatKey(util, pat)
  {
  }

  lemma {:induction false} CleanKeysAppend(util: Util, x: seq<Field>, y: seq<Field>)
    ensures CleanKeys(util, x + y) == CleanKeys(util, x) + CleanKeys(util, y)
  {
    if x != [] {
      var xy := x + y;
      assert xy[0] == x[0] && xy[1..] == x[1..] + y;
      CleanKeysAppend(util, x[1..], y);
    } else {
      assert x + y == y;
    }
  }

  /** Reordering the fields of an object reorders the keys that survive cleaning, and no more. */
  lemma {:induction false} CleanKeysPermute(util: Util, a: seq<Field>, b: seq<Field>)
    requires multiset(a) == multiset(b)
    ensures multiset(CleanKeys(util, a)) == multiset(CleanKeys(util, b))
    decreases |a|
  {
    if a == [] {
      assert |multiset(b)| == 0;
      assert b == [];
    } else {
      var e := a[0];
      assert e in multiset(b);
      var j :| 0 <= j < |b| && b[j] == e;
      var b' := b[..j] + b[j + 1..];
      assert b == b[..j] + [e] + b[j + 1..];
      assert a == [e] + a[1..];
      assert multiset(b) == multiset(b[..j]) + multiset{e} + multiset(b[j + 1..]);
      assert multiset(b') == multiset(b[..j]) + multiset(b[j + 1..]);
      assert multiset(a) == multiset{e} + multiset(a[1..]);
      forall v
        ensures multiset(b')[v] == multiset(a[1..])[v]
      {
        assert multiset(a)[v] == multiset(b)[v];
        assert multiset(b)[v] == multiset(b[..j])[v] + multiset{e}[v] + multiset(b[j + 1..])[v];
        assert multiset(a)[v] == multiset{e}[v] + multiset(a[1..])[v];
      }
      assert multiset(b') == multiset(a[1..]);
      CleanKeysPermute(util, a[1..], b');
      CleanKeysAppend(util, b[..j], b[j + 1..]);
      CleanKeysAppend(util, b[..j], [e]);
      CleanKeysAppend(util, b[..j] + [e], b[j + 1..]);
      CleanKeysAppend(util, [e], a[1..]);
    }
  }

  /** The rebuilt object depends only on what the pattern's fields read at the listed keys. */
  lemma {:induction false} RebuildAgrees(ks: seq<string>, a: seq<Field>, b: seq<Field>)
    requires forall k :: k in ks ==> Get(a, k) == Get(b, k)
    ensures Rebuild(ks, a) == Rebuild(ks, b)
  {
    if ks != [] {
      RebuildAgrees(ks[..|ks| - 1], a, b);
    }
  }

  /** Two objects with distinct keys and the same fields read the same at every key. */
  lemma ReadsAgree(a: seq<Field>, b: seq<Field>, k: string)
    requires DistinctKeys(a) && DistinctKeys(b)
    requires multiset(a) == multiset(b)
    requires HasKey(a, k)
    ensures Get(a, k) == Get(b, k)
  {
    var i :| 0 <= i < |a| && a[i].0 == k;
    assert a[i] in multiset(b);
    GetField(a, a[i]);
    GetField(b, a[i]);
  }

  /**
   * The key of an object does not depend on the order its fields were
   * written in: two objects with the same fields get the same key.
   */
  lemma KeyIgnoresFieldOrder(util: Util, a: seq<Field>, b: seq<Field>)
    requires DistinctKeys(a) && DistinctKeys(b)
    requires multiset(a) == multiset(b)
    ensures MakePatKey(util, Record(a)) == MakePatKey(util, Record(b))
  {
    CleanKeysPermute(util, a, b);
    var ka, kb := Sort(CleanKeys(util, a)), Sort(CleanKeys(util, b));
    SortedUnique(ka, kb);
    forall k | k in ka
      ensures Get(a, k) == Get(b, k)
    {
      assert k in multiset(CleanKeys(util, a));
      CleanKeysMembers(util, a);
      assert k in CleanKeys(util, a);
      ReadsAgree(a, b, k);
    }
    RebuildAgrees(ka, a, b);
  }

  lemma {:induction false} CleanKeysDistinct(util: Util, obj: seq<Field>)
    requires DistinctKeys(obj)
    ensures Distinct(CleanKeys(util, obj))
  {
    if obj != [] {
      var tail := obj[1..];
      assert DistinctKeys(tail) by {
        forall i, j | 0 <= i < j < |tail|
          ensures tail[i].0 != tail[j].0
        {
          assert tail[i] == obj[i + 1] && tail[j] == obj[j + 1];
        }
      }
      CleanKeysDistinct(util, tail);
      var rest := CleanKeys(util, tail);
      if !util.isMeta(obj[0].0) {
        CleanKeysMembers(util, tail);
        assert !HasKey(tail, obj[0].0) by {
          forall i | 0 <= i < |tail|
            ensures tail[i].0 != obj[0].0
          {
            assert tail[i] == obj[i + 1];
          }
        }
        assert obj[0].0 !in rest;
        var r := [obj[0].0] + rest;
        forall i, j | 0 <= i < j < |r|
          ensures r[i] != r[j]
        {
          assert r[j] == rest[j - 1];
          if i > 0 {
            assert r[i] == rest[i - 1];
          }
        }
      }
    }
  }

  /** With no key repeated, the copying loop appends one field per key, in order. */
  lemma {:induction false} RebuildAppends(ks: seq<string>, pat: seq<Field>)
    requires Distinct(ks)
    ensures Rebuild(ks, pat) == seq(|ks|, i requires 0 <= i < |ks| => (ks[i], Get(pat, ks[i])))
  {
    if ks != [] {
      var n := |ks| - 1;
      var front := ks[..n];
      assert Distinct(front) by {
        forall i, j | 0 <= i < j < |front|
          ensures front[i] != front[j]
        {
          assert front[i] == ks[i] && front[j] == ks[j];
        }
      }
      RebuildAppends(front, pat);
      var built := seq(|front|, i requires 0 <= i < |front| => (front[i], Get(pat, front[i])));
      assert !HasKey(built, ks[n]) by {
        forall i | 0 <= i < |built|
          ensures built[i].0 != ks[n]
        {
          assert built[i].0 == ks[i];
        }
      }
      SetNewKeyAppends(built, ks[n], Get(pat, ks[n]));
    }
  }

  /** A field sits at a key that survives cleaning exactly when it is a field of the pattern under a kept key. */
  lemma PairAtKeptKey(util: Util, pat: seq<Field>, ks: seq<string>, p: Field)
    requires DistinctKeys(pat)
    requires multiset(ks) == multiset(CleanKeys(util, pat))
    ensures (exists i :: 0 <= i < |ks| && p == (ks[i], Get(pat, ks[i]))) <==> p in pat && !util.isMeta(p.0)
  {
    CleanKeysMembers(util, pat);
    if exists i :: 0 <= i < |ks| && p == (ks[i], Get(pat, ks[i])) {
      var i :| 0 <= i < |ks| && p == (ks[i], Get(pat, ks[i]));
      assert ks[i] in multiset(CleanKeys(util, pat));
      assert ks[i] in CleanKeys(util, pat);
      var j :| 0 <= j < |pat| && pat[j].0 == ks[i];
      GetField(pat, pat[j]);
    }
    if p in pat && !util.isMeta(p.0) {
      assert HasKey(pat, p.0);
      assert p.0 in multiset(ks);
      var i :| 0 <= i < |ks| && ks[i] == p.0;
      GetField(pat, p);
    }
  }

  /**
   * The object handed to the serialiser holds exactly the fields of the
   * pattern that cleaning keeps, with keys in ascending order, each once.
   */
  lemma CanonicalContent(util: Util, pat: seq<Field>)
    requires DistinctKeys(pat)
    ensures var c := CanonicalFields(util, pat);
      && (forall p :: p in c <==> p in pat && !util.isMeta(p.0))
      && (forall i, j :: 0 <= i < j < |c| ==> NoLater(c[i].0, c[j].0) && c[i].0 != c[j].0)
  {
    var ks := Sort(CleanKeys(util, pat));
    CleanKeysDistinct(util, pat);
    DistinctPermute(CleanKeys(util, pat), ks);
    RebuildAppends(ks, pat);
    var c := CanonicalFields(util, pat);
    assert |c| == |ks|;
    assert forall i :: 0 <= i < |c| ==> c[i] == (ks[i], Get(pat, ks[i]));
    forall p
      ensures p in c <==> p in pat && !util.isMeta(p.0)
    {
      PairAtKeptKey(util, pat, ks, p);
    }
  }
}
