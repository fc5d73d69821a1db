/**
 * What consecutive sends through one descriptor do when no target is added
 * or removed between them: the cyclic, fair order of the round-robin
 * cursor `index = (index + 1) % targets.length`.
 */
module RoundRobin {
  import opened Registry

  /** The target a send selected, as a list of zero or one invocation. */
  function Picked(o: Wrappers.Option<Target>): seq<Target>
  {
    match o
    case Some(t) => [t]
    case None => []
  }

  /** The targets invoked by `n` consecutive sends through `d`, in order. */
  function Invoked(d: Desc, n: nat): seq<Target>
    decreases n
  {
    if n == 0 then []
    else (if InRange(d) then [d.targets[d.index]] else []) + Invoked(Advance(d), n - 1)
  }

  /** The targets invoked by `n` consecutive sends for `key` through the whole registry, as `Send` performs them. */
  function SendsSelect(m: TargetMap, key: string, n: nat): seq<Target>
    decreases n
  {
    if n == 0 then [] else Picked(Selected(m, key)) + SendsSelect(AfterSend(m, key), key, n - 1)
  }

  /**
   * Consecutive sends through the registry invoke what consecutive sends
   * through the key's descriptor invoke; a key without a descriptor invokes
   * nothing. This ties the lemmas below to `Send`'s contract.
   */
  lemma {:induction false} SendsFollowDescriptor(m: TargetMap, key: string, n: nat)
    ensures key in m ==> SendsSelect(m, key, n) == Invoked(m[key], n)
    ensures key !in m ==> SendsSelect(m, key, n) == []
    decreases n
  {
    if n > 0 {
      SendsFollowDescriptor(AfterSend(m, key), key, n - 1);
      if key in m {
        assert AfterSend(m, key)[key] == Advance(m[key]);
      }
    }
  }

  /** The descriptor after `n` consecutive sends. */
  function AdvanceN(d: Desc, n: nat): Desc
    decreases n
  {
    if n == 0 then d else AdvanceN(Advance(d), n - 1)
  }

  /** `k` copies of `ts`, one after the other. */
  function Repeat(ts: seq<Target>, k: nat): seq<Target>
  {
    if k == 0 then [] else ts + Repeat(ts, k - 1)
  }

  lemma {:induction false} MulSign(a: int, n: int)
    requires n > 0
    ensures a >= 1 ==> a * n >= n
    ensures a <= -1 ==> a * n <= -n
    decreases if a < 0 then -a else a
  {
    if a > 1 {
      MulSign(a - 1, n);
      assert a * n == (a - 1) * n + n;
    } else if a < -1 {
      MulSign(a + 1, n);
      assert a * n == (a + 1) * n - n;
    }
  }

  lemma DivModUnique(y: int, n: int, q: int, r: int)
    requires n > 0 && 0 <= r < n && y == q * n + r
    ensures y % n == r
  {
    var q', r' := y / n, y % n;
    assert y == q' * n + r';
    assert (q - q') * n == r' - r;
    MulSign(q - q', n);
  }

  lemma ModAdd(x: nat, j: nat, n: nat)
    requires n > 0
    ensures (x % n + j) % n == (x + j) % n
  {
    var q, r := x / n, x % n;
    var q2, r2 := (r + j) / n, (r + j) % n;
    assert x + j == (q + q2) * n + r2;
    DivModUnique(x + j, n, q + q2, r2);
  }

  /**
   * From an in-range cursor `i` over `N` targets, the `j`-th of `n`
   * consecutive sends invokes `targets[(i + j) % N]`, and the cursor ends at
   * `(i + n) % N`, so it never leaves the range.
   */
  lemma {:induction false} CyclicOrder(d: Desc, n: nat)
    requires InRange(d)
    ensures |Invoked(d, n)| == n
    ensures forall j :: 0 <= j < n ==> Invoked(d, n)[j] == d.targets[(d.index + j) % |d.targets|]
    ensures AdvanceN(d, n) == Desc((d.index + n) % |d.targets|, d.targets)
    ensures InRange(AdvanceN(d, n))
    decreases n
  {
    var N := |d.targets|;
    if n == 0 {
      DivModUnique(d.index, N, 0, d.index);
    } else {
      var d' := Advance(d);
      CyclicOrder(d', n - 1);
      var rest := Invoked(d', n - 1);
      assert Invoked(d, n) == [d.targets[d.index]] + rest;
      DivModUnique(d.index, N, 0, d.index);
      forall j | 0 < j < n
        ensures Invoked(d, n)[j] == d.targets[(d.index + j) % N]
      {
        ModAdd(d.index + 1, j - 1, N);
      }
      ModAdd(d.index + 1, n - 1, N);
    }
  }

  /** Sends never invoke anything through a descriptor whose cursor is out of range, and never move it. */
  lemma {:induction false} StuckOutOfRange(d: Desc, n: nat)
    requires !InRange(d)
    ensures Invoked(d, n) == [] && AdvanceN(d, n) == d
  {
    if n > 0 {
      StuckOutOfRange(d, n - 1);
    }
  }

  lemma {:induction false} InvokedSplit(d: Desc, a: nat, b: nat)
    ensures Invoked(d, a + b) == Invoked(d, a) + Invoked(AdvanceN(d, a), b)
    decreases a
  {
    if a == 0 {
      assert Invoked(d, 0) + Invoked(d, b) == Invoked(d, b);
    } else {
      var d', p := Advance(d), if InRange(d) then [d.targets[d.index]] else [];
      InvokedSplit(d', a - 1, b);
      var x, y := Invoked(d', a - 1), Invoked(AdvanceN(d', a - 1), b);
      assert Invoked(d, a + b) == p + (x + y);
      assert p + (x + y) == (p + x) + y;
    }
  }

  /** `N` sends from cursor `i` invoke the list rotated to start at `i`, and bring the cursor back to `i`. */
  lemma FullCycle(d: Desc)
    requires InRange(d)
    ensures Invoked(d, |d.targets|) == d.targets[d.index..] + d.targets[..d.index]
    ensures AdvanceN(d, |d.targets|) == d
  {
    var N, i, ts := |d.targets|, d.index, d.targets;
    CyclicOrder(d, N);
    CycleReturns(d);
    var inv, rot := Invoked(d, N), ts[i..] + ts[..i];
    assert |inv| == N == |rot|;
    forall j | 0 <= j < N
      ensures inv[j] == rot[j]
    {
      RotationAt(ts, i, j);
    }
    assert inv == rot;
  }

  /** After `N` sends the cursor is back where it started. */
  lemma CycleReturns(d: Desc)
    requires InRange(d)
    ensures AdvanceN(d, |d.targets|) == d
  {
    var N := |d.targets|;
    CursorAfter(d, N);
    DivModUnique(d.index + N, N, 1, d.index);
  }

  /** After `n` consecutive sends from an in-range cursor `i`, the cursor is at `(i + n) % N` and the list is unchanged. */
  lemma {:induction false} CursorAfter(d: Desc, n: nat)
    requires InRange(d)
    ensures AdvanceN(d, n) == Desc((d.index + n) % |d.targets|, d.targets)
    decreases n
  {
    var N := |d.targets|;
    DivModUnique(d.index, N, 0, d.index);
    if n > 0 {
      CursorAfter(Advance(d), n - 1);
      ModAdd(d.index + 1, n - 1, N);
    }
  }

  /** The `j`-th entry of the list rotated to start at `i` is `ts[(i + j) % N]`. */
  lemma RotationAt(ts: seq<Target>, i: nat, j: nat)
    requires i < |ts| && j < |ts|
    ensures (ts[i..] + ts[..i])[j] == ts[(i + j) % |ts|]
  {
    var N := |ts|;
    if i + j < N {
      DivModUnique(i + j, N, 0, i + j);
    } else {
      DivModUnique(i + j, N, 1, i + j - N);
    }
  }

  /** The list rotated to start at the cursor: the order one full cycle of sends invokes. */
  function Rotation(d: Desc): seq<Target>
    requires d.index <= |d.targets|
  {
    d.targets[d.index..] + d.targets[..d.index]
  }

  /** `k * N` consecutive sends from an in-range cursor invoke the rotated list `k` times over. */
  lemma {:induction false} Rounds(d: Desc, k: nat)
    requires InRange(d)
    ensures Invoked(d, k * |d.targets|) == Repeat(Rotation(d), k)
  {
    var N := |d.targets|;
    if k > 0 {
      Rounds(d, k - 1);
      FullCycle(d);
      assert k * N == N + (k - 1) * N;
      InvokedSplit(d, N, (k - 1) * N);
    }
  }

  lemma {:induction false} RepeatCount(s: seq<Target>, k: nat, t: Target)
    ensures multiset(Repeat(s, k))[t] == k * multiset(s)[t]
  {
    if k > 0 {
      RepeatCount(s, k - 1, t);
      var c := multiset(s)[t];
      assert k * c == c + (k - 1) * c;
    }
  }

  /**
   * Fairness: from any in-range cursor, `k * N` consecutive sends over `N`
   * targets invoke each entry of the list exactly `k` times.
   */
  lemma FairShare(d: Desc, k: nat, t: Target)
    requires InRange(d)
    ensures multiset(Invoked(d, k * |d.targets|))[t] == k * multiset(d.targets)[t]
  {
    Rounds(d, k);
    RepeatCount(Rotation(d), k, t);
    var ts, i := d.targets, d.index;
    assert ts == ts[..i] + ts[i..];
    assert multiset(Rotation(d)) == multiset(ts);
  }

  /**
   * From a fresh cursor, `k * N` consecutive sends invoke the targets in
   * registration order, cycling `k` times.
   */
  lemma RoundsFromStart(ts: seq<Target>, k: nat)
    requires |ts| > 0
    ensures Invoked(Desc(0, ts), k * |ts|) == Repeat(ts, k)
  {
    Rounds(Desc(0, ts), k);
    assert ts[0..] + ts[..0] == ts;
  }

  /**
   * The cursor is not reset on removal: with cursor 1 over `[a, b]`,
   * removing `a` leaves `[b]` with cursor 1, and consecutive sends for that
   * key then complete empty although `b` is registered, until a target `c`
   * is added: the next send selects `c`, not `b`.
   */
  lemma RemovalCanStrandCursor(key: string, a: Target, b: Target, c: Target)
    requires a.id != b.id
    ensures var m := WithoutTarget(map[key := Desc(1, [a, b])], key, a.id);
      && m[key] == Desc(1, [b])
      && Selected(m, key) == Wrappers.None
      && AfterSend(m, key) == m
      && (forall n: nat :: SendsSelect(m, key, n) == [])
      && Selected(WithTarget(m, key, c), key) == Wrappers.Some(c)
  {
    var m := WithoutTarget(map[key := Desc(1, [a, b])], key, a.id);
    assert m[key] == Desc(1, [b]);
    forall n: nat
      ensures SendsSelect(m, key, n) == []
    {
      SendsFollowDescriptor(m, key, n);
      StuckOutOfRange(m[key], n);
    }
    assert WithTarget(m, key, c)[key] == Desc(1, [b, c]);
  }
}
