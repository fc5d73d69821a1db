/**
 * The balancer's registry, `target_map`: for each pattern key, a descriptor
 * holding the targets registered for it, in registration order, and the
 * round-robin cursor. These functions say what each operation of the
 * balancer leaves behind; the `Balancer` class performs them in place.
 */
module Registry {
  import opened Wrappers
  import opened Objects

  /** A client action handed over by the transport: an opaque handle for the remote call, and the id it carries. */
  datatype Action = Action(handle: nat, id: Value)

  /** An entry of a descriptor's list: `{ action: action, id: action.id }`. */
  datatype Target = Target(action: Action, id: Value)

  /** `{ index, targets }`. */
  datatype Desc = Desc(index: nat, targets: seq<Target>)

  type TargetMap = map<string, Desc>

  /** The descriptor a key starts with: `{ index: 0, targets: [] }`. */
  const Fresh := Desc(0, [])

  /** `target_map[patkey] || { index: 0, targets: [] }`. */
  function DescOf(m: TargetMap, key: string): Desc
  {
    if key in m then m[key] else Fresh
  }

  /** The registry after `add_target` appends `t` under `key`. */
  function WithTarget(m: TargetMap, key: string, t: Target): TargetMap
  {
    var d := DescOf(m, key);
    m[key := Desc(d.index, d.targets + [t])]
  }

  /** The list without its first entry whose id is `id`; the list itself when none has it. */
  function WithoutId(ts: seq<Target>, id: Value): seq<Target>
  {
    if ts == [] then []
    else if ts[0].id == id then ts[1..]
    else [ts[0]] + WithoutId(ts[1..], id)
  }

  /** The registry after `remove_target` removes the first entry with `id` under `key`. */
  function WithoutTarget(m: TargetMap, key: string, id: Value): TargetMap
  {
    var d := DescOf(m, key);
    m[key := Desc(d.index, WithoutId(d.targets, id))]
  }

  /** How many entries of the list carry `id`. */
  function CountId(ts: seq<Target>, id: Value): nat
  {
    if ts == [] then 0
    else (if ts[0].id == id then 1 else 0) + CountId(ts[1..], id)
  }

  /** `targets[index]` exists. */
  predicate InRange(d: Desc)
  {
    d.index < |d.targets|
  }

  /** The target a send through this descriptor invokes, if any. */
  function Current(d: Desc): Option<Target>
  {
    if InRange(d) then Some(d.targets[d.index]) else None
  }

  /** The descriptor after a send: the cursor moves on, modulo the list length, only when a target was invoked. */
  function Advance(d: Desc): Desc
  {
    if InRange(d) then Desc((d.index + 1) % |d.targets|, d.targets) else d
  }

  /** The target a send for `key` invokes. */
  function Selected(m: TargetMap, key: string): Option<Target>
  {
    if key in m then Current(m[key]) else None
  }

  /** The registry after a send for `key`. */
  function AfterSend(m: TargetMap, key: string): TargetMap
  {
    if key in m && InRange(m[key]) then m[key := Advance(m[key])] else m
  }

  lemma {:induction false} CountAppend(ts: seq<Target>, t: Target, id: Value)
    ensures CountId(ts + [t], id) == CountId(ts, id) + (if t.id == id then 1 else 0)
  {
    if ts != [] {
      CountAppend(ts[1..], t, id);
      assert (ts + [t])[1..] == ts[1..] + [t];
    }
  }

  /**
   * `add_target` appends one entry at the end of the key's list and keeps
   * the rest, its order and the cursor; a key seen for the first time
   * starts from `{ index: 0, targets: [] }`; no other key changes. Nothing
   * suppresses duplicates: the list holds one more entry with the new id.
   */
  lemma AddTargetEffect(m: TargetMap, key: string, t: Target)
    ensures var r := WithTarget(m, key, t);
      && r.Keys == m.Keys + {key}
      && r[key].targets == DescOf(m, key).targets + [t]
      && r[key].index == DescOf(m, key).index
      && (key !in m ==> r[key] == Desc(0, [t]))
      && (forall k :: k in m && k != key ==> r[k] == m[k])
      && CountId(r[key].targets, t.id) == CountId(DescOf(m, key).targets, t.id) + 1
  {
    CountAppend(DescOf(m, key).targets, t, t.id);
  }

  /** An in-range cursor stays in range when a target is added. */
  lemma AddKeepsInRange(m: TargetMap, key: string, t: Target)
    requires InRange(DescOf(m, key))
    ensures InRange(WithTarget(m, key, t)[key])
  {
  }

  /**
   * The removal loop of `remove_target`: when `i` is the position of the
   * first entry with `id` (or the length of the list, when none has it),
   * splicing it out is removing the first entry with `id`.
   */
  lemma {:induction false} SpliceFirstMatch(ts: seq<Target>, id: Value, i: nat)
    requires i <= |ts|
    requires forall j :: 0 <= j < i ==> ts[j].id != id
    requires i < |ts| ==> ts[i].id == id
    ensures WithoutId(ts, id) == if i < |ts| then ts[..i] + ts[i + 1..] else ts
  {
    if ts != [] && i > 0 {
      SpliceFirstMatch(ts[1..], id, i - 1);
      if i < |ts| {
        assert ts[..i] + ts[i + 1..] == [ts[0]] + (ts[1..][..i - 1] + ts[1..][i..]);
      } else {
        assert ts == [ts[0]] + ts[1..];
      }
    }
  }

  /** Without a matching entry, removal leaves the list as it is. */
  lemma {:induction false} WithoutMissingId(ts: seq<Target>, id: Value)
    requires CountId(ts, id) == 0
    ensures WithoutId(ts, id) == ts
  {
    if ts != [] {
      WithoutMissingId(ts[1..], id);
      assert ts == [ts[0]] + ts[1..];
    }
  }

  /** Removal takes out one entry with `id` when there is one, and no entry with any other id. */
  lemma {:induction false} WithoutIdCounts(ts: seq<Target>, id: Value, other: Value)
    ensures |WithoutId(ts, id)| == if CountId(ts, id) > 0 then |ts| - 1 else |ts|
    ensures CountId(WithoutId(ts, id), other) ==
      if other == id && CountId(ts, id) > 0 then CountId(ts, other) - 1 else CountId(ts, other)
  {
    if ts != [] && ts[0].id != id {
      WithoutIdCounts(ts[1..], id, other);
      assert ([ts[0]] + WithoutId(ts[1..], id))[1..] == WithoutId(ts[1..], id);
    }
  }

  /**
   * `remove_target` touches only the key's own list and never its cursor;
   * a key with no descriptor gets a fresh empty one and the call succeeds.
   */
  lemma RemoveTargetEffect(m: TargetMap, key: string, id: Value)
    ensures var r := WithoutTarget(m, key, id);
      && r.Keys == m.Keys + {key}
      && r[key].index == DescOf(m, key).index
      && (key !in m ==> r[key] == Fresh)
      && (CountId(DescOf(m, key).targets, id) == 0 ==> r[key] == DescOf(m, key))
      && (forall k :: k in m && k != key ==> r[k] == m[k])
  {
    if CountId(DescOf(m, key).targets, id) == 0 {
      WithoutMissingId(DescOf(m, key).targets, id);
    }
  }

  /** Removing by the id of an entry just added, when no earlier entry had it, restores the list. */
  lemma {:induction false} WithoutLastAdded(ts: seq<Target>, t: Target)
    requires CountId(ts, t.id) == 0
    ensures WithoutId(ts + [t], t.id) == ts
  {
    if ts != [] {
      WithoutLastAdded(ts[1..], t);
      assert (ts + [t])[1..] == ts[1..] + [t];
      assert ts == [ts[0]] + ts[1..];
    }
  }

  /** `remove_target` undoes `add_target` of a fresh id: the key's descriptor is again what it was. */
  lemma RemoveUndoesAdd(m: TargetMap, key: string, t: Target)
    requires CountId(DescOf(m, key).targets, t.id) == 0
    ensures WithoutTarget(WithTarget(m, key, t), key, t.id) == m[key := DescOf(m, key)]
  {
    WithoutLastAdded(DescOf(m, key).targets, t);
  }
}
