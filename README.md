# seneca-balance-client, modelled in Dafny

This project models the decision core of the Seneca `balance` client
transport (`balance-client.js`). The plugin keeps an in-memory registry,
`target_map`. It maps a pattern key to a descriptor `{ index, targets }`:
the targets registered for that pattern, in registration order, and a
round-robin cursor. The model covers these parts:

- `make_patkey`, which turns a pattern (a string, or an object) into its key;
- `add_target` and `remove_target`, which change a key's target list;
- the default-id rule of `add_client` and `remove_client`;
- the send function built by `make_send`, which invokes the target at the
  cursor and moves the cursor on.

Modules, one per component:

- `Objects` (objects.dfy): JavaScript values. An object is its list of own
  fields in insertion order (see `Objects.Set` under "Left out" for
  array-index keys). `Get` is `obj[k]`: it gives `undefined` for a missing
  key. `Set` is `obj[k] = v`.
- `StringOrder` (string_order.dfy): the default string order of
  `Array.prototype.sort`, and a sort proved to give a sorted permutation.
- `PatKey` (patkey.dfy): `make_patkey`. The framework helpers
  `seneca.util.clean` and `seneca.util.pattern` are the two fields of a `Util`
  value. They are taken as arbitrary functions: `isMeta` picks the keys that
  `clean` strips, and `pattern` serialises a field list.
- `Registry` (registry.dfy): the registry as a value. The functions say what
  each operation leaves behind, and lemmas state the properties of each
  operation.
- `RoundRobin` (round_robin.dfy): what consecutive sends do when no add or
  remove comes between them. This covers the cyclic order, fairness, and a
  cursor that is left out of range. `SendsFollowDescriptor` ties these
  lemmas to the registry-level send that `Send` performs.
- `ClientConfig` (client_config.dfy): the default-id rule.
- `BalanceClient` (balancer.dfy): the plugin instance as a class
  `Balancer`. Its field `targetMap` is updated in place by `AddTarget`,
  `RemoveTarget`, `RemoveClient` and `Send`. Each of these is proved against
  the `Registry` functions. `FindTarget` is the search loop of
  `remove_target`.
- `Scenarios` (scenarios.dfy): the selection sequences that the repository's
  integration tests expect, replayed on the class.

The model follows the code as written:

- Registering the same id twice gives two entries.
- A removal never moves the cursor.
- A send with no target at the cursor completes with no error and no result.
  This happens when there is no descriptor, when the list is empty, and when
  the list has shrunk below the cursor. An unknown pattern and an empty one
  give the same outcome. (Keys that name an `Object.prototype` property are
  the exception; see "Left out".)
- A string pattern is used as its own key. It is not parsed. So a string such
  as `"b:1,a:2"` and the object `{a:2, b:1}` get the same key only if
  `pattern` happens to serialise the object to exactly that string.
- This code has no duplicate suppression, no cursor reset on removal, no
  broadcast ("observe") mode and no distinct "no target" error, and neither
  does the model. `RoundRobin.RemovalCanStrandCursor` shows the effect of
  having no reset: take a cursor at 1 over two targets and remove the first
  one. Consecutive sends for that key then select nothing, even though one
  target is still registered, until a target is added for that key; the
  next send then selects the newly added target.

## Model

| member | source | states |
|---|---|---|
| `StringOrder.Sort` | balance-client.js:77 | `.sort()` of the cleaned keys: the result is sorted in JavaScript's default string order and is a permutation of the input |
| `StringOrder.SortedUnique` | balance-client.js:77 | two sorted sequences with the same elements are equal, so the sorted key list does not depend on the order the keys came in |
| `PatKey.CleanKeysMembers` | balance-client.js:77 | `_.keys(seneca.util.clean(pat))` holds exactly the keys of the pattern that cleaning keeps |
| `PatKey.KeyIsFixedPoint` | balance-client.js:73-75 | a string pattern is returned unchanged as its key, so making the key of a key gives the same key (as `remove_client` does when it passes a key to `remove_target`) |
| `PatKey.KeyIgnoresFieldOrder` | balance-client.js:77-85 | two objects with the same fields, written in any order, get the same key |
| `PatKey.CanonicalContent` | balance-client.js:77-84 | the object handed to `pattern` holds exactly the pattern's fields under kept keys, with keys strictly ascending |
| `PatKey.RebuildAgrees` | balance-client.js:78-82 | the rebuilt object depends only on what the pattern reads at the sorted keys |
| `PatKey.RebuildAppends` | balance-client.js:78-82 | with no repeated key, the copying loop appends one field `(k, pat[k])` per key, in key order |
| `Objects.GetAfterSet` | balance-client.js:91 | after `config.id = v`, `config.id` reads `v` and no other field changes |
| `Objects.SetNewKeyAppends` | balance-client.js:81 | assigning a key the object lacks appends exactly one field at the end |
| `ClientConfig.DefaultIdEffect` | balance-client.js:90-92 | the client's id is its own truthy `id`. Otherwise it is `pattern(config)` of the configuration as it stood before, and no other field is changed |
| `Registry.AddTargetEffect` | balance-client.js:42-49 | `add_target` appends exactly one entry at the end of the key's list. It keeps the earlier entries and their order and the cursor. A new key starts as `{index: 0, targets: [t]}`. Other keys are unchanged. The count of entries with the new id grows by one, so duplicates are kept |
| `Registry.AddKeepsInRange` | balance-client.js:46-48 | an in-range cursor stays in range across `add_target` |
| `Registry.SpliceFirstMatch` | balance-client.js:59-67 | splicing out the position where the search loop stops removes the first entry with the id and keeps the rest in order. If no entry matches, it removes nothing |
| `Registry.WithoutMissingId` | balance-client.js:65-67 | when no entry carries the id, the list is unchanged |
| `Registry.WithoutIdCounts` | balance-client.js:59-67 | removal shortens the list by one exactly when some entry has the id. It takes out one entry with that id and no entry with any other id |
| `Registry.RemoveTargetEffect` | balance-client.js:52-68 | `remove_target` never changes the cursor or any other key. A key with no descriptor is left with a fresh `{index: 0, targets: []}`, and the call does not fail |
| `Registry.RemoveUndoesAdd` | balance-client.js:42-68 | removing by the id of an entry just added, when no earlier entry had that id, restores the key's descriptor |
| `RoundRobin.CyclicOrder` | balance-client.js:125-132 | from an in-range cursor `i` over `N` targets, the `j`-th of `n` sends invokes `targets[(i + j) % N]`. The cursor ends at `(i + n) % N`, so it stays in range |
| `RoundRobin.StuckOutOfRange` | balance-client.js:129-136 | with the cursor out of range (an empty or shrunken list), sends invoke nothing and leave the descriptor as it is |
| `RoundRobin.SendsFollowDescriptor` | balance-client.js:121-137 | `n` consecutive sends for a key through the registry, each selecting as `Send` does and leaving the registry as `Send` does, invoke exactly what `n` sends through that key's descriptor invoke; for a key with no descriptor they invoke nothing |
| `RoundRobin.CursorAfter` | balance-client.js:131 | after `n` consecutive sends from an in-range cursor `i`, the cursor is at `(i + n) % N` and the list is unchanged |
| `RoundRobin.CycleReturns` | balance-client.js:131 | after `N` consecutive sends the cursor is back where it started |
| `RoundRobin.RotationAt` | balance-client.js:129-131 | the `j`-th entry of the list rotated to start at `i` is `targets[(i + j) % N]` |
| `RoundRobin.InvokedSplit` | balance-client.js:129-131 | `a + b` sends invoke what the first `a` sends invoke, followed by what `b` more sends invoke from the state they leave |
| `RoundRobin.FullCycle` | balance-client.js:129-131 | `N` sends from cursor `i` invoke the list rotated to start at `i`, and bring the cursor back to `i` |
| `RoundRobin.Rounds` | balance-client.js:129-131 | `k * N` sends from an in-range cursor invoke the rotated list `k` times over |
| `RoundRobin.RepeatCount` | balance-client.js:129-131 | in `k` copies of a list, each entry occurs `k` times as often as in the list |
| `RoundRobin.FairShare` | balance-client.js:129-131 | fairness: from any in-range cursor, `k * N` sends invoke each entry exactly `k` times |
| `RoundRobin.RoundsFromStart` | balance-client.js:129-131 | from cursor 0, `k * N` sends invoke the targets in registration order, `k` times over |
| `RoundRobin.RemovalCanStrandCursor` | balance-client.js:52-68 | removal does not reset the cursor. A cursor of 1 over `[a, b]` becomes out of range when `a` is removed; consecutive sends for that key then select nothing, until a target `c` is added, when the next send selects `c` |
| `BalanceClient.FindTarget` | balance-client.js:59-63 | the search loop stops at the first entry whose id is `action_id`, or at the length of the list when there is none |
| `BalanceClient.Balancer.constructor` | balance-client.js:13 | a plugin instance starts with an empty `target_map` |
| `BalanceClient.Balancer.AddTarget` | balance-client.js:42-49 | the new registry is `Registry.WithTarget` of the old one, under the key of the pattern |
| `BalanceClient.Balancer.RemoveTarget` | balance-client.js:52-68 | the loop and splice leave `Registry.WithoutTarget` of the old registry: the first entry with the id is removed and the cursor is untouched |
| `BalanceClient.Balancer.AddClient` | balance-client.js:89-96 | the configuration handed to the transport has the default id and no other field changed |
| `BalanceClient.Balancer.RemoveClient` | balance-client.js:99-109 | the configuration gets the same default id as in `add_client`. The entry with that id is removed under the key of the configured pin |
| `BalanceClient.Balancer.Send` | balance-client.js:121-137 | if the descriptor exists and `targets[index]` exists, the send selects that target and sets `index := (index + 1) % targets.length`, keeping the list. Otherwise it selects nothing and changes nothing |
| `Scenarios.Alternates` | test/balance-client.test.js:21-62 | with two targets for `a:1`, three calls go to the first, the second, then the first |
| `Scenarios.NoUpstreams` | test/balance-client.test.js:260-271 | a call with no registered target selects nothing |
| `Scenarios.AddClientTarget` | test/balance-client.test.js:83-86 | adding a client for `a:1` registers one target under `a:1` whose id is the client's default id |
| `Scenarios.AddTwoClients` | test/balance-client.test.js:83-98 | adding one client, calling, adding a second and calling twice selects the first, the first, then the second, and leaves the cursor at 0 |
| `Scenarios.AddRemove` | test/balance-client.test.js:65-127 | removing a client by its configuration alone computes the same default id and removes that client. After it, calls go to the remaining client |
| `Scenarios.RemoveOtherPin` | test/balance-client.test.js:130-192 | removing a client configured for `a:5` leaves the targets and cursor of `a:1` alone, and their rotation carries on |
| `Scenarios.CustomIds` | test/balance-client.test.js:195-257 | clients with their own ids: removing by id `bar` alone removes that client |

## Left out

- Plugin plumbing is not modelled: `seneca.options`, the `seneca.add`
  registrations, `tu.make_client`, logging, and the `role:seneca,cmd:close`
  override. These are calls into the framework.
- The transport's `handle` callback, which forwards to `add_target`, is not
  modelled. Neither is the way the transport gives each action the id of its
  client configuration. The scenarios assume that the transport registers
  each client's action under its pin, with the id that `add_client` gave it.
- `this.client(msg.config)` in `add_client` is not modelled: it is a call into
  the transport. `AddClient` returns the configuration it would pass on.
- The remote call `targets[index].action.call(this, args, done)` is not
  modelled. `Send` returns the selected target instead. Callbacks that
  re-enter the balancer, and concurrency of any kind, are not modelled:
  operations run one after another.
- `seneca.util.clean` and `seneca.util.pattern` are parameters, not
  definitions. `clean` is taken to strip fields by key alone. When a
  property needs `pattern` to tell two configurations apart, it says so in a
  `requires`.
- `args.meta$.pattern` is passed to `Send` as the key string. A call without
  it is not modelled.
- Membership in `target_map` means own keys only. In the source `target_map`
  is a plain `{}`, so a key that names an `Object.prototype` property
  (`constructor`, `toString`, `__proto__`, and so on) finds the inherited
  value: `add_target` then throws at `targets.push`, `remove_target` at
  `targets.length`, and the send at `targets[index]`, instead of treating the
  key as absent as the model does.
- `PatKey.CanonicalFields`: the object handed to `pattern` keeps its keys in
  sorted order. In JavaScript, `cleanpat` lists array-index keys (`"2"`,
  `"10"`) first, in numeric order, whatever order they were assigned in, so
  for such keys the field order `pattern` sees differs from the model's.
- `Objects.Set`: a new key always goes last; JavaScript puts array-index
  keys before the others, in numeric order. Arrays are not modelled either,
  including an array of pins in `remove_client`, whose elements
  `make_patkey` would read as keys `"0"`, `"1"`, and so on.
- `PatKey.MakePatKey`: a pattern that is neither a string nor an object
  (including a missing `pin`) is taken to have no keys, as `_.keys` reports
  for such a value.
- `PatKey.KeyIgnoresFieldOrder`: it is stated only for objects whose keys are
  distinct, because every JavaScript object has distinct keys.
- `StringOrder.Sort`: it orders strings by Dafny character values, not by
  UTF-16 code units. The two orders differ only for characters beyond
  U+FFFF.
- Numbers are integers. `null` and `NaN` are not modelled. Ids are compared
  with value equality, which matches `===` on strings, numbers and booleans,
  but not on objects.
- Repository scripts with no logic of their own are not modelled:
  `tmp/a.js`, `trial/client.js`, `test/client.js` and `examples/server.js`.
  The integration tests appear only as the expected sequences in `Scenarios`.
