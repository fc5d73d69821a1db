/**
 * The balance-client plugin instance: its registry `target_map`, the
 * operations that change it, and the send function that `make_send`
 * hands to the transport.
 */
module BalanceClient {
  import opened Wrappers
  import opened Objects
  import opened PatKey
  import opened Registry
  import opened ClientConfig

  /**
   * The `for` loop of `remove_target`: the position of the first entry
   * whose id is `actionId`, or the length of the list when none is.
   */
  method FindTarget(targets: seq<Target>, actionId: Value) returns (i: nat)
    ensures i <= |targets|
    ensures forall j :: 0 <= j < i ==> targets[j].id != actionId
    ensures i < |targets| ==> targets[i].id == actionId
  {
    i := 0;
    while i < |targets|
      invariant i <= |targets|
      invariant forall j :: 0 <= j < i ==> targets[j].id != actionId
    {
      if actionId == targets[i].id {
        break;
      }
      i := i + 1;
    }
  }

  class Balancer {
    /** The framework's `clean` and `pattern` helpers. */
    const util: Util
    var targetMap: TargetMap

    /** A new plugin instance starts with `target_map = {}`. */
    constructor (util: Util)
      ensures this.util == util
      ensures targetMap == map[]
    {
      this.util := util;
      targetMap := map[];
    }

    /** `add_target(pat, action)`. */
    method AddTarget(pat: Value, action: Action)
      modifies this
      ensures targetMap == WithTarget(old(targetMap), MakePatKey(util, pat), Target(action, action.id))
    {
      var patkey := MakePatKey(util, pat);
      var targetdesc := DescOf(targetMap, patkey);
      targetMap := targetMap[patkey := Desc(targetdesc.index, targetdesc.targets + [Target(action, action.id)])];
    }

    /** `remove_target(pat, action_id)`. */
    method RemoveTarget(pat: Value, actionId: Value)
      modifies this
      ensures targetMap == WithoutTarget(old(targetMap), MakePatKey(util, pat), actionId)
    {
      var patkey := MakePatKey(util, pat);
      var targetdesc := DescOf(targetMap, patkey);
      var targets := targetdesc.targets;
      var i := FindTarget(targets, actionId);
      SpliceFirstMatch(targets, actionId, i);
      if i < |targets| {
        targets := targets[..i] + targets[i + 1..];
      }
      targetMap := targetMap[patkey := Desc(targetdesc.index, targets)];
    }

    /**
     * `add_client`: defaults the id, then hands the configuration to the
     * transport, which is not part of this model; the registry is untouched.
     */
    method AddClient(config: seq<Field>) returns (updated: seq<Field>)
      ensures Get(updated, "id") == ClientId(util, config)
      ensures forall k :: k != "id" ==> Get(updated, k) == Get(config, k)
    {
      updated := config;
      if !Truthy(Get(updated, "id")) {
        updated := Set(updated, "id", Text(util.pattern(updated)));
      }
      DefaultIdEffect(util, config);
    }

    /**
     * `remove_client`: defaults the id the same way as `add_client`, then
     * removes the entry with that id under the key of the configured pin.
     */
    method RemoveClient(config: seq<Field>) returns (updated: seq<Field>)
      modifies this
      ensures updated == WithDefaultId(util, config)
      ensures targetMap == WithoutTarget(old(targetMap), MakePatKey(util, Get(config, "pin")), ClientId(util, config))
    {
      updated := config;
      if !Truthy(Get(updated, "id")) {
        updated := Set(updated, "id", Text(util.pattern(updated)));
      }
      DefaultIdEffect(util, config);
      var patkey := MakePatKey(util, Get(updated, "pin"));
      RemoveTarget(Text(patkey), Get(updated, "id"));
    }

    /**
     * The send function: for the call's pattern key, invoke the target at
     * the cursor and move the cursor on; when there is no descriptor or no
     * target at the cursor, complete with no error and no result.
     */
    method Send(patkey: string) returns (selected: Option<Target>)
      modifies this
      ensures selected == Selected(old(targetMap), patkey)
      ensures targetMap == AfterSend(old(targetMap), patkey)
      ensures selected.Some? <==> patkey in old(targetMap) && InRange(old(targetMap)[patkey])
      ensures selected.Some? ==> targetMap == old(targetMap)[patkey := Desc((old(targetMap)[patkey].index + 1) % |old(targetMap)[patkey].targets|, old(targetMap)[patkey].targets)]
      ensures selected.None? ==> targetMap == old(targetMap)
    {
      selected := None;
      if patkey in targetMap {
        var targetdesc := targetMap[patkey];
        var targets := targetdesc.targets;
        var index := targetdesc.index;
        if index < |targets| {
          selected := Some(targets[index]);
          targetMap := targetMap[patkey := Desc((index + 1) % |targets|, targets)];
        }
      }
    }
  }
}
