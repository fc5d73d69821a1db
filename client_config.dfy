/**
 * The id rule shared by `add_client` and `remove_client`: a client whose
 * configuration has no (truthy) `id` is given the serialised
 * configuration as its id.
 */
module ClientConfig {
  import opened Objects
  import opened PatKey

  /** The configuration after `if (!config.id) config.id = util.pattern(config)`. */
  function WithDefaultId(util: Util, config: seq<Field>): seq<Field>
  {
    if Truthy(Get(config, "id")) then config
    else Set(config, "id", Text(util.pattern(config)))
  }

  /** The id a client goes by: its own when truthy, otherwise the serialisation of its configuration. */
  function ClientId(util: Util, config: seq<Field>): Value
  {
    Get(WithDefaultId(util, config), "id")
  }

  /**
   * Defaulting keeps a truthy id, otherwise sets the id to the serialised
   * configuration as it stood before; no other field reads differently.
   */
  lemma DefaultIdEffect(util: Util, config: seq<Field>)
    ensures ClientId(util, config) ==
      if Truthy(Get(config, "id")) then Get(config, "id") else Text(util.pattern(config))
    ensures forall k :: k != "id" ==> Get(WithDefaultId(util, config), k) == Get(config, k)
  {
    forall k
      ensures Get(WithDefaultId(util, config), k) == if k == "id" && !Truthy(Get(config, "id")) then Text(util.pattern(config)) else Get(config, k)
    {
      GetAfterSet(config, "id", Text(util.pattern(config)), k);
    }
  }
}
