/**
 * The selection sequences the repository's integration tests expect,
 * replayed on the model. Target invocation is the selected target; the
 * transport registers each client's action under its configured pin with
 * the id `add_client` gave it.
 */
module Scenarios {
  import opened Wrappers
  import opened Objects
  import opened PatKey
  import opened Registry
  import opened ClientConfig
  import opened BalanceClient

  /** The configuration of the client listening on `port` for `a:1`. */
  function PortConfig(port: int): seq<Field>
  {
    [("port", Number(port)), ("pin", Text("a:1"))]
  }

  /** Two clients registered for `a:1`: three calls alternate between them, starting with the first. */
  method Alternates(util: Util, a0: Action, a1: Action) returns (picks: seq<Option<Target>>)
    ensures picks == [Some(Target(a0, a0.id)), Some(Target(a1, a1.id)), Some(Target(a0, a0.id))]
  {
    var b := new Balancer(util);
    b.AddTarget(Text("a:1"), a0);
    b.AddTarget(Text("a:1"), a1);
    var p0 := b.Send("a:1");
    var p1 := b.Send("a:1");
    var p2 := b.Send("a:1");
    picks := [p0, p1, p2];
  }

  /** A call with no target registered completes without selecting anything. */
  method NoUpstreams(util: Util) returns (pick: Option<Target>)
    ensures pick == None
  {
    var b := new Balancer(util);
    pick := b.Send("a:1");
  }

  /**
   * A client is added for `a:1` and the transport registers its action
   * under the configured pin, with the id `add_client` gave it.
   */
  method AddClientTarget(b: Balancer, c: seq<Field>, h: nat)
    requires MakePatKey(b.util, Get(c, "pin")) == "a:1"
    modifies b
    ensures b.targetMap == WithTarget(old(b.targetMap), "a:1", Target(Action(h, ClientId(b.util, c)), ClientId(b.util, c)))
  {
    var d := b.AddClient(c);
    assert Get(d, "pin") == Get(c, "pin");
    b.AddTarget(Get(d, "pin"), Action(h, Get(d, "id")));
  }

  /**
   * The opening of the add/remove tests: one client is added and called,
   * then a second is added and called twice. The calls go to the first,
   * the first, then the second; the cursor is back at 0.
   */
  method AddTwoClients(b: Balancer, c0: seq<Field>, c1: seq<Field>, h0: nat, h1: nat)
    returns (p0: Option<Target>, p1: Option<Target>, p2: Option<Target>)
    requires b.targetMap == map[]
    requires MakePatKey(b.util, Get(c0, "pin")) == "a:1" && MakePatKey(b.util, Get(c1, "pin")) == "a:1"
    modifies b
    ensures var t0 := Target(Action(h0, ClientId(b.util, c0)), ClientId(b.util, c0));
      var t1 := Target(Action(h1, ClientId(b.util, c1)), ClientId(b.util, c1));
      && p0 == Some(t0) && p1 == Some(t0) && p2 == Some(t1)
      && b.targetMap == map["a:1" := Desc(0, [t0, t1])]
  {
    ghost var id0, id1 := ClientId(b.util, c0), ClientId(b.util, c1);
    ghost var t0, t1 := Target(Action(h0, id0), id0), Target(Action(h1, id1), id1);
    AddClientTarget(b, c0, h0);
    assert [] + [t0] == [t0];
    assert b.targetMap == map["a:1" := Desc(0, [t0])];
    p0 := b.Send("a:1");
    AddClientTarget(b, c1, h1);
    assert [t0] + [t1] == [t0, t1];
    assert b.targetMap == map["a:1" := Desc(0, [t0, t1])];
    p1 := b.Send("a:1");
    p2 := b.Send("a:1");
  }

  /** What `add_client` makes of the two configurations: distinct ids, and the pin `a:1`. */
  lemma PortConfigFacts(util: Util)
    requires util.pattern(PortConfig(44440)) != util.pattern(PortConfig(44441))
    ensures ClientId(util, PortConfig(44440)) != ClientId(util, PortConfig(44441))
    ensures MakePatKey(util, Get(PortConfig(44440), "pin")) == "a:1"
    ensures MakePatKey(util, Get(PortConfig(44441), "pin")) == "a:1"
  {
    assert Get(PortConfig(44440), "id") == Undefined && Get(PortConfig(44441), "id") == Undefined;
    assert Get(PortConfig(44440), "pin") == Text("a:1") && Get(PortConfig(44441), "pin") == Text("a:1");
    DefaultIdEffect(util, PortConfig(44440));
    DefaultIdEffect(util, PortConfig(44441));
  }

  /**
   * Clients added and removed by configuration alone: the removal computes
   * the same default id as the addition and takes out the second client.
   */
  method AddRemove(util: Util, h0: nat, h1: nat) returns (picks: seq<Option<Target>>)
    requires util.pattern(PortConfig(44440)) != util.pattern(PortConfig(44441))
    ensures var t0 := Target(Action(h0, ClientId(util, PortConfig(44440))), ClientId(util, PortConfig(44440)));
      var t1 := Target(Action(h1, ClientId(util, PortConfig(44441))), ClientId(util, PortConfig(44441)));
      picks == [Some(t0), Some(t0), Some(t1), Some(t0), Some(t0)]
  {
    PortConfigFacts(util);
    ghost var id0, id1 := ClientId(util, PortConfig(44440)), ClientId(util, PortConfig(44441));
    ghost var t0, t1 := Target(Action(h0, id0), id0), Target(Action(h1, id1), id1);
    var b := new Balancer(util);
    var p0, p1, p2 := AddTwoClients(b, PortConfig(44440), PortConfig(44441), h0, h1);
    var _ := b.RemoveClient(PortConfig(44441));
    assert WithoutId([t0, t1], id1) == [t0];
    assert b.targetMap == map["a:1" := Desc(0, [t0])];
    var p3 := b.Send("a:1");
    var p4 := b.Send("a:1");
    picks := [p0, p1, p2, p3, p4];
  }

  /**
   * Removing a client configured for another pin (`a:5`) leaves the
   * targets of `a:1` and their cursor alone: the rotation carries on.
   */
  method RemoveOtherPin(util: Util, h0: nat, h1: nat) returns (picks: seq<Option<Target>>)
    ensures var t0 := Target(Action(h0, ClientId(util, PortConfig(44440))), ClientId(util, PortConfig(44440)));
      var t1 := Target(Action(h1, ClientId(util, PortConfig(44441))), ClientId(util, PortConfig(44441)));
      picks == [Some(t0), Some(t0), Some(t1), Some(t0), Some(t1)]
  {
    var other: seq<Field> := [("port", Number(44440)), ("pin", Text("a:5"))];
    assert Get(PortConfig(44440), "pin") == Text("a:1") && Get(PortConfig(44441), "pin") == Text("a:1");
    assert Get(other, "pin") == Text("a:5");
    ghost var id0, id1 := ClientId(util, PortConfig(44440)), ClientId(util, PortConfig(44441));
    ghost var t0, t1 := Target(Action(h0, id0), id0), Target(Action(h1, id1), id1);
    var b := new Balancer(util);
    var p0, p1, p2 := AddTwoClients(b, PortConfig(44440), PortConfig(44441), h0, h1);
    var _ := b.RemoveClient(other);
    assert b.targetMap == map["a:1" := Desc(0, [t0, t1]), "a:5" := Fresh];
    var p3 := b.Send("a:1");
    var p4 := b.Send("a:1");
    picks := [p0, p1, p2, p3, p4];
  }

  /** The configuration of a client for `a:1` that carries its own id. */
  function IdConfig(port: int, id: string): seq<Field>
  {
    [("port", Number(port)), ("pin", Text("a:1")), ("id", Text(id))]
  }

  /** The removal request of the test: an id and a pin, nothing else. */
  function RemoveById(id: string): seq<Field>
  {
    [("id", Text(id)), ("pin", Text("a:1"))]
  }

  lemma IdConfigFacts(util: Util, port: int, id: string)
    requires id != ""
    ensures ClientId(util, IdConfig(port, id)) == Text(id)
    ensures ClientId(util, RemoveById(id)) == Text(id)
    ensures MakePatKey(util, Get(IdConfig(port, id), "pin")) == "a:1"
    ensures MakePatKey(util, Get(RemoveById(id), "pin")) == "a:1"
  {
    var c := IdConfig(port, id);
    var c1 := c[1..];
    var c2 := c1[1..];
    assert c1 == [("pin", Text("a:1")), ("id", Text(id))];
    assert c2 == [("id", Text(id))];
    assert Get(c2, "id") == Text(id);
    assert Get(c1, "id") == Get(c2, "id");
    assert Get(c, "id") == Get(c1, "id");
    assert Get(c, "pin") == Get(c1, "pin") == Text("a:1");
    assert Get(RemoveById(id), "id") == Text(id) && Get(RemoveById(id), "pin") == Text("a:1");
    DefaultIdEffect(util, IdConfig(port, id));
  }

  /** Clients with ids of their own: removing by the id `bar` alone takes out that client. */
  method CustomIds(util: Util, h0: nat, h1: nat) returns (picks: seq<Option<Target>>)
    ensures var t0 := Target(Action(h0, Text("foo")), Text("foo"));
      var t1 := Target(Action(h1, Text("bar")), Text("bar"));
      picks == [Some(t0), Some(t0), Some(t1), Some(t0), Some(t0)]
  {
    IdConfigFacts(util, 44440, "foo");
    IdConfigFacts(util, 44441, "bar");
    ghost var t0, t1 := Target(Action(h0, Text("foo")), Text("foo")), Target(Action(h1, Text("bar")), Text("bar"));
    var b := new Balancer(util);
    var p0, p1, p2 := AddTwoClients(b, IdConfig(44440, "foo"), IdConfig(44441, "bar"), h0, h1);
    var _ := b.RemoveClient(RemoveById("bar"));
    assert WithoutId([t0, t1], Text("bar")) == [t0];
    assert b.targetMap == map["a:1" := Desc(0, [t0])];
    var p3 := b.Send("a:1");
    var p4 := b.Send("a:1");
    picks := [p0, p1, p2, p3, p4];
  }
}
