/** The highest-plus-one port allocator and the derived database port. */
module PortUtils {
  import opened Wrappers
  import opened Types
  import Validation

  /** Ports below this value are never considered by the allocator, and it is the first port handed out. */
  const FirstPort := 3000

  /** Offset from a tenant's port to its database port. */
  const PostgresOffset := 10000

  /** `s.id !== excludeId`; an absent `excludeId` excludes nothing. */
  predicate Considered(s: Server, excludeId: Option<string>) {
    excludeId != Some(s.id)
  }

  /** `servers.filter(s => s.id !== excludeId).map(s => s.port).filter(port => port >= 3000)`. */
  function ConsideredPorts(servers: seq<Server>, excludeId: Option<string>): seq<int> {
    if |servers| == 0 then []
    else
      (if Considered(servers[0], excludeId) && servers[0].port >= FirstPort then [servers[0].port] else [])
      + ConsideredPorts(servers[1..], excludeId)
  }

  /** The ports the allocator looks at: exactly the considered records' ports that are at least 3000. */
  lemma {:induction false} ConsideredPortsSpec(servers: seq<Server>, excludeId: Option<string>)
    ensures forall p | p in ConsideredPorts(servers, excludeId) :: p >= FirstPort
    ensures forall i | 0 <= i < |servers| && Considered(servers[i], excludeId) && servers[i].port >= FirstPort ::
      servers[i].port in ConsideredPorts(servers, excludeId)
    ensures forall p | p in ConsideredPorts(servers, excludeId) ::
      exists i | 0 <= i < |servers| :: Considered(servers[i], excludeId) && servers[i].port == p
  {
    if |servers| > 0 {
      var rest := ConsideredPorts(servers[1..], excludeId);
      ConsideredPortsSpec(servers[1..], excludeId);
      assert forall i | 1 <= i < |servers| :: servers[i] == servers[1..][i - 1];
      forall p | p in ConsideredPorts(servers, excludeId)
        ensures exists i | 0 <= i < |servers| :: Considered(servers[i], excludeId) && servers[i].port == p
      {
        if p !in rest {
          assert Considered(servers[0], excludeId) && servers[0].port == p;
        } else {
          var k :| 0 <= k < |servers[1..]| && Considered(servers[1..][k], excludeId) && servers[1..][k].port == p;
          assert servers[k + 1] == servers[1..][k];
        }
      }
    }
  }

  /** `Math.max(...ports)`. */
  function MaxOf(ports: seq<int>): (m: int)
    requires |ports| > 0
    ensures m in ports
    ensures forall p | p in ports :: p <= m
  {
    if |ports| == 1 then ports[0]
    else
      var m := MaxOf(ports[1..]);
      assert forall p | p in ports :: p == ports[0] || p in ports[1..];
      if ports[0] > m then ports[0] else m
  }

  /**
   * `allocatePort`: one above the highest considered port that is at least
   * 3000, or 3000 when there is none. The result is above every considered
   * port, so it collides with none of them.
   */
  function AllocatePort(servers: seq<Server>, excludeId: Option<string>): (p: int)
    ensures p >= FirstPort
    ensures forall i | 0 <= i < |servers| && Considered(servers[i], excludeId) :: servers[i].port < p
    ensures p == FirstPort || exists i | 0 <= i < |servers| :: Considered(servers[i], excludeId) && servers[i].port == p - 1
    ensures (forall i | 0 <= i < |servers| && Considered(servers[i], excludeId) :: servers[i].port < FirstPort) ==> p == FirstPort
  {
    ConsideredPortsSpec(servers, excludeId);
    var ports := ConsideredPorts(servers, excludeId);
    if |ports| == 0 then FirstPort else MaxOf(ports) + 1
  }

  /** `getPostgresPort`. */
  function GetPostgresPort(port: int): int {
    port + PostgresOffset
  }

  /** A freshly allocated port's database port collides with no considered tenant's database port. */
  lemma AllocatedPostgresPortFresh(servers: seq<Server>, excludeId: Option<string>)
    ensures forall i | 0 <= i < |servers| && Considered(servers[i], excludeId) ::
      GetPostgresPort(servers[i].port) != GetPostgresPort(AllocatePort(servers, excludeId))
  {
  }

  /** A record whose port is below 3000 never influences the allocation, wherever it sits. */
  lemma {:induction false} LowPortIgnored(a: seq<Server>, s: Server, b: seq<Server>, excludeId: Option<string>)
    requires s.port < FirstPort
    ensures ConsideredPorts(a + [s] + b, excludeId) == ConsideredPorts(a + b, excludeId)
    ensures AllocatePort(a + [s] + b, excludeId) == AllocatePort(a + b, excludeId)
  {
    if |a| == 0 {
      assert a + [s] + b == [s] + b;
      assert ([s] + b)[1..] == b;
      assert a + b == b;
    } else {
      LowPortIgnored(a[1..], s, b, excludeId);
      assert (a + [s] + b)[1..] == a[1..] + [s] + b;
      assert (a + b)[1..] == a[1..] + b;
      assert (a + [s] + b)[0] == a[0] && (a + b)[0] == a[0];
    }
  }

  /** Excluding an id is the same as allocating over the records without that id. */
  lemma ExcludedIgnored(servers: seq<Server>, x: string)
    ensures AllocatePort(servers, Some(x)) == AllocatePort(WithoutId(servers, x), None)
  {
    ExcludedPortsIgnored(servers, x);
  }

  lemma {:induction false} ExcludedPortsIgnored(servers: seq<Server>, x: string)
    ensures ConsideredPorts(servers, Some(x)) == ConsideredPorts(WithoutId(servers, x), None)
  {
    if |servers| > 0 {
      ExcludedPortsIgnored(servers[1..], x);
      if servers[0].id != x {
        assert WithoutId(servers, x) == [servers[0]] + WithoutId(servers[1..], x);
        ConsideredCons(servers[0], WithoutId(servers[1..], x), None);
      } else {
        assert WithoutId(servers, x) == WithoutId(servers[1..], x);
      }
    }
  }

  /** One step of `ConsideredPorts` on a record put in front. */
  lemma ConsideredCons(h: Server, t: seq<Server>, excludeId: Option<string>)
    ensures ConsideredPorts([h] + t, excludeId)
      == (if Considered(h, excludeId) && h.port >= FirstPort then [h.port] else []) + ConsideredPorts(t, excludeId)
  {
    assert ([h] + t)[1..] == t;
  }

  /** The allocator's documented examples. */
  lemma AllocateExamples(s: Server)
    ensures AllocatePort([], None) == 3000
    ensures AllocatePort([s.(id := "a", port := 3005), s.(id := "b", port := 3002)], None) == 3006
    ensures AllocatePort([s.(id := "a", port := 2999), s.(id := "b", port := 1000)], None) == 3000
    ensures AllocatePort([s.(id := "a", port := 3005), s.(id := "b", port := 3002)], Some("a")) == 3003
    ensures GetPostgresPort(3005) == 13005
  {
    var two := [s.(id := "a", port := 3005), s.(id := "b", port := 3002)];
    assert two[1..] == [two[1]] && two[1..][1..] == [];
    assert ConsideredPorts(two[1..], None) == [3002];
    assert ConsideredPorts(two, None) == [3005, 3002];
    assert ConsideredPorts(two[1..], Some("a")) == [3002];
    assert ConsideredPorts(two, Some("a")) == [3002];
    var low := [s.(id := "a", port := 2999), s.(id := "b", port := 1000)];
    assert low[1..] == [low[1]] && low[1..][1..] == [];
    assert ConsideredPorts(low[1..], None) == [];
    assert ConsideredPorts(low, None) == [];
  }

  /**
   * The database port of a tenant whose port passes validation stays a TCP
   * port exactly when the tenant port is at most 55535; every valid port
   * above that gives a database port beyond 65535.
   */
  lemma PostgresPortInRange(s: Server)
    requires Validation.PortOk(s)
    ensures GetPostgresPort(s.port) <= 65535 <==> s.port <= 55535
  {
  }
}
