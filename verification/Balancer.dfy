/** Routes compiled against live health and the in-flight registry, and the pick
    among their members: the least in-flight cost, ties to the earlier row. */
module Balancer {
  import opened Wrappers
  import opened ConfigTypes
  import opened Fleet
  import Sorting

  /** The registry after one Add: a count at or below zero leaves the map. */
  function Bumped(n: map<string, int>, id: string, delta: int): map<string, int> {
    if CountOf(n, id) + delta > 0 then n[id := CountOf(n, id) + delta] else n - {id}
  }

  function CountOf(n: map<string, int>, id: string): int {
    if id in n then n[id] else 0
  }

  /** In-flight requests per published id. An idle id is absent. */
  class Registry {
    var n: map<string, int>

    ghost predicate Valid()
      reads this
    {
      forall id :: id in n ==> n[id] > 0
    }

    function InFlight(id: string): (c: int)
      reads this
      ensures Valid() ==> c >= 0
    {
      if id in n then n[id] else 0
    }

    constructor ()
      ensures Valid() && forall id :: InFlight(id) == 0
    {
      n := map[];
    }

    /** One connection starts (+1) or finishes (-1); a count never goes below zero
        and no other id moves. */
    method Add(id: string, delta: int)
      requires Valid()
      modifies this
      ensures Valid()
      ensures InFlight(id) == if old(InFlight(id)) + delta > 0 then old(InFlight(id)) + delta else 0
      ensures forall other :: other != id ==> InFlight(other) == old(InFlight(other))
      ensures n == Bumped(old(n), id, delta)
    {
      n := n[id := InFlight(id) + delta];
      if n[id] <= 0 {
        n := n - {id};
      }
    }
  }

  datatype Member = Member(model: string, cost: real, inFlight: int, load: real, target: Option<Target>) {
    predicate Available() {
      target.Some?
    }
  }

  predicate Serving(ms: seq<Member>) {
    exists i :: 0 <= i < |ms| && ms[i].Available()
  }

  method ServingLoop(ms: seq<Member>) returns (yes: bool)
    ensures yes == Serving(ms)
  {
    for i := 0 to |ms|
      invariant forall j :: 0 <= j < i ==> !ms[j].Available()
    {
      if ms[i].Available() {
        return true;
      }
    }
    return false;
  }

  /** b is the policy's choice: available, no available member carries less, and
      every available member before it carries strictly more. */
  ghost predicate IsPick(ms: seq<Member>, b: int) {
    && 0 <= b < |ms| && ms[b].Available()
    && (forall i :: 0 <= i < |ms| && ms[i].Available() ==> ms[b].load <= ms[i].load)
    && (forall i :: 0 <= i < b && ms[i].Available() ==> ms[b].load < ms[i].load)
  }

  lemma PickIsUnique(ms: seq<Member>, a: int, b: int)
    requires IsPick(ms, a) && IsPick(ms, b)
    ensures a == b
  {
  }

  method Pick(ms: seq<Member>) returns (best: int, ok: bool)
    ensures ok == Serving(ms)
    ensures ok ==> IsPick(ms, best)
  {
    best := -1;
    var bestLoad := 0.0;
    for i := 0 to |ms|
      invariant -1 <= best < i
      invariant best < 0 ==> forall j :: 0 <= j < i ==> !ms[j].Available()
      invariant best >= 0 ==> bestLoad == ms[best].load && IsPick(ms[..i], best)
    {
      if !ms[i].Available() {
        continue;
      }
      if best < 0 || ms[i].load < bestLoad {
        best, bestLoad := i, ms[i].load;
      }
    }
    assert ms[..|ms|] == ms;
    ok := best >= 0;
  }

  /** A configured member as the balancer sees it: the route table's target if its
      server can answer right now, and the load the registry makes it carry. */
  function Compiled(m: RouteMember, inFlight: int, table: Table, servers: Servers): Member {
    Member(m.model, m.CostOrDefault(), inFlight, m.CostOrDefault() * inFlight as real,
           if m.model in table && TargetLive(table[m.model], servers) then Some(table[m.model]) else None)
  }

  /** A member given no cost counts as one of cost 1, and a given cost counts as it is. */
  lemma UnsetCostIsOne(m: RouteMember, inFlight: int, table: Table, servers: Servers)
    ensures Compiled(m.(cost := None), inFlight, table, servers) == Compiled(m.(cost := Some(1.0)), inFlight, table, servers)
    ensures m.cost.Some? && m.cost.value > 0.0 ==> Compiled(m, inFlight, table, servers).cost == m.cost.value
  {
  }

  ghost function CompiledRoute(r: Route, regs: Registry, table: Table, servers: Servers): (ms: seq<Member>)
    reads regs
    ensures |ms| == |r.members|
    ensures forall i :: 0 <= i < |ms| ==> ms[i] == Compiled(r.members[i], regs.InFlight(r.members[i].model), table, servers)
  {
    seq(|r.members|, i requires 0 <= i < |r.members| reads regs =>
      Compiled(r.members[i], regs.InFlight(r.members[i].model), table, servers))
  }

  method Compile(r: Route, regs: Registry, table: Table, servers: Servers) returns (ms: seq<Member>)
    ensures ms == CompiledRoute(r, regs, table, servers)
  {
    ms := [];
    for i := 0 to |r.members|
      invariant |ms| == i
      invariant forall j :: 0 <= j < i ==> ms[j] == Compiled(r.members[j], regs.InFlight(r.members[j].model), table, servers)
    {
      var m := r.members[i];
      var cand := Member(m.model, m.CostOrDefault(), regs.InFlight(m.model), m.CostOrDefault() * regs.InFlight(m.model) as real, None);
      if m.model in table {
        var t := table[m.model];
        if t.key in servers && servers[t.key].up && servers[t.key].active != "" {
          cand := cand.(target := Some(t));
        }
      }
      ms := ms + [cand];
    }
  }

  /** A route serves exactly when some configured member's id is in the table and
      its server can answer: load and cost do not matter. */
  ghost predicate CanServe(r: Route, table: Table, servers: Servers) {
    exists i :: 0 <= i < |r.members| && r.members[i].model in table && TargetLive(table[r.members[i].model], servers)
  }

  lemma ServingIff(r: Route, regs: Registry, table: Table, servers: Servers)
    ensures Serving(CompiledRoute(r, regs, table, servers)) <==> CanServe(r, table, servers)
  {
    var ms := CompiledRoute(r, regs, table, servers);
    forall i | 0 <= i < |ms|
      ensures ms[i].Available() <==> r.members[i].model in table && TargetLive(table[r.members[i].model], servers)
    {
    }
  }

  /** `Resolve`: the member the policy picks on the route of that name. */
  method Resolve(cfg: Config, alias: string, regs: Registry, table: Table, servers: Servers)
    returns (member: Option<Member>)
    ensures member.Some? <==>
      RouteFor(cfg.Routes(), alias).Some? && CanServe(RouteFor(cfg.Routes(), alias).value, table, servers)
    ensures member.Some? ==>
      var ms := CompiledRoute(RouteFor(cfg.Routes(), alias).value, regs, table, servers);
      exists i :: IsPick(ms, i) && ms[i] == member.value
    ensures member.Some? ==> member.value.target.Some? && TargetLive(member.value.target.value, servers)
  {
    var r := RouteFor(cfg.Routes(), alias);
    if r.None? {
      return None;
    }
    var ms := Compile(r.value, regs, table, servers);
    ServingIff(r.value, regs, table, servers);
    var i, ok := Pick(ms);
    if !ok {
      return None;
    }
    assert ms[i] == Compiled(r.value.members[i], regs.InFlight(r.value.members[i].model), table, servers);
    assert ms == CompiledRoute(r.value, regs, table, servers) && IsPick(ms, i);
    return Some(ms[i]);
  }

  /** The aliases of serving routes, in configured order. */
  ghost function ServingAliases(rs: seq<Route>, table: Table, servers: Servers): seq<string> {
    if rs == [] then []
    else
      var rest := ServingAliases(rs[..|rs| - 1], table, servers);
      if CanServe(rs[|rs| - 1], table, servers) then rest + [rs[|rs| - 1].alias] else rest
  }

  method Aliases(cfg: Config, regs: Registry, table: Table, servers: Servers) returns (out: seq<string>)
    ensures out == Sorting.SortBy(x => x, ServingAliases(cfg.Routes(), table, servers))
    ensures Sorting.Sorted(x => x, out)
  {
    out := [];
    var rs := cfg.Routes();
    for i := 0 to |rs|
      invariant out == ServingAliases(rs[..i], table, servers)
    {
      assert rs[..i + 1][..i] == rs[..i];
      var ms := Compile(rs[i], regs, table, servers);
      ServingIff(rs[i], regs, table, servers);
      var yes := ServingLoop(ms);
      if yes {
        out := out + [rs[i].alias];
      }
    }
    assert rs[..|rs|] == rs;
    Sorting.SortBySorted(x => x, out);
    out := Sorting.SortBy(x => x, out);
  }
}
