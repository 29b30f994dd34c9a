/** A configuration held and edited in place: sorted where it stands, and printed by
    loops that append entry after entry. */
module Printer {
  import opened Wrappers
  import opened ConfigTypes
  import opened Sorting
  import opened Document
  import opened Rules
  import opened Canonical
  import opened CanonicalForm

  class Draft {
    var hosts: seq<Host>
    var prices: Option<Prices>
    var loadBalancer: Option<seq<Route>>

    constructor (c: Config)
      ensures View() == c
    {
      hosts, prices, loadBalancer := c.hosts, c.prices, c.loadBalancer;
    }

    function View(): Config
      reads this
    {
      Config(hosts, prices, loadBalancer)
    }

    method SortServers()
      modifies this`hosts
      ensures hosts == Mapped(NormHost, old(hosts))
    {
      for i := 0 to |hosts|
        invariant |hosts| == |old(hosts)|
        invariant forall j :: 0 <= j < |hosts| ==> hosts[j] == if j < i then NormHost(old(hosts)[j]) else old(hosts)[j]
      {
        var h := hosts[i];
        hosts := hosts[i := h.(servers := SortBy(ServerId, h.servers))];
      }
    }

    method SortPrices()
      modifies this`prices
      ensures prices == if old(prices).Some? then Some(NormPrices(old(prices).value)) else None
    {
      if prices.None? {
        return;
      }
      var ms := SortBy(PriceModel, prices.value.models);
      ghost var sorted := ms;
      for i := 0 to |ms|
        invariant |ms| == |sorted|
        invariant forall j :: 0 <= j < |ms| ==> ms[j] == if j < i then NormPrice(sorted[j]) else sorted[j]
      {
        ms := ms[i := ms[i].(aliases := SortBy(Self, ms[i].aliases))];
      }
      assert ms == Mapped(NormPrice, sorted);
      prices := Some(prices.value.(models := ms));
    }

    method Normalize()
      modifies this
      ensures View() == Normalized(old(View())) && Normal(View())
    {
      NormalizedIsNormal(View());
      hosts := SortBy(HostId, hosts);
      SortServers();
      SortPrices();
      if loadBalancer.Some? {
        loadBalancer := Some(SortBy(RouteKey, loadBalancer.value));
      }
    }

    method PrintHosts() returns (out: seq<Node>)
      ensures out == Mapped(EmitHost, hosts)
    {
      out := [];
      for i := 0 to |hosts|
        invariant out == Mapped(EmitHost, hosts[..i])
      {
        var h, ss := hosts[i], [];
        for j := 0 to |h.servers|
          invariant ss == Mapped(EmitServer, h.servers[..j])
        {
          ss := ss + [EmitServer(h.servers[j])];
        }
        assert h.servers[..|h.servers|] == h.servers;
        out := out + [Map([Entry(HostAddresses, List(Mapped(Text, h.addresses))), Entry(Id, Text(h.id))]
                          + OptionalText(Description, h.description) + [Entry(Servers, List(ss))])];
      }
      assert hosts[..|hosts|] == hosts;
    }

    method PrintRoutes(rs: seq<Route>) returns (out: seq<Node>)
      ensures out == Mapped(EmitRoute, rs)
    {
      out := [];
      for i := 0 to |rs|
        invariant out == Mapped(EmitRoute, rs[..i])
      {
        var r, ms := rs[i], [];
        for j := 0 to |r.members|
          invariant ms == Mapped(EmitMember, r.members[..j])
        {
          ms := ms + [EmitMember(r.members[j])];
        }
        assert r.members[..|r.members|] == r.members;
        out := out + [Map([Entry(Alias, Text(r.alias))] + OptionalText(Description, r.description) + [Entry(Models, List(ms))])];
      }
      assert rs[..|rs|] == rs;
    }

    method PrintPrices(p: Prices) returns (out: seq<Node>)
      ensures out == Mapped(EmitPrice, p.models)
    {
      out := [];
      for i := 0 to |p.models|
        invariant out == Mapped(EmitPrice, p.models[..i])
      {
        out := out + [EmitPrice(p.models[i])];
      }
      assert p.models[..|p.models|] == p.models;
    }

    /** Printing leaves the draft in order, and prints it as it then stands. */
    method Canonical() returns (out: Node)
      modifies this
      ensures View() == Normalized(old(View())) && Normal(View())
      ensures out == Emit(View()) == Printed(old(View()))
    {
      hide Normalized, EmitHost, EmitRoute, EmitPrice, Normal;
      Normalize();
      var hs := PrintHosts();
      var es := [Entry(Hosts, List(hs))];
      if prices.Some? && prices.value.models != [] {
        var ms := PrintPrices(prices.value);
        es := es + [Entry(PriceList, Map([Entry(Currency, Text(prices.value.currency)), Entry(Models, List(ms))]))];
      }
      if loadBalancer.Some? && loadBalancer.value != [] {
        var rs := PrintRoutes(loadBalancer.value);
        es := es + [Entry(LoadBalancer, Map([Entry(Routes, List(rs))]))];
      }
      out := Map(es);
    }
  }
}
