/** The configuration document's entities, as decoded. */
module ConfigTypes {
  import opened Wrappers

  datatype Server = Server(port: int, api: string, id: string, description: string, scheme: string,
                           authToken: string, maxConcurrency: int) {
    function SchemeOrDefault(): string {
      if scheme != "" then scheme else "http"
    }
  }

  datatype Host = Host(addresses: seq<string>, id: string, description: string, servers: seq<Server>)

  datatype ModelPrice = ModelPrice(model: string, aliases: seq<string>, input: Option<real>, output: Option<real>,
                                   cachedInput: Option<real>, reasoningOutput: Option<real>)

  datatype Prices = Prices(currency: string, models: seq<ModelPrice>)

  datatype RouteMember = RouteMember(model: string, cost: Option<real>) {
    function CostOrDefault(): (c: real)
      ensures c > 0.0
    {
      if cost.None? || cost.value <= 0.0 then 1.0 else cost.value
    }
  }

  datatype Route = Route(alias: string, description: string, members: seq<RouteMember>)

  datatype Config = Config(hosts: seq<Host>, prices: Option<Prices>, loadBalancer: Option<seq<Route>>) {
    function Routes(): seq<Route> {
      if loadBalancer.Some? then loadBalancer.value else []
    }
  }

  const EMPTY: Config := Config([], None, None)

  /** The route whose alias equals the asked name: the first such. */
  function RouteFor(rs: seq<Route>, alias: string): (r: Option<Route>)
    ensures r.Some? <==> exists i :: 0 <= i < |rs| && rs[i].alias == alias
    ensures r.Some? ==> r.value in rs && r.value.alias == alias
  {
    if rs == [] then None
    else if rs[0].alias == alias then Some(rs[0])
    else
      var r := RouteFor(rs[1..], alias);
      assert forall i :: 0 < i < |rs| ==> rs[i] == rs[1..][i - 1];
      r
  }
}
