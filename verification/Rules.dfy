/** The rules a configuration must meet, stated over the decoded document. */
module Rules {
  import opened Wrappers
  import opened ConfigTypes
  import opened Strings
  import opened Names
  import opened Sorting

  const SUPPORTED: set<string> := {"openai", "ollama"}

  function TrimDot(s: string): string {
    if s != "" && s[|s| - 1] == '.' then s[..|s| - 1] else s
  }

  /** Two addresses are the same when they agree up to case, outer blanks and a final dot. */
  function NormalizeAddress(a: string): string {
    TrimDot(ToLower(TrimSpace(a)))
  }

  // The keys the sections are sorted by and must not repeat.

  function HostId(h: Host): string { h.id }

  function ServerId(s: Server): string { s.id }

  function PortOf(s: Server): int { s.port }

  function PriceModel(m: ModelPrice): string { m.model }

  function RouteKey(r: Route): string { ToLower(r.alias) }

  function MemberModel(m: RouteMember): string { m.model }

  function Self(s: string): string { s }

  /** Addresses of a host, and names a price entry claims. */
  function Addresses(h: Host): seq<string> { h.addresses }

  function Claims(m: ModelPrice): seq<string> { [m.model] + m.aliases }

  function Flat<T>(f: T -> seq<string>, s: seq<T>): seq<string> {
    if s == [] then [] else Flat(f, s[..|s| - 1]) + f(s[|s| - 1])
  }

  // ----- hosts -----------------------------------------------------------------------------

  ghost predicate ServerProper(s: Server) {
    && IsID(s.id) && 1 <= s.port <= 65535 && s.api in {"openai", "ollama"} && s.scheme in {"", "http", "https"}
    && s.maxConcurrency >= 0
  }

  ghost predicate ServersProper(ss: seq<Server>) {
    && (forall i :: 0 <= i < |ss| ==> ServerProper(ss[i]))
    && DistinctKeys(ServerId, ss)
    && DistinctKeys(PortOf, ss)
  }

  ghost predicate HostProper(h: Host) {
    && IsID(h.id)
    && h.addresses != []
    && (forall i :: 0 <= i < |h.addresses| ==> NormalizeAddress(h.addresses[i]) != "")
    && ServersProper(h.servers)
  }

  ghost predicate HostsProper(hs: seq<Host>) {
    && (forall i :: 0 <= i < |hs| ==> HostProper(hs[i]))
    && DistinctKeys(HostId, hs)
    && DistinctKeys(NormalizeAddress, Flat(Addresses, hs))
  }

  // ----- prices ----------------------------------------------------------------------------

  ghost predicate PriceOk(p: Option<real>) {
    p.Some? ==> p.value >= 0.0
  }

  ghost predicate PriceProper(m: ModelPrice) {
    && m.model != "" && '@' !in m.model
    && m.input.Some? && m.output.Some?
    && PriceOk(m.input) && PriceOk(m.output) && PriceOk(m.cachedInput) && PriceOk(m.reasoningOutput)
    && (forall i :: 0 <= i < |m.aliases| ==> IsPriceAlias(m.aliases[i]))
  }

  ghost predicate PricesProper(p: Prices) {
    && ToUpper(p.currency) == p.currency
    && (forall i :: 0 <= i < |p.models| ==> PriceProper(p.models[i]))
    && DistinctKeys(Self, Flat(Claims, p.models))
  }

  // ----- routes -----------------------------------------------------------------------------

  ghost predicate HasServer(hs: seq<Host>, hostId: string, id: string) {
    exists h, s :: h in hs && h.id == hostId && s in h.servers && s.id == id
  }

  /** The member's published id names a server of the hosts section. */
  ghost predicate Configured(hs: seq<Host>, model: string) {
    && SplitPublishedID(model).Some?
    && HasServer(hs, SplitPublishedID(model).value.host, SplitPublishedID(model).value.segment)
  }

  ghost predicate MemberProper(m: RouteMember, hs: seq<Host>) {
    && (m.cost.Some? ==> m.cost.value > 0.0)
    && Configured(hs, m.model)
  }

  ghost predicate RouteProper(r: Route, hs: seq<Host>) {
    && IsRouteAlias(r.alias)
    && r.members != []
    && (forall i :: 0 <= i < |r.members| ==> MemberProper(r.members[i], hs))
    && DistinctKeys(MemberModel, r.members)
  }

  ghost predicate RoutesProper(rs: seq<Route>, hs: seq<Host>) {
    && (forall i :: 0 <= i < |rs| ==> RouteProper(rs[i], hs))
    && DistinctKeys(RouteKey, rs)
  }

  ghost predicate Proper(c: Config) {
    && HostsProper(c.hosts)
    && (c.prices.Some? ==> PricesProper(c.prices.value))
    && (c.loadBalancer.Some? ==> RoutesProper(c.loadBalancer.value, c.hosts))
  }

  // ----- case -------------------------------------------------------------------------------

  /** Ids are lower-case already, so folding case finds no more duplicates among them. */
  lemma IdIsLower(s: string)
    requires IsID(s)
    ensures ToLower(s) == s
  {
  }

  lemma HostOfPublished(base: string, segment: string, host: string)
    requires '@' !in host && SplitPublishedID(PublishID(base, segment, host)).Some?
    ensures SplitPublishedID(PublishID(base, segment, host)).value.host == host
    ensures '-' !in SplitPublishedID(PublishID(base, segment, host)).value.segment
  {
    var id := PublishID(base, segment, host);
    PublishAt(base, segment, host);
    SplitThenPublish(id);
    assert id[LastIndex(id, '@') + 1..] == host;
  }

  lemma HostsById(hs: seq<Host>, g: Host, h: Host)
    requires HostsProper(hs) && g in hs && h in hs && g.id == h.id
    ensures g == h && '@' !in h.id
  {
    hide ServersProper, Flat, NormalizeAddress;
    var i :| 0 <= i < |hs| && hs[i] == h;
    var j :| 0 <= j < |hs| && hs[j] == g;
    assert HostId(hs[i]) == HostId(hs[j]);
    assert HostProper(hs[i]);
  }

  /** A server whose id has a dash can be published but never be a route member: the id
      of a member is cut at its last dash, so it can at best name another server. */
  lemma DashedServerNeverMember(hs: seq<Host>, base: string, h: Host, s: Server)
    requires HostsProper(hs) && h in hs && s in h.servers && '-' in s.id
    requires Configured(hs, PublishID(base, s.id, h.id))
    ensures exists o :: o in h.servers && o.id != s.id && o.id == SplitPublishedID(PublishID(base, s.id, h.id)).value.segment
  {
    hide HostsProper, SplitPublishedID, PublishID, IsID;
    HostsById(hs, h, h);
    HostOfPublished(base, s.id, h.id);
    var p := SplitPublishedID(PublishID(base, s.id, h.id)).value;
    assert HasServer(hs, p.host, p.segment);
    var g, o :| g in hs && g.id == p.host && o in g.servers && o.id == p.segment;
    HostsById(hs, g, h);
  }
}
