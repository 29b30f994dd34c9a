/** Normalising a configuration and printing it in its one canonical form. */
module Canonical {
  import opened Wrappers
  import opened ConfigTypes
  import opened Strings
  import opened Names
  import opened Sorting
  import opened Document
  import opened Rules

  // ----- Normalize -----------------------------------------------------------------------------

  function NormHost(h: Host): Host {
    h.(servers := SortBy(ServerId, h.servers))
  }

  function NormPrice(m: ModelPrice): ModelPrice {
    m.(aliases := SortBy(Self, m.aliases))
  }

  function NormPrices(p: Prices): Prices {
    p.(models := Mapped(NormPrice, SortBy(PriceModel, p.models)))
  }

  /** Everything sorted but the members of a route: their order is the preference. */
  function Normalized(c: Config): Config {
    Config(Mapped(NormHost, SortBy(HostId, c.hosts)),
           if c.prices.Some? then Some(NormPrices(c.prices.value)) else None,
           if c.loadBalancer.Some? then Some(SortBy(RouteKey, c.loadBalancer.value)) else None)
  }

  // ----- the tree that is printed ----------------------------------------------------------------

  function Text(t: string): Node {
    Scalar(t, None, None)
  }

  /** The digits of a number, and the integer it is read back as where one is asked for:
      nothing is said of them, so what is proved holds whatever the printer writes. */
  const DIGITS: real -> string

  const INTEGER: real -> Option<int>

  function Whole(i: int): Node {
    Scalar(DIGITS(i as real), Some(i), Some(i as real))
  }

  function Number(x: real): Node {
    Scalar(DIGITS(x), INTEGER(x), Some(x))
  }

  function OptionalText(k: Field, t: string): seq<Entry> {
    if t == "" then [] else [Entry(k, Text(t))]
  }

  function OptionalNumber(k: Field, x: Option<real>): seq<Entry> {
    if x.None? then [] else [Entry(k, Number(x.value))]
  }

  function OptionalList(k: Field, items: seq<Node>): seq<Entry> {
    if items == [] then [] else [Entry(k, List(items))]
  }

  function ServerHead(s: Server): seq<Entry> {
    [Entry(Port, Whole(s.port)), Entry(Api, Text(s.api)), Entry(Id, Text(s.id))]
  }

  function ServerTail(s: Server): seq<Entry> {
    [Entry(Scheme, Text(s.SchemeOrDefault())), Entry(AuthToken, Text(s.authToken)), Entry(MaxConcurrency, Whole(s.maxConcurrency))]
  }

  function ServerEntries(s: Server): seq<Entry> {
    ServerHead(s) + OptionalText(Description, s.description) + ServerTail(s)
  }

  function EmitServer(s: Server): Node {
    Map(ServerEntries(s))
  }

  function HostEntries(h: Host): seq<Entry> {
    [Entry(HostAddresses, List(Mapped(Text, h.addresses))), Entry(Id, Text(h.id))]
    + OptionalText(Description, h.description)
    + [Entry(Servers, List(Mapped(EmitServer, h.servers)))]
  }

  function EmitHost(h: Host): Node {
    Map(HostEntries(h))
  }

  function PriceNumbers(m: ModelPrice): seq<Entry> {
    [Entry(Input, Number(OrElse(m.input, 0.0))), Entry(Output, Number(OrElse(m.output, 0.0)))]
  }

  function PriceHead(m: ModelPrice): seq<Entry> {
    [Entry(Model, Text(m.model))]
  }

  function PriceEntries(m: ModelPrice): seq<Entry> {
    PriceHead(m)
    + OptionalList(Aliases, Mapped(Text, m.aliases))
    + PriceNumbers(m)
    + OptionalNumber(CachedInput, m.cachedInput)
    + OptionalNumber(ReasoningOutput, m.reasoningOutput)
  }

  function EmitPrice(m: ModelPrice): Node {
    Map(PriceEntries(m))
  }

  function EmitMember(m: RouteMember): Node {
    Map(MemberEntries(m))
  }

  function MemberEntries(m: RouteMember): seq<Entry> {
    [Entry(Model, Text(m.model)), Entry(Cost, Number(m.CostOrDefault()))]
  }

  function EmitRoute(r: Route): Node {
    Map(RouteEntries(r))
  }

  function RouteEntries(r: Route): seq<Entry> {
    [Entry(Alias, Text(r.alias))]
    + OptionalText(Description, r.description)
    + [Entry(Models, List(Mapped(EmitMember, r.members)))]
  }

  /** The price section is printed only when it prices something, the balancer section
      only when it routes something. */
  function EmitPrices(p: Option<Prices>): seq<Entry> {
    if p.Some? && p.value.models != [] then
      [Entry(PriceList, Map([Entry(Currency, Text(p.value.currency)), Entry(Models, List(Mapped(EmitPrice, p.value.models)))]))]
    else []
  }

  function EmitRoutes(rs: Option<seq<Route>>): seq<Entry> {
    if rs.Some? && rs.value != [] then
      [Entry(LoadBalancer, Map([Entry(Routes, List(Mapped(EmitRoute, rs.value)))]))]
    else []
  }

  function Emit(c: Config): Node {
    Map([Entry(Hosts, List(Mapped(EmitHost, c.hosts)))] + EmitPrices(c.prices) + EmitRoutes(c.loadBalancer))
  }

  function Printed(c: Config): Node {
    Emit(Normalized(c))
  }

  // ----- what is read back -------------------------------------------------------------------------

  /** The defaults written out. */
  function SettleServer(s: Server): Server {
    s.(scheme := s.SchemeOrDefault())
  }

  function SettleHost(h: Host): Host {
    h.(servers := Mapped(SettleServer, h.servers))
  }

  function SettlePrice(m: ModelPrice): ModelPrice {
    m.(input := Some(OrElse(m.input, 0.0)), output := Some(OrElse(m.output, 0.0)))
  }

  function SettleMember(m: RouteMember): RouteMember {
    m.(cost := Some(m.CostOrDefault()))
  }

  function SettleRoute(r: Route): Route {
    r.(members := Mapped(SettleMember, r.members))
  }

  /** What a configuration says once its defaults are written out and its empty sections
      are dropped. */
  function Settle(c: Config): Config {
    Config(Mapped(SettleHost, c.hosts),
           if c.prices.Some? && c.prices.value.models != []
           then Some(Prices(ToUpper(c.prices.value.currency), Mapped(SettlePrice, c.prices.value.models))) else None,
           if c.loadBalancer.Some? && c.loadBalancer.value != []
           then Some(Mapped(SettleRoute, c.loadBalancer.value)) else None)
  }

  lemma TextsBack(ts: seq<string>)
    ensures Mapped(StringOf, Mapped(Text, ts)) == ts
    ensures forall i :: 0 <= i < |ts| ==> AsString(Mapped(Text, ts)[i]).Some?
  {
  }

  lemma {:induction false} GetConcat(a: seq<Entry>, b: seq<Entry>)
    ensures forall k :: Get(a + b, k) == if Get(a, k).Some? then Get(a, k) else Get(b, k)
  {
    if a == [] {
      assert a + b == b;
    } else {
      assert (a + b)[1..] == a[1..] + b;
      GetConcat(a[1..], b);
    }
  }

  lemma GetRest(es: seq<Entry>)
    requires es != []
    ensures forall k :: Get(es, k) == if es[0].key == k then Some(es[0].value) else Get(es[1..], k)
    ensures Get([], Id) == None
  {
  }

  lemma GetThree(es: seq<Entry>)
    requires |es| == 3
    ensures forall k :: (Get(es, k) ==
      if es[0].key == k then Some(es[0].value) else if es[1].key == k then Some(es[1].value)
      else if es[2].key == k then Some(es[2].value) else None)
  {
    GetRest(es);
    GetRest(es[1..]);
    GetRest(es[2..]);
    assert es[1..][1..] == es[2..] && es[2..][1..] == [];
  }

  lemma ServerPieces(s: Server)
    ensures forall k :: (Get(ServerHead(s), k) ==
      match k case Port => Some(Whole(s.port)) case Api => Some(Text(s.api)) case Id => Some(Text(s.id)) case _ => None)
    ensures forall k :: (Get(ServerTail(s), k) ==
      match k case Scheme => Some(Text(s.SchemeOrDefault())) case AuthToken => Some(Text(s.authToken))
              case MaxConcurrency => Some(Whole(s.maxConcurrency)) case _ => None)
  {
    hide Get;
    GetThree(ServerHead(s));
    GetThree(ServerTail(s));
  }

  lemma PricePieces(m: ModelPrice)
    ensures forall k :: Get(PriceHead(m), k) == if k == Model then Some(Text(m.model)) else None
    ensures forall k :: (Get(PriceNumbers(m), k) ==
      match k case Input => Some(Number(OrElse(m.input, 0.0))) case Output => Some(Number(OrElse(m.output, 0.0))) case _ => None)
  {
    hide Get, OrElse;
    GetRest(PriceHead(m));
    GetRest(PriceNumbers(m));
    GetRest(PriceNumbers(m)[1..]);
  }

  lemma OptionalPieces(f: Field, t: string, x: Option<real>, items: seq<Node>)
    ensures forall k :: Get(OptionalText(f, t), k) == if k == f && t != "" then Some(Text(t)) else None
    ensures forall k :: Get(OptionalNumber(f, x), k) == if k == f && x.Some? then Some(Number(x.value)) else None
    ensures forall k :: Get(OptionalList(f, items), k) == if k == f && items != [] then Some(List(items)) else None
  {
  }

  lemma ServerParts(s: Server)
    ensures forall k :: (Get(ServerEntries(s), k)
      == First(First(Get(ServerHead(s), k), Get(OptionalText(Description, s.description), k)), Get(ServerTail(s), k)))
  {
    hide Get, ServerHead, ServerTail, OptionalText;
    var a, b, c := ServerHead(s), OptionalText(Description, s.description), ServerTail(s);
    GetConcat(a + b, c);
    GetConcat(a, b);
  }

  lemma ServerHeadFields(s: Server)
    ensures var es := ServerEntries(s);
      && Get(es, Port) == Some(Whole(s.port)) && Get(es, Api) == Some(Text(s.api)) && Get(es, Id) == Some(Text(s.id))
      && Get(es, Description) == (if s.description == "" then None else Some(Text(s.description)))
  {
    hide Get, ServerEntries, ServerHead, ServerTail, OptionalText, Whole, Text;
    ServerParts(s);
    ServerPieces(s);
    OptionalPieces(Description, s.description, None, []);
  }

  lemma ServerTailFields(s: Server)
    ensures var es := ServerEntries(s);
      && Get(es, Scheme) == Some(Text(s.SchemeOrDefault())) && Get(es, AuthToken) == Some(Text(s.authToken))
      && Get(es, MaxConcurrency) == Some(Whole(s.maxConcurrency)) && Get(es, Postfix) == None
  {
    hide Get, ServerEntries, ServerHead, ServerTail, OptionalText, Whole, Text;
    ServerParts(s);
    ServerPieces(s);
    OptionalPieces(Description, s.description, None, []);
  }

  lemma ServerKeys(s: Server)
    ensures KeysOk(ServerEntries(s), SERVER_FIELDS)
  {
  }

  lemma ServerShaped(s: Server)
    ensures ServerShape(EmitServer(s))
  {
    hide Get, ServerEntries, KeysOk;
    ServerHeadFields(s);
    ServerTailFields(s);
    ServerKeys(s);
  }

  lemma ServerBack(s: Server)
    ensures ServerShape(EmitServer(s)) && ParseServer(EmitServer(s)) == SettleServer(s)
  {
    hide Get, ServerEntries, ServerShape;
    ServerHeadFields(s);
    ServerTailFields(s);
    ServerShaped(s);
  }

  lemma HostFields(h: Host)
    ensures var es := HostEntries(h);
      && Get(es, HostAddresses) == Some(List(Mapped(Text, h.addresses))) && Get(es, Id) == Some(Text(h.id))
      && Get(es, Description) == (if h.description == "" then None else Some(Text(h.description)))
      && Get(es, Servers) == Some(List(Mapped(EmitServer, h.servers)))
      && KeysOk(es, HOST_FIELDS)
  {
    hide Get, EmitServer, Mapped, Text;
    var es := HostEntries(h);
    var d := if h.description == "" then 0 else 1;
    assert |es| == 3 + d;
    GetAt(es, 0);
    GetAt(es, 1);
    if d == 1 {
      GetAt(es, 2);
    }
    GetAt(es, 2 + d);
  }

  lemma ServersBack(ss: seq<Server>)
    ensures Mapped(ParseServer, Mapped(EmitServer, ss)) == Mapped(SettleServer, ss)
    ensures forall i :: 0 <= i < |ss| ==> ServerShape(Mapped(EmitServer, ss)[i])
  {
    hide ServerShape, ParseServer, EmitServer, SettleServer;
    forall s: Server ensures ServerShape(EmitServer(s)) && ParseServer(EmitServer(s)) == SettleServer(s) {
      ServerBack(s);
    }
  }

  lemma HostShaped(h: Host)
    ensures HostShape(EmitHost(h))
  {
    hide Get, KeysOk, HostEntries, EmitServer, ServerShape, Mapped;
    HostFields(h);
    TextsBack(h.addresses);
    ServersBack(h.servers);
  }

  lemma HostBack(h: Host)
    ensures HostShape(EmitHost(h)) && ParseHost(EmitHost(h)) == SettleHost(h)
  {
    hide Get, KeysOk, HostEntries, HostShape, ParseServer, EmitServer, SettleServer, Mapped;
    HostFields(h);
    TextsBack(h.addresses);
    ServersBack(h.servers);
    HostShaped(h);
  }

  function First(a: Option<Node>, b: Option<Node>): Option<Node> {
    if a.Some? then a else b
  }

  lemma PriceParts(m: ModelPrice)
    ensures var b, d := OptionalList(Aliases, Mapped(Text, m.aliases)), OptionalNumber(CachedInput, m.cachedInput);
      forall k :: Get(PriceEntries(m), k)
                  == First(First(First(First(Get(PriceHead(m), k), Get(b, k)), Get(PriceNumbers(m), k)), Get(d, k)),
                           Get(OptionalNumber(ReasoningOutput, m.reasoningOutput), k))
  {
    hide Get, Mapped, PriceHead, OptionalList, PriceNumbers, OptionalNumber;
    var a, b, c := PriceHead(m), OptionalList(Aliases, Mapped(Text, m.aliases)), PriceNumbers(m);
    var d, e := OptionalNumber(CachedInput, m.cachedInput), OptionalNumber(ReasoningOutput, m.reasoningOutput);
    GetConcat(a + b + c + d, e);
    GetConcat(a + b + c, d);
    GetConcat(a + b, c);
    GetConcat(a, b);
  }

  lemma PriceFields(m: ModelPrice)
    ensures var es := PriceEntries(m);
      && Get(es, Model) == Some(Text(m.model))
      && Get(es, Aliases) == (if m.aliases == [] then None else Some(List(Mapped(Text, m.aliases))))
  {
    hide Get, Mapped, OrElse, PriceEntries, PriceHead, OptionalList, PriceNumbers, OptionalNumber, Text, Number;
    PriceParts(m);
    PricePieces(m);
    OptionalPieces(Aliases, "", None, Mapped(Text, m.aliases));
    OptionalPieces(CachedInput, "", m.cachedInput, []);
    OptionalPieces(ReasoningOutput, "", m.reasoningOutput, []);
    assert m.aliases == [] <==> Mapped(Text, m.aliases) == [];
  }

  lemma NumberFields(m: ModelPrice)
    ensures var es := PriceEntries(m);
      && Get(es, Input) == Some(Number(OrElse(m.input, 0.0))) && Get(es, Output) == Some(Number(OrElse(m.output, 0.0)))
      && Get(es, CachedInput) == (if m.cachedInput.None? then None else Some(Number(m.cachedInput.value)))
      && Get(es, ReasoningOutput) == (if m.reasoningOutput.None? then None else Some(Number(m.reasoningOutput.value)))
  {
    hide Get, Mapped, OrElse, PriceEntries, PriceHead, OptionalList, PriceNumbers, OptionalNumber, Text, Number;
    PriceParts(m);
    PricePieces(m);
    OptionalPieces(Aliases, "", None, Mapped(Text, m.aliases));
    OptionalPieces(CachedInput, "", m.cachedInput, []);
    OptionalPieces(ReasoningOutput, "", m.reasoningOutput, []);
  }

  lemma PriceKeys(m: ModelPrice)
    ensures KeysOk(PriceEntries(m), PRICE_FIELDS)
  {
  }

  lemma PriceShaped(m: ModelPrice)
    ensures PriceShape(EmitPrice(m))
  {
    hide Get, PriceEntries, KeysOk, Mapped, RealOk, StringOk, ListOk, Absent, ItemsAt, AsString;
    NumbersBack(m);
    AliasesBack(m);
    PriceKeys(m);
  }

  lemma PriceBack(m: ModelPrice)
    ensures PriceShape(EmitPrice(m)) && ParsePrice(EmitPrice(m)) == SettlePrice(m)
  {
    hide Get, PriceEntries, PriceShape, Mapped, OrElse, ItemsAt, RealAt, StringAt;
    NumbersBack(m);
    AliasesBack(m);
    PriceShaped(m);
  }

  lemma NumbersBack(m: ModelPrice)
    ensures var es := PriceEntries(m);
      && RealAt(es, Input) == Some(OrElse(m.input, 0.0)) && RealAt(es, Output) == Some(OrElse(m.output, 0.0))
      && RealAt(es, CachedInput) == m.cachedInput && RealAt(es, ReasoningOutput) == m.reasoningOutput
      && RealOk(es, Input) && RealOk(es, Output) && RealOk(es, CachedInput) && RealOk(es, ReasoningOutput)
  {
    hide Get, PriceEntries;
    NumberFields(m);
  }

  lemma AliasesBack(m: ModelPrice)
    ensures var es := PriceEntries(m);
      && StringAt(es, Model) == m.model && Mapped(StringOf, ItemsAt(es, Aliases)) == m.aliases
      && !Absent(es, Model) && StringOk(es, Model) && ListOk(es, Aliases)
      && (forall i :: 0 <= i < |ItemsAt(es, Aliases)| ==> AsString(ItemsAt(es, Aliases)[i]).Some?)
  {
    hide Get, PriceEntries;
    PriceFields(m);
    TextsBack(m.aliases);
  }

  lemma MemberBack(m: RouteMember)
    ensures MemberShape(EmitMember(m)) && ParseMember(EmitMember(m)) == SettleMember(m)
  {
    hide Get;
    var es := EmitMember(m).entries;
    GetAt(es, 0);
    GetAt(es, 1);
  }

  lemma RouteFields(r: Route)
    ensures var es := RouteEntries(r);
      && Get(es, Alias) == Some(Text(r.alias))
      && Get(es, Description) == (if r.description == "" then None else Some(Text(r.description)))
      && Get(es, Models) == Some(List(Mapped(EmitMember, r.members)))
      && KeysOk(es, ROUTE_FIELDS)
  {
    hide Get, EmitMember, Mapped, Text;
    var es := RouteEntries(r);
    var d := if r.description == "" then 0 else 1;
    assert |es| == 2 + d;
    GetAt(es, 0);
    if d == 1 {
      GetAt(es, 1);
    }
    GetAt(es, 1 + d);
  }

  lemma MembersBack(ms: seq<RouteMember>)
    ensures Mapped(ParseMember, Mapped(EmitMember, ms)) == Mapped(SettleMember, ms)
    ensures forall i :: 0 <= i < |ms| ==> MemberShape(Mapped(EmitMember, ms)[i])
  {
    hide MemberShape, ParseMember, EmitMember, SettleMember;
    forall m: RouteMember ensures MemberShape(EmitMember(m)) && ParseMember(EmitMember(m)) == SettleMember(m) {
      MemberBack(m);
    }
  }

  lemma RouteBack(r: Route)
    ensures RouteShape(EmitRoute(r)) && ParseRoute(EmitRoute(r)) == SettleRoute(r)
  {
    hide Get, KeysOk, RouteEntries, MemberShape, ParseMember, EmitMember, SettleMember, Mapped;
    RouteFields(r);
    MembersBack(r.members);
  }

  lemma {:induction false} GetLastAt(es: seq<Entry>, k: Field, i: nat)
    requires i < |es| && es[i].key == k && forall j :: i < j < |es| ==> es[j].key != k
    ensures GetLast(es, k) == Some(es[i].value)
  {
    if i < |es| - 1 {
      GetLastAt(es[..|es| - 1], k, i);
    }
  }

  lemma {:induction false} GetLastNone(es: seq<Entry>, k: Field)
    requires forall j :: 0 <= j < |es| ==> es[j].key != k
    ensures GetLast(es, k) == None
  {
    if es != [] {
      GetLastNone(es[..|es| - 1], k);
    }
  }

  lemma TopBack(c: Config)
    ensures var es := Emit(c).entries;
      && GetLast(es, Hosts) == Some(List(Mapped(EmitHost, c.hosts)))
      && GetLast(es, PriceList) == (if EmitPrices(c.prices) == [] then None else Some(EmitPrices(c.prices)[0].value))
      && GetLast(es, LoadBalancer) == (if EmitRoutes(c.loadBalancer) == [] then None else Some(EmitRoutes(c.loadBalancer)[0].value))
      && forall i :: 0 <= i < |es| ==> es[i].key in TOP_FIELDS
  {
    hide GetLast, EmitHost, EmitPrice, EmitRoute, Mapped;
    var es := Emit(c).entries;
    var p := |EmitPrices(c.prices)|;
    assert |es| == 1 + p + |EmitRoutes(c.loadBalancer)|;
    GetLastAt(es, Hosts, 0);
    if p == 1 {
      GetLastAt(es, PriceList, 1);
    } else {
      GetLastNone(es, PriceList);
    }
    if EmitRoutes(c.loadBalancer) != [] {
      GetLastAt(es, LoadBalancer, 1 + p);
    } else {
      GetLastNone(es, LoadBalancer);
    }
  }

  lemma HostsBack(hs: seq<Host>)
    ensures Mapped(ParseHost, Mapped(EmitHost, hs)) == Mapped(SettleHost, hs)
    ensures HostsShape(List(Mapped(EmitHost, hs)))
  {
    hide HostShape, ParseHost, EmitHost, SettleHost;
    forall h: Host ensures HostShape(EmitHost(h)) && ParseHost(EmitHost(h)) == SettleHost(h) {
      HostBack(h);
    }
  }

  lemma PricesBack(p: Prices)
    requires p.models != []
    ensures var n := EmitPrices(Some(p))[0].value;
      && (PricesShape(n) <==> IsIsoCurrency(p.currency))
      && ParsePrices(n) == Prices(ToUpper(p.currency), Mapped(SettlePrice, p.models))
  {
    hide PriceShape, ParsePrice, EmitPrice, SettlePrice, ToUpper, IsIsoCurrency;
    var es := EmitPrices(Some(p))[0].value.entries;
    GetAt(es, 0);
    GetAt(es, 1);
    forall m: ModelPrice ensures PriceShape(EmitPrice(m)) && ParsePrice(EmitPrice(m)) == SettlePrice(m) {
      PriceBack(m);
    }
    assert Mapped(ParsePrice, Mapped(EmitPrice, p.models)) == Mapped(SettlePrice, p.models);
  }

  lemma RoutesBack(rs: seq<Route>)
    requires rs != []
    ensures var n := EmitRoutes(Some(rs))[0].value;
      RoutesShape(n) && ParseRoutes(n) == Mapped(SettleRoute, rs)
  {
    hide RouteShape, ParseRoute, EmitRoute, SettleRoute;
    var es := EmitRoutes(Some(rs))[0].value.entries;
    GetAt(es, 0);
    forall r: Route ensures RouteShape(EmitRoute(r)) && ParseRoute(EmitRoute(r)) == SettleRoute(r) {
      RouteBack(r);
    }
    assert Mapped(ParseRoute, Mapped(EmitRoute, rs)) == Mapped(SettleRoute, rs);
  }

  /** What is printed of the prices, if anything is, starts with an acceptable currency. */
  ghost predicate PrintsCurrency(c: Config) {
    c.prices.Some? && c.prices.value.models != [] ==> IsIsoCurrency(c.prices.value.currency)
  }

  /** Reading back what was printed gives the configuration with its defaults written
      out, whatever the configuration; the shape is right but for the currency. */
  lemma EmitThenParse(c: Config)
    ensures Parse(Some(Emit(c))) == Settle(c)
    ensures Shape(Some(Emit(c))) <==> PrintsCurrency(c)
  {
    hide IsIsoCurrency, GetLast, HostsShape, PricesShape, RoutesShape, ParsePrices, ParseRoutes, ParseHost, EmitHost, SettleHost, SettlePrice, SettleRoute, Mapped;
    TopBack(c);
    HostsBack(c.hosts);
    if EmitPrices(c.prices) != [] {
      PricesBack(c.prices.value);
    }
    if EmitRoutes(c.loadBalancer) != [] {
      RoutesBack(c.loadBalancer.value);
    }
  }

  // ----- the fields there are -----------------------------------------------------------------------

  /** Some entity of that kind is printed with the field. */
  ghost predicate Written<T(!new)>(entries: T -> seq<Entry>, k: Field) {
    exists x :: Get(entries(x), k).Some?
  }

  /** No field is let in that is never written, but the one that was removed. */
  lemma FieldsAreWritten()
    ensures forall k :: k in SERVER_FIELDS ==> k == Postfix || Written(ServerEntries, k)
    ensures forall k :: k in HOST_FIELDS ==> Written(HostEntries, k)
    ensures forall k :: k in PRICE_FIELDS ==> Written(PriceEntries, k)
    ensures forall k :: k in ROUTE_FIELDS ==> Written(RouteEntries, k)
    ensures forall k :: k in MEMBER_FIELDS ==> Written(MemberEntries, k)
  {
    hide Written, SERVER_FIELDS, HOST_FIELDS, PRICE_FIELDS, ROUTE_FIELDS, MEMBER_FIELDS;
    ServerFieldsWritten();
    HostFieldsWritten();
    PriceFieldsWritten();
    RouteFieldsWritten();
    MemberFieldsWritten();
  }

  lemma ServerFieldsWritten()
    ensures forall k :: k in SERVER_FIELDS ==> k == Postfix || Written(ServerEntries, k)
  {
    hide Get, ServerEntries, Mapped;
    var s := Server(0, "", "", "d", "", "", 0);
    ServerHeadFields(s);
    ServerTailFields(s);
    forall k | k in SERVER_FIELDS ensures k == Postfix || Written(ServerEntries, k) {
      assert k == Postfix || Get(ServerEntries(s), k).Some?;
    }
  }

  lemma HostFieldsWritten()
    ensures forall k :: k in HOST_FIELDS ==> Written(HostEntries, k)
  {
    hide Get, HostEntries, Mapped;
    var h := Host([], "", "d", []);
    HostFields(h);
    forall k | k in HOST_FIELDS ensures Written(HostEntries, k) {
      assert Get(HostEntries(h), k).Some?;
    }
  }

  lemma PriceFieldsWritten()
    ensures forall k :: k in PRICE_FIELDS ==> Written(PriceEntries, k)
  {
    hide Get, PriceEntries, Mapped;
    var m := ModelPrice("", [""], None, None, Some(0.0), Some(0.0));
    PriceFields(m);
    NumberFields(m);
    forall k | k in PRICE_FIELDS ensures Written(PriceEntries, k) {
      assert Get(PriceEntries(m), k).Some?;
    }
  }

  lemma RouteFieldsWritten()
    ensures forall k :: k in ROUTE_FIELDS ==> Written(RouteEntries, k)
  {
    hide Get, RouteEntries, Mapped;
    var r := Route("", "d", []);
    RouteFields(r);
    forall k | k in ROUTE_FIELDS ensures Written(RouteEntries, k) {
      assert Get(RouteEntries(r), k).Some?;
    }
  }

  lemma MemberFieldsWritten()
    ensures forall k :: k in MEMBER_FIELDS ==> Written(MemberEntries, k)
  {
    hide Get, MemberEntries, Mapped;
    var e := RouteMember("", None);
    MemberFields(e);
    forall k | k in MEMBER_FIELDS ensures Written(MemberEntries, k) {
      assert Get(MemberEntries(e), k).Some?;
    }
  }

  lemma MemberFields(m: RouteMember)
    ensures Get(MemberEntries(m), Model).Some? && Get(MemberEntries(m), Cost).Some?
  {
    hide Get;
    GetAt(MemberEntries(m), 0);
    GetAt(MemberEntries(m), 1);
  }
}
