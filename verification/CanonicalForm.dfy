/** The canonical form validates again, is read back unchanged, and depends on nothing
    but what the configuration says. */
module CanonicalForm {
  import opened Wrappers
  import opened ConfigTypes
  import opened Strings
  import opened Names
  import opened Sorting
  import opened Document
  import opened Rules
  import opened Incremental
  import opened Canonical

  // ----- lists: sorting, mapping, flattening ---------------------------------------------------

  lemma SortMembers<T>(key: T -> string, s: seq<T>)
    ensures |SortBy(key, s)| == |s|
    ensures forall i :: 0 <= i < |s| ==> SortBy(key, s)[i] in s
    ensures forall i :: 0 <= i < |s| ==> s[i] in SortBy(key, s)
  {
    SortBySorted(key, s);
    SameBagSameMembers(SortBy(key, s), s);
  }

  lemma SameBagSameMembers<T>(a: seq<T>, b: seq<T>)
    requires multiset(a) == multiset(b)
    ensures forall i :: 0 <= i < |a| ==> a[i] in b
    ensures forall i :: 0 <= i < |b| ==> b[i] in a
  {
    assert forall x :: x in a <==> x in multiset(a);
    assert forall x :: x in b <==> x in multiset(b);
  }

  lemma DistinctSorted<T, K>(sort: T -> string, key: T -> K, s: seq<T>)
    requires DistinctKeys(key, s)
    ensures DistinctKeys(key, SortBy(sort, s))
  {
    SortBySorted(sort, s);
    DistinctPermuted(key, s, SortBy(sort, s));
  }

  lemma DistinctMapped<T, K>(key: T -> K, f: T -> T, s: seq<T>)
    requires DistinctKeys(key, s) && forall x :: key(f(x)) == key(x)
    ensures DistinctKeys(key, Mapped(f, s))
  {
  }

  lemma BagRemove<T>(a: seq<T>, k: nat)
    requires k < |a|
    ensures multiset(a) == multiset(a[..k] + a[k + 1..]) + multiset{a[k]}
  {
    assert a == a[..k] + [a[k]] + a[k + 1..];
  }

  lemma SameSize<T>(a: seq<T>, b: seq<T>)
    requires multiset(a) == multiset(b)
    ensures |a| == |b|
  {
    assert |multiset(a)| == |multiset(b)|;
  }

  lemma BagCancel<T>(a: multiset<T>, b: multiset<T>, x: T)
    requires a + multiset{x} == b + multiset{x}
    ensures a == b
  {
    assert a == (a + multiset{x}) - multiset{x};
  }

  /** Two lists of the same bag: where the first one's head is in the other, and what is left. */
  lemma HeadInBoth<T>(a: seq<T>, b: seq<T>) returns (k: nat)
    requires multiset(a) == multiset(b) && a != []
    ensures k < |b| && b[k] == a[0]
    ensures multiset(a[1..]) == multiset(b[..k] + b[k + 1..])
  {
    assert a[0] in multiset(a) && a[0] in multiset(b);
    k :| 0 <= k < |b| && b[k] == a[0];
    assert a[..0] + a[1..] == a[1..];
    BagRemove(a, 0);
    BagRemove(b, k);
    BagCancel(multiset(a[1..]), multiset(b[..k] + b[k + 1..]), a[0]);
  }

  lemma {:induction false} FlatAppend<T>(f: T -> seq<string>, a: seq<T>, b: seq<T>)
    ensures Flat(f, a + b) == Flat(f, a) + Flat(f, b)
  {
    if b == [] {
      assert a + b == a;
    } else {
      var n := |b| - 1;
      assert (a + b)[..|a| + n] == a + b[..n];
      FlatAppend(f, a, b[..n]);
    }
  }

  lemma FlatRemove<T>(f: T -> seq<string>, a: seq<T>, k: nat)
    requires k < |a|
    ensures multiset(Flat(f, a)) == multiset(Flat(f, a[..k] + a[k + 1..])) + multiset(f(a[k]))
  {
    hide Flat;
    var x, z := a[..k], a[k + 1..];
    assert a == x + [a[k]] + z;
    FlatAppend(f, x + [a[k]], z);
    FlatAppend(f, x, [a[k]]);
    FlatAppend(f, x, z);
    FlatOne(f, a[k]);
  }

  lemma FlatOne<T>(f: T -> seq<string>, x: T)
    ensures Flat(f, [x]) == f(x)
  {
    assert Flat(f, [x][..0]) == [];
  }

  lemma {:induction false} FlatBag<T>(f: T -> seq<string>, a: seq<T>, b: seq<T>)
    requires multiset(a) == multiset(b)
    ensures multiset(Flat(f, a)) == multiset(Flat(f, b))
  {
    hide Flat;
    SameSize(a, b);
    if a != [] {
      var k := HeadInBoth(a, b);
      assert a[..0] + a[1..] == a[1..];
      FlatRemove(f, a, 0);
      FlatRemove(f, b, k);
      FlatBag(f, a[1..], b[..k] + b[k + 1..]);
    }
  }

  lemma MappedRemove<T, U>(f: T -> U, a: seq<T>, k: nat)
    requires k < |a|
    ensures multiset(Mapped(f, a)) == multiset(Mapped(f, a[..k] + a[k + 1..])) + multiset{f(a[k])}
  {
    BagRemove(Mapped(f, a), k);
    assert Mapped(f, a[..k] + a[k + 1..]) == Mapped(f, a)[..k] + Mapped(f, a)[k + 1..];
  }

  lemma MappedHead<T, U>(f: T -> U, a: seq<T>)
    requires a != []
    ensures multiset(Mapped(f, a)) == multiset(Mapped(f, a[1..])) + multiset{f(a[0])}
  {
    assert Mapped(f, a) == [f(a[0])] + Mapped(f, a[1..]);
  }

  lemma {:induction false} MappedBag<T, U>(f: T -> U, a: seq<T>, b: seq<T>)
    requires multiset(a) == multiset(b)
    ensures multiset(Mapped(f, a)) == multiset(Mapped(f, b))
  {
    hide Mapped;
    SameSize(a, b);
    if a == [] {
      assert b == [];
    } else {
      var k := HeadInBoth(a, b);
      MappedHead(f, a);
      MappedRemove(f, b, k);
      MappedBag(f, a[1..], b[..k] + b[k + 1..]);
    }
  }

  /** Mapping each element to one that flattens to the same bag changes no bag. */
  lemma {:induction false} FlatMapped<T>(f: T -> seq<string>, g: T -> T, s: seq<T>)
    requires forall x :: multiset(f(g(x))) == multiset(f(x))
    ensures multiset(Flat(f, Mapped(g, s))) == multiset(Flat(f, s))
  {
    if s != [] {
      var n := |s| - 1;
      FlatMapped(f, g, s[..n]);
      assert Mapped(g, s)[..n] == Mapped(g, s[..n]);
    }
  }

  // ----- normalising keeps the rules ----------------------------------------------------------------

  lemma NormHostProper(h: Host)
    requires HostProper(h)
    ensures HostProper(NormHost(h))
  {
    hide ServerProper, IsID, NormalizeAddress, SortBy;
    SortMembers(ServerId, h.servers);
    DistinctSorted(ServerId, ServerId, h.servers);
    DistinctSorted(ServerId, PortOf, h.servers);
  }

  lemma NormHostsProper(hs: seq<Host>)
    requires HostsProper(hs)
    ensures HostsProper(Mapped(NormHost, SortBy(HostId, hs)))
  {
    hide HostProper, NormalizeAddress, Flat;
    var sorted := SortBy(HostId, hs);
    SortMembers(HostId, hs);
    SortBySorted(HostId, hs);
    DistinctSorted(HostId, HostId, hs);
    DistinctMapped(HostId, NormHost, sorted);
    FlatBag(Addresses, hs, sorted);
    FlatMapped(Addresses, NormHost, sorted);
    DistinctPermuted(NormalizeAddress, Flat(Addresses, hs), Flat(Addresses, Mapped(NormHost, sorted)));
    forall i | 0 <= i < |sorted| ensures HostProper(NormHost(sorted[i])) {
      assert sorted[i] in hs;
      NormHostProper(sorted[i]);
    }
  }

  lemma ClaimsNormalized(m: ModelPrice)
    ensures multiset(Claims(NormPrice(m))) == multiset(Claims(m))
  {
    SortBySorted(Self, m.aliases);
  }

  lemma NormPricesProper(p: Prices)
    requires PricesProper(p)
    ensures PricesProper(NormPrices(p))
  {
    hide IsPriceAlias, Flat, Claims, ToUpper;
    var ms := p.models;
    var sorted := SortBy(PriceModel, ms);
    SortMembers(PriceModel, ms);
    SortBySorted(PriceModel, ms);
    forall m ensures multiset(Claims(NormPrice(m))) == multiset(Claims(m)) {
      ClaimsNormalized(m);
    }
    FlatBag(Claims, ms, sorted);
    FlatMapped(Claims, NormPrice, sorted);
    DistinctPermuted(Self, Flat(Claims, ms), Flat(Claims, Mapped(NormPrice, sorted)));
    forall i | 0 <= i < |sorted| ensures PriceProper(NormPrice(sorted[i])) {
      assert sorted[i] in ms;
      SortMembers(Self, sorted[i].aliases);
    }
  }

  /** hs' has a server wherever hs has one. */
  ghost predicate Covers(hs': seq<Host>, hs: seq<Host>) {
    forall h, s :: h in hs && s in h.servers ==> HasServer(hs', h.id, s.id)
  }

  lemma RoutesStay(rs: seq<Route>, hs: seq<Host>, hs': seq<Host>)
    requires RoutesProper(rs, hs) && Covers(hs', hs)
    ensures RoutesProper(rs, hs')
  {
    hide IsRouteAlias, DistinctKeys;
    forall i | 0 <= i < |rs| ensures RouteProper(rs[i], hs') {
      forall j | 0 <= j < |rs[i].members| ensures MemberProper(rs[i].members[j], hs') {
        assert MemberProper(rs[i].members[j], hs);
      }
    }
  }

  lemma NormCovers(hs: seq<Host>)
    ensures Covers(Mapped(NormHost, SortBy(HostId, hs)), hs)
  {
    hide SortBy;
    var hs' := Mapped(NormHost, SortBy(HostId, hs));
    SortMembers(HostId, hs);
    forall h, s | h in hs && s in h.servers ensures HasServer(hs', h.id, s.id) {
      var i :| 0 <= i < |hs'| && SortBy(HostId, hs)[i] == h;
      SortMembers(ServerId, h.servers);
      assert hs'[i] in hs' && s in hs'[i].servers;
    }
  }

  lemma NormRoutesProper(rs: seq<Route>, hs: seq<Host>)
    requires RoutesProper(rs, hs)
    ensures RoutesProper(SortBy(RouteKey, rs), hs)
  {
    hide RouteProper;
    SortMembers(RouteKey, rs);
    DistinctSorted(RouteKey, RouteKey, rs);
  }

  lemma NormalizedProper(c: Config)
    requires Proper(c)
    ensures Proper(Normalized(c))
  {
    hide HostsProper, PricesProper, RoutesProper, Covers;
    NormHostsProper(c.hosts);
    NormCovers(c.hosts);
    if c.prices.Some? {
      NormPricesProper(c.prices.value);
    }
    if c.loadBalancer.Some? {
      NormRoutesProper(c.loadBalancer.value, c.hosts);
      RoutesStay(SortBy(RouteKey, c.loadBalancer.value), c.hosts, Normalized(c).hosts);
    }
  }

  // ----- writing the defaults out keeps the rules -----------------------------------------------------

  lemma SettleHostProper(h: Host)
    requires HostProper(h)
    ensures HostProper(SettleHost(h))
  {
    hide IsID, NormalizeAddress;
    DistinctMapped(ServerId, SettleServer, h.servers);
    DistinctMapped(PortOf, SettleServer, h.servers);
  }

  lemma SettleHostsProper(hs: seq<Host>)
    requires HostsProper(hs)
    ensures HostsProper(Mapped(SettleHost, hs)) && Covers(Mapped(SettleHost, hs), hs)
  {
    hide HostProper, NormalizeAddress, Flat;
    var hs' := Mapped(SettleHost, hs);
    DistinctMapped(HostId, SettleHost, hs);
    FlatMapped(Addresses, SettleHost, hs);
    DistinctPermuted(NormalizeAddress, Flat(Addresses, hs), Flat(Addresses, hs'));
    forall i | 0 <= i < |hs| ensures HostProper(hs'[i]) {
      SettleHostProper(hs[i]);
    }
    forall h, s | h in hs && s in h.servers ensures HasServer(hs', h.id, s.id) {
      var i :| 0 <= i < |hs| && hs[i] == h;
      var j :| 0 <= j < |h.servers| && h.servers[j] == s;
      assert hs'[i] in hs' && hs'[i].servers[j] in hs'[i].servers;
    }
  }

  lemma SettlePricesProper(p: Prices)
    requires PricesProper(p)
    ensures PricesProper(Prices(ToUpper(p.currency), Mapped(SettlePrice, p.models)))
  {
    hide IsPriceAlias, Flat, ToUpper;
    FlatMapped(Claims, SettlePrice, p.models);
    DistinctPermuted(Self, Flat(Claims, p.models), Flat(Claims, Mapped(SettlePrice, p.models)));
  }

  lemma SettleRoutesProper(rs: seq<Route>, hs: seq<Host>)
    requires RoutesProper(rs, hs)
    ensures RoutesProper(Mapped(SettleRoute, rs), hs)
  {
    hide IsRouteAlias, Configured, RouteKey;
    assert forall r: Route :: RouteKey(SettleRoute(r)) == RouteKey(r) by {
      forall r: Route ensures RouteKey(SettleRoute(r)) == RouteKey(r) {
        RouteKeySettled(r);
      }
    }
    DistinctMapped(RouteKey, SettleRoute, rs);
    forall i | 0 <= i < |rs| ensures RouteProper(SettleRoute(rs[i]), hs) {
      DistinctMapped(MemberModel, SettleMember, rs[i].members);
    }
  }

  lemma RouteKeySettled(r: Route)
    ensures RouteKey(SettleRoute(r)) == RouteKey(r)
  {
  }

  lemma SettledProper(c: Config)
    requires Proper(c)
    ensures Proper(Settle(c))
  {
    hide HostsProper, PricesProper, RoutesProper, Covers;
    SettleHostsProper(c.hosts);
    if c.prices.Some? {
      SettlePricesProper(c.prices.value);
    }
    if c.loadBalancer.Some? {
      SettleRoutesProper(c.loadBalancer.value, c.hosts);
      RoutesStay(Mapped(SettleRoute, c.loadBalancer.value), c.hosts, Mapped(SettleHost, c.hosts));
    }
  }

  // ----- normalising twice, printing twice --------------------------------------------------------------

  /** c is in order already. */
  ghost predicate Normal(c: Config) {
    && Sorted(HostId, c.hosts)
    && (forall i :: 0 <= i < |c.hosts| ==> Sorted(ServerId, c.hosts[i].servers))
    && (c.prices.Some? ==>
          && Sorted(PriceModel, c.prices.value.models)
          && forall i :: 0 <= i < |c.prices.value.models| ==> Sorted(Self, c.prices.value.models[i].aliases))
    && (c.loadBalancer.Some? ==> Sorted(RouteKey, c.loadBalancer.value))
  }

  lemma NormalizedIsNormal(c: Config)
    ensures Normal(Normalized(c))
  {
    hide SortBy;
    SortBySorted(HostId, c.hosts);
    forall h: Host ensures Sorted(ServerId, NormHost(h).servers) {
      SortBySorted(ServerId, h.servers);
    }
    forall m: ModelPrice ensures Sorted(Self, NormPrice(m).aliases) {
      SortBySorted(Self, m.aliases);
    }
    if c.prices.Some? {
      SortBySorted(PriceModel, c.prices.value.models);
    }
    if c.loadBalancer.Some? {
      SortBySorted(RouteKey, c.loadBalancer.value);
    }
  }

  /** What is in order stays as it is. */
  lemma NormalIsFixed(c: Config)
    requires Normal(c)
    ensures Normalized(c) == c
  {
    hide SortBy;
    SortedIsFixed(HostId, c.hosts);
    forall i | 0 <= i < |c.hosts| ensures NormHost(c.hosts[i]) == c.hosts[i] {
      SortedIsFixed(ServerId, c.hosts[i].servers);
    }
    if c.prices.Some? {
      var ms := c.prices.value.models;
      SortedIsFixed(PriceModel, ms);
      forall i | 0 <= i < |ms| ensures NormPrice(ms[i]) == ms[i] {
        SortedIsFixed(Self, ms[i].aliases);
      }
      assert Mapped(NormPrice, ms) == ms;
    }
    if c.loadBalancer.Some? {
      SortedIsFixed(RouteKey, c.loadBalancer.value);
    }
    assert Mapped(NormHost, c.hosts) == c.hosts;
  }

  /** Normalising is idempotent. */
  lemma NormalizeTwice(c: Config)
    ensures Normalized(Normalized(c)) == Normalized(c)
  {
    NormalizedIsNormal(c);
    NormalIsFixed(Normalized(c));
  }

  lemma SettleKeepsNormal(c: Config)
    requires Normal(c)
    ensures Normal(Settle(c))
  {
    hide ToUpper;
    forall r: Route ensures RouteKey(SettleRoute(r)) == RouteKey(r) {
      RouteKeySettled(r);
    }
  }

  lemma EmitServerSettled(s: Server)
    ensures EmitServer(SettleServer(s)) == EmitServer(s)
  {
  }

  lemma EmitHostSettled(h: Host)
    ensures EmitHost(SettleHost(h)) == EmitHost(h)
  {
    hide EmitServer, SettleServer;
    forall s: Server ensures EmitServer(SettleServer(s)) == EmitServer(s) {
      EmitServerSettled(s);
    }
    assert Mapped(EmitServer, Mapped(SettleServer, h.servers)) == Mapped(EmitServer, h.servers);
  }

  lemma EmitRouteSettled(r: Route)
    ensures EmitRoute(SettleRoute(r)) == EmitRoute(r)
  {
    assert Mapped(EmitMember, Mapped(SettleMember, r.members)) == Mapped(EmitMember, r.members);
  }

  /** Writing the defaults out changes nothing that is printed. */
  lemma EmitSettled(c: Config)
    requires c.prices.Some? ==> ToUpper(c.prices.value.currency) == c.prices.value.currency
    ensures Emit(Settle(c)) == Emit(c)
  {
    hide EmitHost, SettleHost, EmitRoute, SettleRoute, ToUpper;
    forall h: Host ensures EmitHost(SettleHost(h)) == EmitHost(h) {
      EmitHostSettled(h);
    }
    forall r: Route ensures EmitRoute(SettleRoute(r)) == EmitRoute(r) {
      EmitRouteSettled(r);
    }
    assert Mapped(EmitHost, Mapped(SettleHost, c.hosts)) == Mapped(EmitHost, c.hosts);
    if c.prices.Some? {
      var ms := c.prices.value.models;
      assert Mapped(EmitPrice, Mapped(SettlePrice, ms)) == Mapped(EmitPrice, ms);
    }
    if c.loadBalancer.Some? {
      var rs := c.loadBalancer.value;
      assert Mapped(EmitRoute, Mapped(SettleRoute, rs)) == Mapped(EmitRoute, rs);
    }
  }

  /** Printing, reading and printing again prints the same. */
  lemma PrintTwice(c: Config)
    requires c.prices.Some? ==> ToUpper(c.prices.value.currency) == c.prices.value.currency
    ensures Printed(Parse(Some(Printed(c)))) == Printed(c)
  {
    hide Emit, Settle, ToUpper;
    var n := Normalized(c);
    EmitThenParse(n);
    NormalizedIsNormal(c);
    SettleKeepsNormal(n);
    NormalIsFixed(Settle(n));
    EmitSettled(n);
  }

  /** The currency is as long as it has to be, if it is printed at all. */
  ghost predicate CurrencyFits(c: Config) {
    c.prices.Some? && c.prices.value.models != [] ==> Bytes(TrimSpace(c.prices.value.currency)) == 3
  }

  lemma CurrencyAsParsed(es: seq<Entry>)
    requires TopShape(Map(es)) && Section(es, PriceList).Some?
    ensures AllLetters(ParseTop(es).prices.value.currency)
  {
    hide HostsShape, RoutesShape, PriceShape, KeysOk, Get, TrimSpace, Bytes;
    CurrencyStays(StringAt(Entries(Section(es, PriceList).value), Currency));
  }

  lemma PrintsIfFits(d: Doc)
    requires Shape(d)
    ensures Parse(d).prices.Some? ==> AllLetters(Parse(d).prices.value.currency)
    ensures PrintsCurrency(Parse(d)) <==> CurrencyFits(Parse(d))
  {
    hide TopShape, AllLetters, TrimSpace, Bytes;
    if d.Some? && Parse(d).prices.Some? {
      TopIsMap(d.value);
      CurrencyAsParsed(d.value.entries);
    }
  }

  lemma TopIsMap(n: Node)
    ensures TopShape(n) ==> n.Map?
  {
  }

  lemma SameCurrency(c: Config)
    ensures PrintsCurrency(Normalized(c)) <==> PrintsCurrency(c)
    ensures CurrencyFits(Normalized(c)) <==> CurrencyFits(c)
  {
    hide IsIsoCurrency, TrimSpace, Bytes;
    if c.prices.Some? {
      SortBySorted(PriceModel, c.prices.value.models);
    }
  }

  /** For every valid document: its canonical form says the same by every rule and is its
      own canonical form; and it validates again if and only if the currency, as stored in
      upper case, still has three bytes or is not printed. */
  lemma CanonicalIsStable(d: Doc)
    requires Shape(d) && Proper(Parse(d))
    ensures var k := Printed(Parse(d));
      && Proper(Parse(Some(k)))
      && Printed(Parse(Some(k))) == k
      && (Shape(Some(k)) <==> CurrencyFits(Parse(d)))
  {
    hide HostsProper, RoutesProper, Emit, Settle, Normalized, Shape, Parse, PrintsCurrency, CurrencyFits;
    var c := Parse(d);
    NormalizedProper(c);
    SettledProper(Normalized(c));
    EmitThenParse(Normalized(c));
    SameCurrency(c);
    PrintsIfFits(d);
    PrintTwice(c);
  }

  /** A valid document whose canonical form is refused: one price, in the currency of
      CurrencyShrinks. */
  lemma CanonicalIsRefused() returns (d: Doc)
    ensures Shape(d) && Proper(Parse(d)) && !Shape(Some(Printed(Parse(d))))
  {
    hide Emit, Printed, Shape, Parse, IsIsoCurrency, TrimSpace, ToUpper;
    var m := ModelPrice("m", [], Some(1.0), Some(1.0), None, None);
    var c := Config([], Some(Prices("\U{0131}a", [m])), None);
    CurrencyShrinks();
    d := Some(Emit(c));
    EmitThenParse(c);
    SettledPrice(m, "\U{0131}a");
    CanonicalIsStable(d);
  }

  lemma SettledPrice(m: ModelPrice, currency: string)
    requires PriceProper(m) && m.aliases == []
    ensures Proper(Settle(Config([], Some(Prices(currency, [m])), None)))
    ensures Settle(Config([], Some(Prices(currency, [m])), None)).prices.Some?
    ensures Settle(Config([], Some(Prices(currency, [m])), None)).prices.value.currency == ToUpper(currency)
    ensures Settle(Config([], Some(Prices(currency, [m])), None)).prices.value.models != []
  {
    var p := Settle(Config([], Some(Prices(currency, [m])), None)).prices.value;
    assert p.models == [SettlePrice(m)];
    FlatOne(Claims, p.models[0]);
  }

  // ----- order does not matter, but for the members of a route --------------------------------------------

  ghost predicate SameHost(h: Host, g: Host) {
    h.(servers := []) == g.(servers := []) && multiset(h.servers) == multiset(g.servers)
  }

  ghost predicate SamePrice(m: ModelPrice, o: ModelPrice) {
    m.(aliases := []) == o.(aliases := []) && multiset(m.aliases) == multiset(o.aliases)
  }

  /** b has the elements of a, each one with its own list reordered, in any order. */
  ghost predicate Reordered<T(!new)>(same: (T, T) -> bool, a: seq<T>, b: seq<T>) {
    exists mid: seq<T> :: |mid| == |a| && (forall i :: 0 <= i < |a| ==> same(a[i], mid[i])) && multiset(mid) == multiset(b)
  }

  /** c and d say the same, listed in another order; members of a route keep theirs. */
  ghost predicate SameUpToOrder(c: Config, d: Config) {
    && Reordered(SameHost, c.hosts, d.hosts)
    && (c.prices.Some? <==> d.prices.Some?)
    && (c.prices.Some? ==> c.prices.value.currency == d.prices.value.currency
                           && Reordered(SamePrice, c.prices.value.models, d.prices.value.models))
    && (c.loadBalancer.Some? <==> d.loadBalancer.Some?)
    && (c.loadBalancer.Some? ==> multiset(c.loadBalancer.value) == multiset(d.loadBalancer.value))
  }

  /** Sorting, then putting each element in order, comes to the same for two lists that
      have the same elements in order, as long as the keys are distinct. */
  lemma ReorderedAgree<T(!new)>(key: T -> string, f: T -> T, a: seq<T>, mid: seq<T>, b: seq<T>)
    requires DistinctKeys(key, a) && (forall x :: key(f(x)) == key(x))
    requires |mid| == |a| && (forall i :: 0 <= i < |a| ==> f(a[i]) == f(mid[i])) && multiset(mid) == multiset(b)
    ensures Mapped(f, SortBy(key, a)) == Mapped(f, SortBy(key, b))
  {
    var x, y := Mapped(f, SortBy(key, a)), Mapped(f, SortBy(key, b));
    SortBySorted(key, a);
    SortBySorted(key, b);
    MappedBag(f, SortBy(key, a), a);
    MappedBag(f, SortBy(key, b), b);
    MappedBag(f, mid, b);
    assert Mapped(f, a) == Mapped(f, mid);
    DistinctPermuted(key, a, SortBy(key, a));
    DistinctMapped(key, f, SortBy(key, a));
    assert Sorted(key, x) && Sorted(key, y);
    SortedUnique(key, x, y);
  }

  lemma SameHostNorm(h: Host, g: Host)
    requires SameHost(h, g) && DistinctKeys(ServerId, h.servers)
    ensures NormHost(h) == NormHost(g)
  {
    SortPermuted(ServerId, h.servers, g.servers);
  }

  lemma SamePriceNorm(m: ModelPrice, o: ModelPrice)
    requires SamePrice(m, o) && DistinctKeys(Self, m.aliases)
    ensures NormPrice(m) == NormPrice(o)
  {
    SortPermuted(Self, m.aliases, o.aliases);
  }

  lemma SameHosts(a: seq<Host>, b: seq<Host>)
    requires HostsProper(a) && Reordered(SameHost, a, b)
    ensures Mapped(NormHost, SortBy(HostId, a)) == Mapped(NormHost, SortBy(HostId, b))
  {
    hide SortBy, NormalizeAddress, Flat, IsID;
    var mid: seq<Host> :| |mid| == |a| && (forall i :: 0 <= i < |a| ==> SameHost(a[i], mid[i])) && multiset(mid) == multiset(b);
    forall i | 0 <= i < |a| ensures NormHost(a[i]) == NormHost(mid[i]) {
      assert HostProper(a[i]);
      SameHostNorm(a[i], mid[i]);
    }
    ReorderedAgree(HostId, NormHost, a, mid, b);
  }

  lemma {:induction false} ClaimsApart(ms: seq<ModelPrice>)
    requires DistinctKeys(Self, Flat(Claims, ms))
    ensures DistinctKeys(PriceModel, ms)
    ensures forall i :: 0 <= i < |ms| ==> DistinctKeys(Self, ms[i].aliases)
  {
    if ms != [] {
      var n := |ms| - 1;
      var before, last := Flat(Claims, ms[..n]), Claims(ms[n]);
      SplitDistinct(before, last);
      ClaimsApart(ms[..n]);
      SplitDistinct([ms[n].model], ms[n].aliases);
      assert ms == ms[..n] + [ms[n]];
      forall i | 0 <= i < n ensures PriceModel(ms[i]) != PriceModel(ms[n]) && DistinctKeys(Self, ms[i].aliases) {
        assert ms[..n][i] == ms[i];
        ModelInClaims(ms[..n], i);
        assert last[0] == ms[n].model && ms[n].model in last;
      }
    }
  }

  lemma SplitDistinct(a: seq<string>, b: seq<string>)
    requires DistinctKeys(Self, a + b)
    ensures DistinctKeys(Self, a) && DistinctKeys(Self, b)
    ensures forall x, y :: x in a && y in b ==> x != y
  {
    DistinctAppend(Self, a, b);
    forall x, y | x in a && y in b ensures x != y {
      var i :| 0 <= i < |a| && a[i] == x;
      var j :| 0 <= j < |b| && b[j] == y;
      assert Self(a[i]) != Self(b[j]);
    }
  }

  lemma {:induction false} ModelInClaims(ms: seq<ModelPrice>, i: nat)
    requires i < |ms|
    ensures ms[i].model in Flat(Claims, ms)
  {
    var n := |ms| - 1;
    if i < n {
      assert ms[..n][i] == ms[i];
      ModelInClaims(ms[..n], i);
    } else {
      assert Claims(ms[n])[0] == ms[n].model;
    }
  }

  lemma SamePrices(a: Prices, b: Prices)
    requires PricesProper(a) && a.currency == b.currency && Reordered(SamePrice, a.models, b.models)
    ensures NormPrices(a) == NormPrices(b)
  {
    hide SortBy, Flat, PriceProper, ToUpper, DistinctKeys, Reordered, Mapped;
    ClaimsApart(a.models);
    SameEntries(a.models, b.models);
  }

  lemma SameEntries(ms: seq<ModelPrice>, ns: seq<ModelPrice>)
    requires DistinctKeys(PriceModel, ms) && (forall i :: 0 <= i < |ms| ==> DistinctKeys(Self, ms[i].aliases))
    requires Reordered(SamePrice, ms, ns)
    ensures Mapped(NormPrice, SortBy(PriceModel, ms)) == Mapped(NormPrice, SortBy(PriceModel, ns))
  {
    hide SortBy, DistinctKeys, Mapped, SamePrice, NormPrice;
    var mid: seq<ModelPrice> :| |mid| == |ms| && (forall i :: 0 <= i < |ms| ==> SamePrice(ms[i], mid[i]))
                                && multiset(mid) == multiset(ns);
    EntriesAgree(ms, mid);
    forall m: ModelPrice ensures PriceModel(NormPrice(m)) == PriceModel(m) {
      NormKeepsModel(m);
    }
    ReorderedAgree(PriceModel, NormPrice, ms, mid, ns);
  }

  lemma NormKeepsModel(m: ModelPrice)
    ensures PriceModel(NormPrice(m)) == PriceModel(m)
  {
  }

  lemma EntriesAgree(ms: seq<ModelPrice>, mid: seq<ModelPrice>)
    requires |mid| == |ms| && (forall i :: 0 <= i < |ms| ==> SamePrice(ms[i], mid[i]))
    requires forall i :: 0 <= i < |ms| ==> DistinctKeys(Self, ms[i].aliases)
    ensures forall i :: 0 <= i < |ms| ==> NormPrice(ms[i]) == NormPrice(mid[i])
  {
    hide SortBy, DistinctKeys;
    forall i | 0 <= i < |ms| ensures NormPrice(ms[i]) == NormPrice(mid[i]) {
      SamePriceNorm(ms[i], mid[i]);
    }
  }

  /** Hosts, servers, price entries, aliases and routes may be listed in any order:
      the canonical form is the same. */
  lemma OrderDoesNotMatter(c: Config, d: Config)
    requires Proper(c) && SameUpToOrder(c, d)
    ensures Printed(c) == Printed(d)
  {
    hide HostsProper, PricesProper, Reordered, Emit, SortBy, NormPrices;
    SameHosts(c.hosts, d.hosts);
    if c.prices.Some? {
      SamePrices(c.prices.value, d.prices.value);
    }
    if c.loadBalancer.Some? {
      SortPermuted(RouteKey, c.loadBalancer.value, d.loadBalancer.value);
    }
  }

  /** Two routes of one name print alike exactly when their members, with the costs
      written out, are the same in the same order: that order is part of what they say. */
  lemma MemberOrderMatters(r: Route, q: Route)
    requires r.alias == q.alias && r.description == q.description
    ensures EmitRoute(r) == EmitRoute(q) <==> Mapped(SettleMember, r.members) == Mapped(SettleMember, q.members)
  {
    RouteBack(r);
    RouteBack(q);
    if Mapped(SettleMember, r.members) == Mapped(SettleMember, q.members) {
      assert |r.members| == |Mapped(SettleMember, r.members)| == |q.members|;
      forall i | 0 <= i < |r.members| ensures EmitMember(r.members[i]) == EmitMember(q.members[i]) {
        assert Mapped(SettleMember, r.members)[i] == Mapped(SettleMember, q.members)[i];
        assert SettleMember(r.members[i]) == SettleMember(q.members[i]);
      }
      assert Mapped(EmitMember, r.members) == Mapped(EmitMember, q.members);
    }
  }
}
