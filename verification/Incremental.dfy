/** The rules of a list, rephrased for a loop that takes its elements one at a time and
    remembers the keys it has seen. */
module Incremental {
  import opened Wrappers
  import opened ConfigTypes
  import opened Names
  import opened Sorting
  import opened Document
  import opened Rules

  // ----- lists that grow ------------------------------------------------------------------------

  lemma DistinctSnoc<T, K>(key: T -> K, s: seq<T>, x: T)
    ensures DistinctKeys(key, s + [x]) <==> DistinctKeys(key, s) && forall i :: 0 <= i < |s| ==> key(s[i]) != key(x)
  {
    if DistinctKeys(key, s + [x]) {
      forall i, j | 0 <= i < j < |s| ensures key(s[i]) != key(s[j]) {
        assert key((s + [x])[i]) != key((s + [x])[j]);
      }
      forall i | 0 <= i < |s| ensures key(s[i]) != key(x) {
        assert key((s + [x])[i]) != key((s + [x])[|s|]);
      }
    }
  }

  lemma MappedSnoc<T, U>(f: T -> U, s: seq<T>, i: nat)
    requires i < |s|
    ensures Mapped(f, s[..i + 1]) == Mapped(f, s[..i]) + [f(s[i])]
    ensures s[..i + 1] == s[..i] + [s[i]]
  {
  }

  lemma {:induction false} GetSnoc(es: seq<Entry>, e: Entry)
    ensures forall k :: Get(es + [e], k) == if Get(es, k).Some? then Get(es, k) else if e.key == k then Some(e.value) else None
  {
    if es != [] {
      assert (es + [e])[1..] == es[1..] + [e];
      GetSnoc(es[1..], e);
    }
  }

  lemma KeysSnoc(es: seq<Entry>, e: Entry, allowed: set<Field>)
    ensures KeysOk(es + [e], allowed) <==> KeysOk(es, allowed) && e.key in allowed && forall j :: 0 <= j < |es| ==> es[j].key != e.key
  {
    var all := es + [e];
    if KeysOk(all, allowed) {
      assert forall i :: 0 <= i < |es| ==> all[i] == es[i];
      assert all[|es|] == e;
    }
  }

  // ----- servers of a host ------------------------------------------------------------------------

  ghost predicate ServersOk(items: seq<Node>) {
    && (forall i :: 0 <= i < |items| ==> ServerShape(items[i]))
    && ServersProper(Mapped(ParseServer, items))
  }

  lemma ShapeIsMap(n: Node)
    ensures ServerShape(n) || HostShape(n) || PriceShape(n) || RouteShape(n) || MemberShape(n) ==> n.Map?
  {
  }

  /** Neither the id nor the port of n is among those of the items. */
  ghost predicate ServersFresh(items: seq<Node>, n: Node) {
    && (forall j :: 0 <= j < |items| ==> ServerId(ParseServer(items[j])) != ServerId(ParseServer(n)))
    && (forall j :: 0 <= j < |items| ==> PortOf(ParseServer(items[j])) != PortOf(ParseServer(n)))
  }

  /** A "seen" set holds exactly the keys of the elements so far. */
  ghost predicate KeysAre<T(!new), K(!new)>(key: T -> K, s: seq<T>, seen: set<K>) {
    forall k :: k in seen <==> exists j :: 0 <= j < |s| && key(s[j]) == k
  }

  lemma ServerUnseen(items: seq<Node>, n: Node, ids: set<string>, ports: set<int>)
    requires KeysAre(ServerId, Mapped(ParseServer, items), ids) && KeysAre(PortOf, Mapped(ParseServer, items), ports)
    ensures ServersFresh(items, n) <==> ParseServer(n).id !in ids && ParseServer(n).port !in ports
    ensures KeysAre(ServerId, Mapped(ParseServer, items) + [ParseServer(n)], ids + {ParseServer(n).id})
    ensures KeysAre(PortOf, Mapped(ParseServer, items) + [ParseServer(n)], ports + {ParseServer(n).port})
  {
    hide ParseServer;
    var ss, s := Mapped(ParseServer, items), ParseServer(n);
    KeysAreSnoc(ServerId, ss, s, ids);
    KeysAreSnoc(PortOf, ss, s, ports);
  }

  lemma KeysAreSnoc<T(!new), K(!new)>(key: T -> K, s: seq<T>, x: T, seen: set<K>)
    requires KeysAre(key, s, seen)
    ensures KeysAre(key, s + [x], seen + {key(x)})
  {
    assert (s + [x])[|s|] == x;
    forall k | k in seen ensures exists j :: 0 <= j < |s + [x]| && key((s + [x])[j]) == k {
      var j :| 0 <= j < |s| && key(s[j]) == k;
      assert (s + [x])[j] == s[j];
    }
  }

  lemma NoServers()
    ensures ServersOk([]) && KeysAre(ServerId, [], {}) && KeysAre(PortOf, [], {})
  {
  }

  lemma ServersSnoc(items: seq<Node>, n: Node)
    ensures ServersOk(items + [n]) <==>
      ServersOk(items) && ServerShape(n) && ServerProper(ParseServer(n)) && ServersFresh(items, n)
  {
    hide ServerShape, ServerProper, ParseServer;
    var a, b := items + [n], Mapped(ParseServer, items);
    assert Mapped(ParseServer, a) == b + [ParseServer(n)];
    DistinctSnoc(ServerId, b, ParseServer(n));
    DistinctSnoc(PortOf, b, ParseServer(n));
    if ServersOk(a) {
      assert forall i :: 0 <= i < |items| ==> a[i] == items[i];
      assert a[|items|] == n;
      assert forall i :: 0 <= i < |items| ==> Mapped(ParseServer, a)[i] == b[i];
      assert Mapped(ParseServer, a)[|items|] == ParseServer(n);
    }
  }

  // ----- hosts and their addresses -------------------------------------------------------------------

  ghost function Norms(addrs: seq<string>): set<string> {
    set i | 0 <= i < |addrs| :: NormalizeAddress(addrs[i])
  }

  /** The addresses of one host, given those of the hosts before. */
  ghost predicate AddressesOk(items: seq<Node>, before: set<string>) {
    && (forall i :: 0 <= i < |items| ==> AddressOk(items[i]))
    && (forall i :: 0 <= i < |items| ==> NormalizeAddress(StringOf(items[i])) !in before)
    && DistinctKeys(NormalizeAddress, Mapped(StringOf, items))
  }

  ghost predicate AddressOk(n: Node) {
    AsString(n).Some? && NormalizeAddress(StringOf(n)) != ""
  }

  lemma AddressSplit(n: Node)
    ensures AddressOk(n) <==> AsString(n).Some? && NormalizeAddress(AsString(n).value) != ""
    ensures AsString(n).Some? ==> StringOf(n) == AsString(n).value
  {
  }

  lemma NoAddresses(before: set<string>)
    ensures AddressesOk([], before) && Norms([]) == {} && Mapped(StringOf, []) == []
  {
  }

  lemma NormsSnoc(addrs: seq<string>, a: string)
    ensures Norms(addrs + [a]) == Norms(addrs) + {NormalizeAddress(a)}
  {
    hide NormalizeAddress;
    var all := addrs + [a];
    assert all[|addrs|] == a && forall i :: 0 <= i < |addrs| ==> all[i] == addrs[i];
    forall x | x in Norms(addrs) + {NormalizeAddress(a)} ensures x in Norms(all) {
      if x in Norms(addrs) {
        var i :| 0 <= i < |addrs| && NormalizeAddress(addrs[i]) == x;
        assert NormalizeAddress(all[i]) == x;
      } else {
        assert NormalizeAddress(all[|addrs|]) == x;
      }
    }
  }

  lemma AddressesSnoc(items: seq<Node>, n: Node, before: set<string>)
    ensures AddressesOk(items + [n], before) <==>
      && AddressesOk(items, before) && AddressOk(n)
      && NormalizeAddress(StringOf(n)) !in before + Norms(Mapped(StringOf, items))
  {
    hide NormalizeAddress, AddressOk, StringOf;
    var all, addrs := items + [n], Mapped(StringOf, items);
    assert Mapped(StringOf, all) == addrs + [StringOf(n)];
    DistinctSnoc(NormalizeAddress, addrs, StringOf(n));
    assert all[|items|] == n && forall i :: 0 <= i < |items| ==> all[i] == items[i];
    assert NormalizeAddress(StringOf(n)) in Norms(addrs) <==> exists i :: 0 <= i < |addrs| && NormalizeAddress(addrs[i]) == NormalizeAddress(StringOf(n));
  }

  lemma DistinctAppend<T, K>(key: T -> K, a: seq<T>, b: seq<T>)
    ensures DistinctKeys(key, a + b) <==>
      && DistinctKeys(key, a) && DistinctKeys(key, b)
      && forall i, j :: 0 <= i < |a| && 0 <= j < |b| ==> key(a[i]) != key(b[j])
  {
    var all := a + b;
    assert forall i :: 0 <= i < |a| ==> all[i] == a[i];
    assert forall j :: 0 <= j < |b| ==> all[|a| + j] == b[j];
    if DistinctKeys(key, all) {
      forall i, j | 0 <= i < j < |a| ensures key(a[i]) != key(a[j]) {
        assert key(all[i]) != key(all[j]);
      }
      forall i, j | 0 <= i < j < |b| ensures key(b[i]) != key(b[j]) {
        assert key(all[|a| + i]) != key(all[|a| + j]);
      }
      forall i, j | 0 <= i < |a| && 0 <= j < |b| ensures key(a[i]) != key(b[j]) {
        assert key(all[i]) != key(all[|a| + j]);
      }
    }
  }

  /** The fields of a host that are read before its lists. */
  ghost predicate HostNamed(es: seq<Entry>) {
    && KeysOk(es, HOST_FIELDS)
    && !Absent(es, Id) && StringOk(es, Id) && StringOk(es, Description) && IsID(StringAt(es, Id))
  }

  lemma HostParts(n: Node, before: set<string>)
    requires n.Map?
    ensures var es := n.entries;
      HostShape(n) && HostProper(ParseHost(n)) && AddressesOk(ItemsAt(es, HostAddresses), before) <==>
        && HostNamed(es)
        && Get(es, HostAddresses).Some? && Get(es, HostAddresses).value.List? && Get(es, HostAddresses).value.items != []
        && AddressesOk(Get(es, HostAddresses).value.items, before)
        && (Get(es, Servers).Some? ==> Get(es, Servers).value.List? && ServersOk(Get(es, Servers).value.items))
    ensures ParseHost(n).id == StringAt(n.entries, Id) && ParseHost(n).description == StringAt(n.entries, Description)
    ensures ParseHost(n).addresses == Mapped(StringOf, ItemsAt(n.entries, HostAddresses))
    ensures ParseHost(n).servers == Mapped(ParseServer, ItemsAt(n.entries, Servers))
  {
    hide KeysOk, IsID, Get, StringAt, StringOk, ServersProper, ServerShape, NormalizeAddress, ParseServer, DistinctKeys;
    NoServers();
  }

  ghost predicate HostsOk(items: seq<Node>) {
    && (forall i :: 0 <= i < |items| ==> HostShape(items[i]))
    && HostsProper(Mapped(ParseHost, items))
  }

  ghost predicate HostFresh(hs: seq<Host>, h: Host) {
    && (forall j :: 0 <= j < |hs| ==> HostId(hs[j]) != HostId(h))
    && DistinctKeys(NormalizeAddress, h.addresses)
    && (forall i, j :: 0 <= i < |Flat(Addresses, hs)| && 0 <= j < |h.addresses| ==>
          NormalizeAddress(Flat(Addresses, hs)[i]) != NormalizeAddress(h.addresses[j]))
  }

  lemma FlatSnoc<T>(f: T -> seq<string>, s: seq<T>, x: T)
    ensures Flat(f, s + [x]) == Flat(f, s) + f(x)
  {
    assert (s + [x])[..|s|] == s;
  }

  lemma HostsSnoc(items: seq<Node>, n: Node)
    ensures HostsOk(items + [n]) <==>
      HostsOk(items) && HostShape(n) && HostProper(ParseHost(n)) && HostFresh(Mapped(ParseHost, items), ParseHost(n))
  {
    hide HostShape, HostProper, ParseHost, NormalizeAddress, Flat;
    var a, b, h := items + [n], Mapped(ParseHost, items), ParseHost(n);
    assert Mapped(ParseHost, a) == b + [h];
    DistinctSnoc(HostId, b, h);
    FlatSnoc(Addresses, b, h);
    DistinctAppend(NormalizeAddress, Flat(Addresses, b), h.addresses);
    if HostsOk(a) {
      assert forall i :: 0 <= i < |items| ==> a[i] == items[i];
      assert a[|items|] == n;
      assert forall i :: 0 <= i < |items| ==> Mapped(ParseHost, a)[i] == b[i];
      assert Mapped(ParseHost, a)[|items|] == h;
    }
  }

  ghost predicate HostsSeen(hs: seq<Host>, ids: set<string>, addrs: set<string>) {
    KeysAre(HostId, hs, ids) && addrs == Norms(Flat(Addresses, hs))
  }

  lemma NoHosts()
    ensures HostsOk([]) && HostsSeen([], {}, {})
  {
  }

  lemma NormsAppend(a: seq<string>, b: seq<string>)
    ensures Norms(a + b) == Norms(a) + Norms(b)
  {
    hide NormalizeAddress;
    var all := a + b;
    forall x | x in Norms(a) + Norms(b) ensures x in Norms(all) {
      if x in Norms(a) {
        var i :| 0 <= i < |a| && NormalizeAddress(a[i]) == x;
        assert NormalizeAddress(all[i]) == x;
      } else {
        var i :| 0 <= i < |b| && NormalizeAddress(b[i]) == x;
        assert NormalizeAddress(all[|a| + i]) == x;
      }
    }
  }

  lemma HostSeenSnoc(hs: seq<Host>, h: Host, ids: set<string>, addrs: set<string>)
    requires HostsSeen(hs, ids, addrs)
    ensures HostsSeen(hs + [h], ids + {h.id}, addrs + Norms(h.addresses))
  {
    hide Norms, KeysAre, Flat;
    KeysAreSnoc(HostId, hs, h, ids);
    FlatSnoc(Addresses, hs, h);
    NormsAppend(Flat(Addresses, hs), h.addresses);
  }

  lemma AddressesFresh(hs: seq<Host>, h: Host, nodes: seq<Node>, ids: set<string>, addrs: set<string>)
    requires HostsSeen(hs, ids, addrs) && h.addresses == Mapped(StringOf, nodes)
    requires forall j :: 0 <= j < |nodes| ==> AddressOk(nodes[j])
    ensures HostFresh(hs, h) <==> h.id !in ids && AddressesOk(nodes, addrs)
  {
    hide NormalizeAddress, Flat, DistinctKeys, AddressOk, StringOf;
    var flat := Flat(Addresses, hs);
    assert forall j :: 0 <= j < |nodes| ==> h.addresses[j] == StringOf(nodes[j]);
    assert forall j :: 0 <= j < |nodes| ==>
      (NormalizeAddress(h.addresses[j]) in addrs <==> exists i :: 0 <= i < |flat| && NormalizeAddress(flat[i]) == NormalizeAddress(h.addresses[j]));
  }

  lemma HostUnseen(items: seq<Node>, n: Node, ids: set<string>, addrs: set<string>)
    requires HostsSeen(Mapped(ParseHost, items), ids, addrs)
    ensures HostShape(n) && HostProper(ParseHost(n)) ==>
      (HostFresh(Mapped(ParseHost, items), ParseHost(n))
       <==> ParseHost(n).id !in ids && AddressesOk(ItemsAt(Entries(n), HostAddresses), addrs))
    ensures HostsSeen(Mapped(ParseHost, items) + [ParseHost(n)], ids + {ParseHost(n).id}, addrs + Norms(ParseHost(n).addresses))
  {
    hide ServersProper, ServerShape, NormalizeAddress, Flat, ParseServer, IsID, Get, KeysOk, StringAt, DistinctKeys, Absent, ItemsAt;
    var hs, h, nodes := Mapped(ParseHost, items), ParseHost(n), ItemsAt(Entries(n), HostAddresses);
    HostSeenSnoc(hs, h, ids, addrs);
    if HostShape(n) && HostProper(h) {
      AddressesFresh(hs, h, nodes, ids, addrs);
    }
  }

  // ----- price entries ---------------------------------------------------------------------------

  ghost predicate AliasOk(n: Node) {
    AsString(n).Some? && IsPriceAlias(StringOf(n))
  }

  ghost predicate AliasesOk(items: seq<Node>) {
    && (forall i :: 0 <= i < |items| ==> AliasOk(items[i]))
    && DistinctKeys(Self, Mapped(StringOf, items))
  }

  lemma AliasesSnoc(items: seq<Node>, n: Node)
    ensures AliasesOk(items + [n]) <==> AliasesOk(items) && AliasOk(n) && StringOf(n) !in Mapped(StringOf, items)
  {
    hide AliasOk, StringOf;
    var all, texts := items + [n], Mapped(StringOf, items);
    assert Mapped(StringOf, all) == texts + [StringOf(n)];
    DistinctSnoc(Self, texts, StringOf(n));
    assert all[|items|] == n && forall i :: 0 <= i < |items| ==> all[i] == items[i];
  }

  /** All of a price entry's own rules; whether its names clash with others comes later. */
  ghost predicate EntryOk(n: Node) {
    PriceShape(n) && PriceProper(ParsePrice(n)) && DistinctKeys(Self, ParsePrice(n).aliases)
  }

  lemma EntryParts(n: Node)
    requires n.Map?
    ensures var es := n.entries;
      EntryOk(n) <==>
        && KeysOk(es, PRICE_FIELDS)
        && !Absent(es, Model) && StringOk(es, Model) && StringAt(es, Model) != "" && '@' !in StringAt(es, Model)
        && RealOk(es, Input) && RealOk(es, Output) && RealOk(es, CachedInput) && RealOk(es, ReasoningOutput)
        && PriceOk(RealAt(es, Input)) && PriceOk(RealAt(es, Output))
        && PriceOk(RealAt(es, CachedInput)) && PriceOk(RealAt(es, ReasoningOutput))
        && RealAt(es, Input).Some? && RealAt(es, Output).Some?
        && (Get(es, Aliases).Some? ==> Get(es, Aliases).value.List? && AliasesOk(Get(es, Aliases).value.items))
  {
    hide KeysOk, IsPriceAlias, Get, StringAt, RealAt, RealOk, StringOk, Absent;
  }

  ghost predicate EntriesOk(items: seq<Node>) {
    forall i :: 0 <= i < |items| ==> EntryOk(items[i])
  }

  lemma EntriesSnoc(items: seq<Node>, n: Node)
    ensures EntriesOk(items + [n]) <==> EntriesOk(items) && EntryOk(n)
  {
    hide EntryOk;
    var all := items + [n];
    assert all[|items|] == n && forall i :: 0 <= i < |items| ==> all[i] == items[i];
  }

  // ----- routes and their members ------------------------------------------------------------------

  ghost predicate MemberOk(n: Node, hs: seq<Host>) {
    MemberShape(n) && MemberProper(ParseMember(n), hs)
  }

  ghost predicate MembersOk(items: seq<Node>, hs: seq<Host>) {
    && (forall i :: 0 <= i < |items| ==> MemberOk(items[i], hs))
    && DistinctKeys(MemberModel, Mapped(ParseMember, items))
  }

  lemma MembersSnoc(items: seq<Node>, n: Node, hs: seq<Host>, models: set<string>)
    ensures KeysAre(MemberModel, Mapped(ParseMember, items), models) ==>
      && (MembersOk(items + [n], hs) <==> MembersOk(items, hs) && MemberOk(n, hs) && ParseMember(n).model !in models)
      && KeysAre(MemberModel, Mapped(ParseMember, items) + [ParseMember(n)], models + {ParseMember(n).model})
    ensures MembersOk(items + [n], hs) ==> MembersOk(items, hs)
  {
    hide MemberOk, ParseMember;
    var all, ms, m := items + [n], Mapped(ParseMember, items), ParseMember(n);
    assert Mapped(ParseMember, all) == ms + [m];
    DistinctSnoc(MemberModel, ms, m);
    assert all[|items|] == n && forall i :: 0 <= i < |items| ==> all[i] == items[i];
    if KeysAre(MemberModel, ms, models) {
      KeysAreSnoc(MemberModel, ms, m, models);
    }
  }

  ghost predicate RouteOk(n: Node, hs: seq<Host>) {
    RouteShape(n) && RouteProper(ParseRoute(n), hs)
  }

  /** The fields of a route that are read before its members. */
  ghost predicate RouteNamed(es: seq<Entry>) {
    && KeysOk(es, ROUTE_FIELDS)
    && !Absent(es, Alias) && StringOk(es, Alias) && StringOk(es, Description) && IsRouteAlias(StringAt(es, Alias))
  }

  lemma RouteParts(n: Node, hs: seq<Host>)
    requires n.Map?
    ensures var es := n.entries;
      RouteOk(n, hs) <==>
        && RouteNamed(es)
        && Get(es, Models).Some? && Get(es, Models).value.List? && Get(es, Models).value.items != []
        && MembersOk(Get(es, Models).value.items, hs)
    ensures ParseRoute(n).alias == StringAt(n.entries, Alias) && ParseRoute(n).description == StringAt(n.entries, Description)
    ensures ParseRoute(n).members == Mapped(ParseMember, ItemsAt(n.entries, Models))
  {
    hide KeysOk, IsRouteAlias, Get, StringAt, StringOk, MemberShape, MemberProper, ParseMember, DistinctKeys;
  }

  ghost predicate RoutesOk(items: seq<Node>, hs: seq<Host>) {
    && (forall i :: 0 <= i < |items| ==> RouteOk(items[i], hs))
    && DistinctKeys(RouteKey, Mapped(ParseRoute, items))
  }

  lemma RoutesSnoc(items: seq<Node>, n: Node, hs: seq<Host>, aliases: set<string>)
    ensures KeysAre(RouteKey, Mapped(ParseRoute, items), aliases) ==>
      && (RoutesOk(items + [n], hs) <==> RoutesOk(items, hs) && RouteOk(n, hs) && RouteKey(ParseRoute(n)) !in aliases)
      && KeysAre(RouteKey, Mapped(ParseRoute, items) + [ParseRoute(n)], aliases + {RouteKey(ParseRoute(n))})
    ensures RoutesOk(items + [n], hs) ==> RoutesOk(items, hs)
  {
    hide RouteOk, ParseRoute, RouteKey;
    var all, rs, r := items + [n], Mapped(ParseRoute, items), ParseRoute(n);
    assert Mapped(ParseRoute, all) == rs + [r];
    DistinctSnoc(RouteKey, rs, r);
    assert all[|items|] == n && forall i :: 0 <= i < |items| ==> all[i] == items[i];
    if KeysAre(RouteKey, rs, aliases) {
      KeysAreSnoc(RouteKey, rs, r, aliases);
    }
  }
}
