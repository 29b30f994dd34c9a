/** The validator: loops over the document with maps of what was seen before, adding a
    violation for every rule broken and decoding as it goes. */
module Validation {
  import opened Wrappers
  import opened ConfigTypes
  import opened Strings
  import opened Names
  import opened Sorting
  import opened Document
  import opened Rules
  import opened Incremental
  import opened AddressForm

  datatype Step = Name(field: Field) | At(index: nat)

  type Path = seq<Step>

  datatype Problem = WrongKind | UnknownField | DuplicateKey | Missing | BadValue | Removed | Duplicate(other: Path)

  datatype Violation = Violation(path: Path, problem: Problem)

  datatype NameClaim = NameClaim(path: Path, name: string)

  // ----- price names claimed, whatever else is wrong ------------------------------------------

  ghost predicate Claimed(cs: seq<NameClaim>, name: string) {
    exists i :: 0 <= i < |cs| && cs[i].name == name
  }

  ghost function AliasClaims(path: Path, items: seq<Node>): seq<NameClaim> {
    if items == [] then []
    else
      var n := |items| - 1;
      var before := AliasClaims(path, items[..n]);
      var a := AsString(items[n]);
      if a.Some? && IsPriceAlias(a.value) && !Claimed(before, a.value)
      then before + [NameClaim(path + [At(n)], a.value)] else before
  }

  ghost function ModelClaims(path: Path, model: string): seq<NameClaim> {
    if model != "" && '@' !in model then [NameClaim(path + [Name(Model)], model)] else []
  }

  ghost function EntryClaims(path: Path, n: Node): seq<NameClaim> {
    ModelClaims(path, StringAt(Entries(n), Model))
    + AliasClaims(path + [Name(Aliases)], ItemsAt(Entries(n), Aliases))
  }

  ghost function PriceClaims(path: Path, items: seq<Node>): seq<NameClaim> {
    if items == [] then []
    else PriceClaims(path, items[..|items| - 1]) + EntryClaims(path + [At(|items| - 1)], items[|items| - 1])
  }

  function NameOf(c: NameClaim): string { c.name }

  class Validator {
    var v: seq<Violation>
    var hosts: seq<Host>
    var prices: Option<Prices>
    var routes: Option<seq<Route>>
    var seenHosts: map<string, Path>
    var seenAddresses: map<string, Path>
    var seenAliases: map<string, Path>
    var names: seq<NameClaim>

    constructor ()
      ensures v == [] && hosts == [] && prices == None && routes == None && names == []
      ensures seenHosts == map[] && seenAddresses == map[] && seenAliases == map[]
    {
      v, hosts, prices, routes, names := [], [], None, None, [];
      seenHosts, seenAddresses, seenAliases := map[], map[], map[];
    }

    method Add(path: Path, problem: Problem)
      modifies this`v
      ensures old(v) <= v
      ensures v == old(v) + [Violation(path, problem)]
    {
      v := v + [Violation(path, problem)];
    }

    // ----- fields -------------------------------------------------------------------------------

    /** The entries worth reading: each allowed key once. */
    method MapEntries(es: seq<Entry>, path: Path, allowed: set<Field>) returns (kept: seq<Entry>)
      modifies this`v
      ensures old(v) <= v
      ensures v == [] <==> old(v) == [] && KeysOk(es, allowed)
      ensures v == [] ==> kept == es
      ensures forall k :: k in allowed ==> Get(kept, k) == Get(es, k)
    {
      kept := [];
      var seen: set<Field> := {};
      for i := 0 to |es|
        invariant forall k :: k in seen <==> exists j :: 0 <= j < i && es[j].key == k
        invariant old(v) <= v
        invariant v == [] <==> old(v) == [] && KeysOk(es[..i], allowed)
        invariant v == [] ==> kept == es[..i]
        invariant forall k :: k in allowed ==> Get(kept, k) == Get(es[..i], k)
      {
        assert es[..i + 1] == es[..i] + [es[i]];
        GetSnoc(es[..i], es[i]);
        GetSnoc(kept, es[i]);
        KeysSnoc(es[..i], es[i], allowed);
        if es[i].key in seen {
          Add(path, DuplicateKey);
        } else {
          seen := seen + {es[i].key};
          if es[i].key !in allowed {
            Add(path + [Name(es[i].key)], UnknownField);
          } else {
            kept := kept + [es[i]];
          }
        }
      }
      assert es[..|es|] == es;
    }

    method Field(es: seq<Entry>, k: Field) returns (n: Option<Node>)
      ensures n == Get(es, k)
    {
      for i := 0 to |es|
        invariant forall j :: 0 <= j < i ==> es[j].key != k
      {
        if es[i].key == k {
          GetAt(es, i);
          return Some(es[i].value);
        }
      }
      n := None;
    }

    method StringField(es: seq<Entry>, path: Path, k: Field) returns (s: string)
      modifies this`v
      ensures old(v) <= v
      ensures s == StringAt(es, k)
      ensures v == [] <==> old(v) == [] && StringOk(es, k)
    {
      s := "";
      var n := Field(es, k);
      if n.Some? {
        var t := AsString(n.value);
        if t.None? {
          Add(path + [Name(k)], BadValue);
        } else {
          s := t.value;
        }
      }
    }

    method IntField(es: seq<Entry>, path: Path, k: Field) returns (i: int)
      modifies this`v
      ensures old(v) <= v
      ensures i == IntAt(es, k)
      ensures v == [] <==> old(v) == [] && IntOk(es, k)
    {
      i := 0;
      var n := Field(es, k);
      if n.Some? {
        var t := AsInt(n.value);
        if t.None? {
          Add(path + [Name(k)], BadValue);
        } else {
          i := t.value;
        }
      }
    }

    /** A price: absent, or a number that is not negative. */
    method PriceField(es: seq<Entry>, path: Path, k: Field) returns (p: Option<real>)
      modifies this`v
      ensures old(v) <= v
      ensures v == [] <==> old(v) == [] && RealOk(es, k) && PriceOk(RealAt(es, k))
      ensures v == [] ==> p == RealAt(es, k)
      ensures p.None? && RealAt(es, k).Some? ==> v != []
    {
      p := None;
      var n := Field(es, k);
      if n.Some? {
        var t := AsReal(n.value);
        if t.None? {
          Add(path + [Name(k)], BadValue);
        } else if t.value < 0.0 {
          Add(path + [Name(k)], BadValue);
        } else {
          p := t;
        }
      }
    }

    method Require(n: Option<Node>, path: Path)
      modifies this`v
      ensures old(v) <= v
      ensures v == [] <==> old(v) == [] && n.Some?
    {
      if n.None? {
        Add(path, Missing);
      }
    }

    // ----- hosts -------------------------------------------------------------------------------------

    method SchemeField(es: seq<Entry>, path: Path) returns (scheme: string)
      modifies this`v
      ensures old(v) <= v
      ensures v == [] <==> old(v) == [] && StringOk(es, Scheme) && (Absent(es, Scheme) || StringAt(es, Scheme) in {"http", "https"})
      ensures v == [] ==> scheme == StringAt(es, Scheme)
      ensures Absent(es, Scheme) ==> StringAt(es, Scheme) == ""
    {
      scheme := "";
      var n := Field(es, Scheme);
      if n.Some? {
        var t := AsString(n.value);
        if t.None? {
          Add(path + [Name(Scheme)], BadValue);
        } else if t.value != "http" && t.value != "https" {
          Add(path + [Name(Scheme)], BadValue);
        } else {
          scheme := t.value;
        }
      }
    }

    method IdOfServer(es: seq<Entry>, path: Path, perId: map<string, nat>, at: nat) returns (id: string, perId': map<string, nat>)
      modifies this`v
      ensures old(v) <= v
      ensures id == StringAt(es, Id)
      ensures v == [] <==> old(v) == [] && !Absent(es, Id) && StringOk(es, Id) && IsID(id) && id !in perId
      ensures v == [] ==> perId'.Keys == perId.Keys + {id}
    {
      perId' := perId;
      var n := Field(es, Id);
      Require(n, path);
      id := StringField(es, path, Id);
      if n.Some? {
        if !IsID(id) {
          Add(path + [Name(Id)], BadValue);
        } else {
          IdIsLower(id);
        }
        if ToLower(id) in perId {
          Add(path + [Name(Id)], Duplicate(path));
        } else {
          perId' := perId[ToLower(id) := at];
        }
      }
    }

    method PortOfServer(es: seq<Entry>, path: Path, perPort: map<int, nat>, at: nat) returns (port: int, perPort': map<int, nat>)
      modifies this`v
      ensures old(v) <= v
      ensures v == [] <==> old(v) == [] && !Absent(es, Port) && IntOk(es, Port) && 1 <= IntAt(es, Port) <= 65535
                           && IntAt(es, Port) !in perPort
      ensures v == [] ==> port == IntAt(es, Port) && perPort'.Keys == perPort.Keys + {port}
    {
      perPort', port := perPort, 0;
      var n := Field(es, Port);
      Require(n, path);
      if n.Some? {
        var t := AsInt(n.value);
        if t.None? {
          Add(path + [Name(Port)], BadValue);
        } else {
          port := t.value;
          if port < 1 || port > 65535 {
            Add(path + [Name(Port)], BadValue);
          }
          if port in perPort {
            Add(path + [Name(Port)], Duplicate(path));
          } else {
            perPort' := perPort[port := at];
          }
        }
      }
    }

    method ApiOfServer(es: seq<Entry>, path: Path) returns (api: string)
      modifies this`v
      ensures old(v) <= v
      ensures v == [] <==> old(v) == [] && !Absent(es, Api) && StringOk(es, Api) && StringAt(es, Api) in SUPPORTED
      ensures v == [] ==> api == StringAt(es, Api)
    {
      var n := Field(es, Api);
      Require(n, path);
      api := StringField(es, path, Api);
      if n.Some? && api !in SUPPORTED {
        Add(path + [Name(Api)], BadValue);
        api := "";
      }
    }

    method MaxConcurrencyField(es: seq<Entry>, path: Path) returns (mc: int)
      modifies this`v
      ensures old(v) <= v
      ensures v == [] <==> old(v) == [] && IntOk(es, MaxConcurrency) && IntAt(es, MaxConcurrency) >= 0
      ensures v == [] ==> mc == IntAt(es, MaxConcurrency)
    {
      mc := IntField(es, path, MaxConcurrency);
      if mc < 0 {
        Add(path + [Name(MaxConcurrency)], BadValue);
        mc := 0;
      }
    }

    method NoPostfix(es: seq<Entry>, path: Path)
      modifies this`v
      ensures old(v) <= v
      ensures v == [] <==> old(v) == [] && Absent(es, Postfix)
    {
      var n := Field(es, Postfix);
      if n.Some? {
        Add(path + [Name(Postfix)], Removed);
      }
    }

    method ServerEntry(path: Path, n: Node, perId: map<string, nat>, perPort: map<int, nat>, at: nat)
        returns (s: Server, perId': map<string, nat>, perPort': map<int, nat>)
      requires n.Map?
      modifies this`v
      ensures old(v) <= v
      ensures v == [] <==> old(v) == [] && ServerShape(n) && ServerProper(ParseServer(n))
                           && ParseServer(n).id !in perId && ParseServer(n).port !in perPort
      ensures v == [] ==> s == ParseServer(n) && perId'.Keys == perId.Keys + {s.id} && perPort'.Keys == perPort.Keys + {s.port}
    {
      hide KeysOk, IsID, Get, StringAt, IntAt, StringOk, IntOk, Absent;
      var kept := MapEntries(n.entries, path, SERVER_FIELDS);
      var description := StringField(kept, path, Description);
      NoPostfix(kept, path);
      var scheme := SchemeField(kept, path);
      var token := StringField(kept, path, AuthToken);
      var mc := MaxConcurrencyField(kept, path);
      var id, port, api;
      id, perId' := IdOfServer(kept, path, perId, at);
      port, perPort' := PortOfServer(kept, path, perPort, at);
      api := ApiOfServer(kept, path);
      s := Server(port, api, id, description, scheme, token, mc);
    }

    method ServerList(path: Path, n: Option<Node>) returns (ss: seq<Server>)
      modifies this`v
      ensures old(v) <= v
      ensures v == [] <==> old(v) == [] && (n.Some? ==> n.value.List? && ServersOk(n.value.items))
      ensures v == [] ==> ss == Mapped(ParseServer, if n.Some? then n.value.items else [])
    {
      hide ServersOk, ServerShape, ServerProper, ParseServer, ServerId, PortOf, KeysAre, ServersFresh;
      ss := [];
      if n.None? {
        return;
      }
      if !n.value.List? {
        Add(path, WrongKind);
        return;
      }
      var items := n.value.items;
      var perId: map<string, nat>, perPort: map<int, nat> := map[], map[];
      NoServers();
      assert perId.Keys == {} && perPort.Keys == {};
      for i := 0 to |items|
        invariant old(v) <= v
        invariant v == [] <==> old(v) == [] && ServersOk(items[..i])
        invariant v == [] ==> ss == Mapped(ParseServer, items[..i])
        invariant v == [] ==> KeysAre(ServerId, ss, perId.Keys) && KeysAre(PortOf, ss, perPort.Keys)
      {
        MappedSnoc(ParseServer, items, i);
        ServersSnoc(items[..i], items[i]);
        if v == [] {
          ServerUnseen(items[..i], items[i], perId.Keys, perPort.Keys);
        }
        if !items[i].Map? {
          Add(path + [At(i)], WrongKind);
          ShapeIsMap(items[i]);
        } else {
          var s;
          s, perId, perPort := ServerEntry(path + [At(i)], items[i], perId, perPort, i);
          ss := ss + [s];
        }
      }
      assert items[..|items|] == items;
    }

    method IdOfHost(es: seq<Entry>, path: Path) returns (id: string)
      modifies this`v, this`seenHosts
      ensures old(v) <= v
      ensures id == StringAt(es, Id)
      ensures v == [] <==> old(v) == [] && !Absent(es, Id) && StringOk(es, Id) && IsID(id) && id !in old(seenHosts)
      ensures v == [] ==> seenHosts.Keys == old(seenHosts).Keys + {id}
      ensures Takes(HostKey(es), path + [Name(Id)], old(seenHosts), seenHosts, v)
    {
      var n := Field(es, Id);
      Require(n, path);
      id := StringField(es, path, Id);
      if n.Some? {
        if !IsID(id) {
          Add(path + [Name(Id)], BadValue);
        } else {
          IdIsLower(id);
          if ToLower(id) in seenHosts {
            Add(path + [Name(Id)], Duplicate(seenHosts[ToLower(id)]));
            Add(seenHosts[ToLower(id)], Duplicate(path + [Name(Id)]));
            LastTwo(v);
          } else {
            seenHosts := seenHosts[ToLower(id) := path + [Name(Id)]];
          }
        }
      }
    }

    method AddressList(path: Path, n: Option<Node>, ghost keys: seq<Option<string>>, ghost paths: seq<Path>) returns (addrs: seq<string>)
      requires Tracks(keys, paths, seenAddresses, v)
      modifies this`v, this`seenAddresses
      ensures old(v) <= v
      ensures v == [] <==> old(v) == [] && n.Some? && n.value.List? && n.value.items != []
                           && AddressesOk(n.value.items, old(seenAddresses).Keys)
      ensures v == [] ==> addrs == Mapped(StringOf, n.value.items)
                          && seenAddresses.Keys == old(seenAddresses).Keys + Norms(addrs)
      ensures var items := Listed(n);
        Tracks(keys + AddressKeys(items), paths + AddressPaths(path, |items|), seenAddresses, v) && RepeatsReported(items, path, |items|, v)
    {
      hide Tracks, Takes, AddressKeys, AddressPaths, AddressKey, RepeatsReported, RepeatsSeen, Repeats, AddressesOk, AddressOk, NormalizeAddress, Norms;
      addrs := [];
      ghost var so0 := v;
      NoAddressTracked(keys, paths, path, seenAddresses, v);
      if n.None? {
        Add(path, Missing);
        TracksStay(keys, paths, seenAddresses, so0, v);
        NoAddressTracked(keys, paths, path, seenAddresses, v);
        return;
      }
      if !n.value.List? || |n.value.items| == 0 {
        Add(path, WrongKind);
        TracksStay(keys, paths, seenAddresses, so0, v);
        NoAddressTracked(keys, paths, path, seenAddresses, v);
        return;
      }
      var items := n.value.items;
      ghost var before := seenAddresses.Keys;
      var perHost: map<string, nat> := map[];
      NoAddresses(before);
      assert perHost.Keys == {} && items[..0] == [];
      for i := 0 to |items|
        invariant old(v) <= v
        invariant v == [] <==> old(v) == [] && AddressesOk(items[..i], before)
        invariant v == [] ==> addrs == Mapped(StringOf, items[..i])
        invariant v == [] ==> seenAddresses.Keys == before + Norms(addrs)
        invariant v == [] ==> perHost.Keys <= seenAddresses.Keys
        invariant RepeatsSeen(items[..i], perHost.Keys) && RepeatsReported(items, path, i, v)
        invariant Tracks(keys + AddressKeys(items[..i]), paths + AddressPaths(path, i), seenAddresses, v)
      {
        ghost var so, seen := v, seenAddresses;
        MappedSnoc(StringOf, items, i);
        AddressesSnoc(items[..i], items[i], before);
        AddressSplit(items[i]);
        NormsSnoc(Mapped(StringOf, items[..i]), StringOf(items[i]));
        AddressStep(items, path, i, perHost.Keys);
        var a;
        a, perHost := TakeAddress(path + [At(i)], path, items[i], perHost, i);
        AddressTracked(keys, paths, items, path, i, seen, so, seenAddresses, v);
        if a.Some? {
          addrs := addrs + [a.value];
        }
      }
      assert items[..|items|] == items;
    }

    /** One address: none, one that repeats another of its host, or one to be remembered. */
    method TakeAddress(at: Path, path: Path, n: Node, perHost: map<string, nat>, i: nat)
        returns (addr: Option<string>, perHost': map<string, nat>)
      modifies this`v, this`seenAddresses
      ensures old(v) <= v
      ensures var norm := NormalizeAddress(StringOf(n));
        && (v == [] <==> old(v) == [] && AddressOk(n) && norm !in perHost && norm !in old(seenAddresses))
        && addr == (if AddressOk(n) && norm !in perHost then Some(StringOf(n)) else None)
        && perHost'.Keys == (if AddressOk(n) then perHost.Keys + {norm} else perHost.Keys)
        && Takes(if AddressOk(n) && norm !in perHost then Some(norm) else None, at, old(seenAddresses), seenAddresses, v)
        && (AddressOk(n) && norm in perHost ==> Violation(at, Duplicate(path)) in v)
        && (v == [] ==> seenAddresses.Keys == old(seenAddresses).Keys + {norm})
    {
      hide AddressOk, NormalizeAddress, BothReported;
      AddressSplit(n);
      perHost', addr := perHost, None;
      var a := AsString(n);
      if a.None? {
        Add(at, BadValue);
        return;
      }
      var norm := NormalizeAddress(a.value);
      if norm == "" {
        Add(at, BadValue);
        return;
      }
      if norm in perHost {
        Add(at, Duplicate(path));
        LastOne(v);
        return;
      }
      perHost' := perHost[norm := i];
      if norm in seenAddresses {
        Add(at, Duplicate(seenAddresses[norm]));
        Add(seenAddresses[norm], Duplicate(at));
        LastTwoAre(v, at, seenAddresses[norm]);
      } else {
        seenAddresses := seenAddresses[norm := at];
      }
      addr := a;
    }

    method HostNames(path: Path, es: seq<Entry>) returns (kept: seq<Entry>, description: string, id: string)
      modifies this`v, this`seenHosts
      ensures old(v) <= v
      ensures v == [] <==> old(v) == [] && HostNamed(es) && StringAt(es, Id) !in old(seenHosts)
      ensures v == [] ==> kept == es && description == StringAt(es, Description) && id == StringAt(es, Id)
      ensures v == [] ==> seenHosts.Keys == old(seenHosts).Keys + {id}
      ensures Takes(HostKey(es), path + [Name(Id)], old(seenHosts), seenHosts, v)
      ensures Get(kept, HostAddresses) == Get(es, HostAddresses)
    {
      hide KeysOk, IsID, Get, StringAt, StringOk, Absent, Takes, HostKey;
      kept := MapEntries(es, path, HOST_FIELDS);
      SameHostKey(kept, es);
      description := StringField(kept, path, Description);
      id := IdOfHost(kept, path);
    }

    method HostEntry(path: Path, n: Node, ghost keys: seq<Option<string>>, ghost paths: seq<Path>) returns (h: Host)
      requires n.Map? && Tracks(keys, paths, seenAddresses, v)
      modifies this`v, this`seenHosts, this`seenAddresses
      ensures old(v) <= v
      ensures v == [] <==> old(v) == [] && HostShape(n) && HostProper(ParseHost(n)) && ParseHost(n).id !in old(seenHosts)
                           && AddressesOk(ItemsAt(n.entries, HostAddresses), old(seenAddresses).Keys)
      ensures v == [] ==> h == ParseHost(n) && seenHosts.Keys == old(seenHosts).Keys + {h.id}
                          && seenAddresses.Keys == old(seenAddresses).Keys + Norms(h.addresses)
      ensures Takes(HostKey(n.entries), path + [Name(Id)], old(seenHosts), seenHosts, v)
      ensures var items := Listed(Get(n.entries, HostAddresses));
        && Tracks(keys + AddressKeys(items), paths + AddressPaths(path + [Name(HostAddresses)], |items|), seenAddresses, v)
        && RepeatsReported(items, path + [Name(HostAddresses)], |items|, v)
    {
      hide Tracks, AddressKeys, AddressPaths, RepeatsReported, Listed, Takes, HostKey, HostNamed, Get, StringAt, ServersOk, AddressesOk, Norms, HostShape, HostProper, ParseHost, Mapped;
      HostParts(n, seenAddresses.Keys);
      var kept, description, id := HostNames(path, n.entries);
      ghost var so := v;
      TracksStay(keys, paths, seenAddresses, old(v), v);
      var listed := Field(kept, HostAddresses);
      var addrs := AddressList(path + [Name(HostAddresses)], listed, keys, paths);
      ghost var mid, items := v, Listed(listed);
      var servers := Field(kept, Servers);
      var ss := ServerList(path + [Name(Servers)], servers);
      h := Host(addrs, id, description, ss);
      TakesStays(HostKey(n.entries), path + [Name(Id)], old(seenHosts), seenHosts, so, v);
      TracksStay(keys + AddressKeys(items), paths + AddressPaths(path + [Name(HostAddresses)], |items|), seenAddresses, mid, v);
      RepeatsStay(items, path + [Name(HostAddresses)], mid, v);
    }

    method HostList(n: Node)
      requires hosts == [] && seenHosts == map[] && seenAddresses == map[]
      modifies this`v, this`hosts, this`seenHosts, this`seenAddresses
      ensures old(v) <= v
      ensures v == [] <==> old(v) == [] && n.List? && HostsOk(n.items)
      ensures v == [] ==> hosts == Mapped(ParseHost, n.items) && NoSharedAddress(hosts)
      ensures n.List? ==> HostTwins(n.items, v)
    {
      hide HostTwins, AllAddressKeys, AllAddressPaths, AddressKeys, AddressPaths, AllRepeatsReported, RepeatsReported, Listed, Tracks, Takes, HostKey, HostKeys, IdPaths, HostsOk, HostShape, HostProper, ParseHost, HostsSeen, HostFresh, AddressesOk, Norms, NoSharedAddress;
      if !n.List? {
        Add([Name(Hosts)], WrongKind);
        return;
      }
      var items := n.items;
      NoHosts();
      assert seenHosts.Keys == {} && seenAddresses.Keys == {};
      NothingTracked([], v);
      for i := 0 to |items|
        invariant Tracks(HostKeys(items[..i]), IdPaths(i), seenHosts, v)
        invariant Tracks(AllAddressKeys(items[..i]), AllAddressPaths(items[..i]), seenAddresses, v) && AllRepeatsReported(items, i, v)
        invariant old(v) <= v
        invariant v == [] <==> old(v) == [] && HostsOk(items[..i])
        invariant v == [] ==> hosts == Mapped(ParseHost, items[..i])
        invariant v == [] ==> HostsSeen(hosts, seenHosts.Keys, seenAddresses.Keys)
      {
        MappedSnoc(ParseHost, items, i);
        HostsSnoc(items[..i], items[i]);
        if v == [] {
          HostUnseen(items[..i], items[i], seenHosts.Keys, seenAddresses.Keys);
        }
        ghost var so, seen := v, seenHosts;
        HostKeysMore(items, i);
        HostAddressesMore(items, i);
        if !items[i].Map? {
          Add([Name(Hosts), At(i)], WrongKind);
          ShapeIsMap(items[i]);
          NoKeyTakes([Name(Hosts), At(i), Name(Id)], seenHosts, v);
          TracksStay(AllAddressKeys(items[..i]), AllAddressPaths(items[..i]), seenAddresses, so, v);
          NoRepeats([Name(Hosts), At(i), Name(HostAddresses)], v);
          assert AllAddressKeys(items[..i]) + [] == AllAddressKeys(items[..i]) && AllAddressPaths(items[..i]) + [] == AllAddressPaths(items[..i]);
        } else {
          var h := HostEntry([Name(Hosts), At(i)], items[i], AllAddressKeys(items[..i]), AllAddressPaths(items[..i]));
          assert [Name(Hosts), At(i)] + [Name(HostAddresses)] == [Name(Hosts), At(i), Name(HostAddresses)];
          hosts := hosts + [h];
          assert [Name(Hosts), At(i)] + [Name(Id)] == [Name(Hosts), At(i), Name(Id)];
        }
        TracksMore(HostKeys(items[..i]), IdPaths(i), seen, so, HostKeys(items)[i], [Name(Hosts), At(i), Name(Id)], seenHosts, v);
        AllRepeatsMore(items, i, so, v);
      }
      assert items[..|items|] == items;
      HostsTracked(items, seenHosts, seenAddresses, v);
      if v == [] {
        OkHostsShareNone(items);
      }
    }

    // ----- prices ------------------------------------------------------------------------------------

    method AliasList(path: Path, n: Option<Node>) returns (aliases: seq<string>)
      modifies this`v, this`names
      ensures old(v) <= v
      ensures var items := if n.Some? && n.value.List? then n.value.items else [];
        && names == old(names) + AliasClaims(path, items)
        && Mapped(NameOf, AliasClaims(path, items)) == aliases
        && (v == [] ==> aliases == Mapped(StringOf, items))
      ensures v == [] <==> old(v) == [] && (n.Some? ==> n.value.List? && AliasesOk(n.value.items))
    {
      hide AliasesOk, IsPriceAlias, AliasClaims;
      aliases := [];
      NoClaims(path);
      if n.None? {
        return;
      }
      if !n.value.List? {
        Add(path, WrongKind);
        return;
      }
      var items := n.value.items;
      for i := 0 to |items|
        invariant names == old(names) + AliasClaims(path, items[..i])
        invariant Mapped(NameOf, AliasClaims(path, items[..i])) == aliases
        invariant old(v) <= v
        invariant v == [] <==> old(v) == [] && AliasesOk(items[..i])
        invariant v == [] ==> aliases == Mapped(StringOf, items[..i])
      {
        MappedSnoc(StringOf, items, i);
        AliasesSnoc(items[..i], items[i]);
        ClaimsSnoc(path, items[..i], items[i]);
        var a := AsString(items[i]);
        if a.None? {
          Add(path + [At(i)], BadValue);
          continue;
        }
        if !IsPriceAlias(a.value) {
          Add(path + [At(i)], BadValue);
          continue;
        }
        var seen := Among(aliases, a.value);
        if seen {
          Add(path + [At(i)], Duplicate(path));
          continue;
        }
        aliases := aliases + [a.value];
        names := names + [NameClaim(path + [At(i)], a.value)];
      }
      assert items[..|items|] == items;
    }

    method Among(aliases: seq<string>, a: string) returns (seen: bool)
      ensures seen <==> a in aliases
    {
      seen := false;
      for j := 0 to |aliases|
        invariant seen <==> exists l :: 0 <= l < j && aliases[l] == a
      {
        if aliases[j] == a {
          seen := true;
        }
      }
    }

    method ModelField(es: seq<Entry>, path: Path) returns (model: string)
      modifies this`v, this`names
      ensures old(v) <= v
      ensures model == StringAt(es, Model)
      ensures v == [] <==> old(v) == [] && !Absent(es, Model) && StringOk(es, Model) && model != "" && '@' !in model
      ensures names == old(names) + ModelClaims(path, model)
    {
      var n := Field(es, Model);
      Require(n, path);
      model := StringField(es, path, Model);
      if n.Some? {
        if model == "" {
          Add(path + [Name(Model)], BadValue);
        } else if '@' in model {
          Add(path + [Name(Model)], BadValue);
        } else {
          names := names + [NameClaim(path + [Name(Model)], model)];
        }
      }
    }

    method PriceEntry(path: Path, n: Node) returns (mp: ModelPrice)
      modifies this`v, this`names
      ensures old(v) <= v
      ensures names == old(names) + EntryClaims(path, n)
      ensures v == [] <==> old(v) == [] && EntryOk(n)
      ensures v == [] ==> mp == ParsePrice(n) && Mapped(NameOf, EntryClaims(path, n)) == Claims(mp)
    {
      hide KeysOk, Get, StringAt, StringOk, Absent, RealAt, RealOk, AliasesOk, AliasClaims, EntryOk, ModelClaims;
      ShapeIsMap(n);
      mp := ModelPrice("", [], None, None, None, None);
      if !n.Map? {
        EntryIsMap(n);
        NoClaims(path + [Name(Aliases)]);
        NothingAt(Model);
        NoModelClaims(path);
        NothingAt(Aliases);
        Add(path, WrongKind);
        return;
      }
      EntryParts(n);
      var kept := MapEntries(n.entries, path, PRICE_FIELDS);
      SameAt(kept, n.entries, Model);
      SameAt(kept, n.entries, Aliases);
      var input := PriceField(kept, path, Input);
      var output := PriceField(kept, path, Output);
      var cached := PriceField(kept, path, CachedInput);
      var reasoning := PriceField(kept, path, ReasoningOutput);
      var model := ModelField(kept, path);
      if input.None? {
        Add(path, Missing);
      }
      if output.None? {
        Add(path, Missing);
      }
      var listed := Field(kept, Aliases);
      var aliases := AliasList(path + [Name(Aliases)], listed);
      ghost var more := AliasClaims(path + [Name(Aliases)], ItemsAt(n.entries, Aliases));
      EntryNames(path, model, more, aliases);
      Regroup(old(names), ModelClaims(path, model), more);
      mp := ModelPrice(model, aliases, input, output, cached, reasoning);
    }

    method CurrencyField(es: seq<Entry>, path: Path) returns (currency: string)
      modifies this`v
      ensures old(v) <= v
      ensures v == [] <==> old(v) == [] && !Absent(es, Currency) && StringOk(es, Currency) && IsIsoCurrency(StringAt(es, Currency))
      ensures v == [] ==> currency == ToUpper(StringAt(es, Currency))
    {
      currency := "";
      var n := Field(es, Currency);
      if n.Some? {
        var t := StringField(es, path, Currency);
        if AsString(n.value).Some? {
          if !IsIsoCurrency(t) {
            Add(path + [Name(Currency)], BadValue);
          } else {
            CurrencyIsLong(t);
            currency := ToUpper(t);
          }
        }
      }
      if currency == "" {
        Add(path, Missing);
      }
    }

    method PriceSection(n: Node)
      modifies this`v, this`names, this`prices
      ensures old(v) <= v
      ensures names == old(names) + PriceClaims([Name(PriceList), Name(Models)], ItemsAt(Entries(n), Models))
      ensures v == [] <==> old(v) == [] && (n.Null? || PricesOk(n))
      ensures n.Null? ==> prices == old(prices)
      ensures v == [] && !n.Null? ==> prices == Some(ParsePrices(n))
      ensures v == [] && !n.Null? ==>
        Mapped(NameOf, PriceClaims([Name(PriceList), Name(Models)], ItemsAt(Entries(n), Models))) == Flat(Claims, ParsePrices(n).models)
    {
      hide KeysOk, Get, StringAt, StringOk, Absent, EntriesOk, PriceClaims, IsIsoCurrency, Flat, Claims, ParsePrice, ToUpper;
      var path := [Name(PriceList)];
      assert path + [Name(Models)] == [Name(PriceList), Name(Models)];
      NoEntries(path + [Name(Models)]);
      NothingAt(Models);
      if n.Null? {
        return;
      }
      if !n.Map? {
        Add(path, WrongKind);
        return;
      }
      var kept := MapEntries(n.entries, path, PRICES_FIELDS);
      SameAt(kept, n.entries, Models);
      var currency := CurrencyField(kept, path);
      var listed := Field(kept, Models);
      var models := PriceModels(path + [Name(Models)], listed);
      prices := Some(Prices(currency, models));
    }

    method PriceModels(path: Path, n: Option<Node>) returns (models: seq<ModelPrice>)
      modifies this`v, this`names
      ensures old(v) <= v
      ensures var items := if n.Some? && n.value.List? then n.value.items else [];
        && names == old(names) + PriceClaims(path, items)
        && (v == [] ==> models == Mapped(ParsePrice, items) && Mapped(NameOf, PriceClaims(path, items)) == Flat(Claims, models))
      ensures v == [] <==> old(v) == [] && (n.Some? ==> n.value.List? && EntriesOk(n.value.items))
    {
      hide EntriesOk, PriceClaims, ParsePrice, Claims;
      models := [];
      NoEntries(path);
      if n.Some? {
        if !n.value.List? {
          Add(path, WrongKind);
        } else {
          models := EntryList(path, n.value.items);
        }
      }
    }

    method EntryList(path: Path, items: seq<Node>) returns (models: seq<ModelPrice>)
      modifies this`v, this`names
      ensures old(v) <= v
      ensures names == old(names) + PriceClaims(path, items)
      ensures v == [] <==> old(v) == [] && EntriesOk(items)
      ensures v == [] ==> models == Mapped(ParsePrice, items) && Mapped(NameOf, PriceClaims(path, items)) == Flat(Claims, models)
    {
      hide EntriesOk, EntryOk, PriceClaims, EntryClaims, ParsePrice, Claims, Flat;
      models := [];
      NoEntries(path);
      for i := 0 to |items|
        invariant names == old(names) + PriceClaims(path, items[..i])
        invariant old(v) <= v
        invariant v == [] <==> old(v) == [] && EntriesOk(items[..i])
        invariant v == [] ==> models == Mapped(ParsePrice, items[..i])
        invariant v == [] ==> Mapped(NameOf, PriceClaims(path, items[..i])) == Flat(Claims, models)
      {
        MappedSnoc(ParsePrice, items, i);
        EntriesSnoc(items[..i], items[i]);
        PriceClaimsSnoc(path, items[..i], items[i]);
        var mp := PriceEntry(path + [At(i)], items[i]);
        FlatSnoc(Claims, models, mp);
        models := models + [mp];
      }
      assert items[..|items|] == items;
    }

    // ----- routes ------------------------------------------------------------------------------------

    method KnownHost(id: string) returns (known: bool)
      ensures known <==> exists h :: h in hosts && h.id == id
    {
      for i := 0 to |hosts|
        invariant forall j :: 0 <= j < i ==> hosts[j].id != id
      {
        if hosts[i].id == id {
          return true;
        }
      }
      known := false;
    }

    /** Only the first host with the id is searched. */
    method KnownServer(hostId: string, id: string) returns (known: bool)
      ensures DistinctKeys(HostId, hosts) ==>
        (known <==> HasServer(hosts, hostId, id))
    {
      for i := 0 to |hosts|
        invariant forall j :: 0 <= j < i ==> hosts[j].id != hostId
      {
        if hosts[i].id != hostId {
          continue;
        }
        var ss := hosts[i].servers;
        assert DistinctKeys(HostId, hosts) ==> forall j :: 0 <= j < |hosts| && j != i ==> HostId(hosts[j]) != HostId(hosts[i]);
        for l := 0 to |ss|
          invariant forall j :: 0 <= j < l ==> ss[j].id != id
        {
          if ss[l].id == id {
            assert ss[l] in hosts[i].servers;
            return true;
          }
        }
        return false;
      }
      known := false;
    }

    method CostField(es: seq<Entry>, path: Path) returns (cost: Option<real>)
      modifies this`v
      ensures old(v) <= v
      ensures v == [] <==> old(v) == [] && RealOk(es, Cost) && (RealAt(es, Cost).Some? ==> RealAt(es, Cost).value > 0.0)
      ensures v == [] ==> cost == RealAt(es, Cost)
    {
      cost := None;
      var n := Field(es, Cost);
      if n.Some? {
        var t := AsReal(n.value);
        if t.None? {
          Add(path + [Name(Cost)], BadValue);
        } else if t.value <= 0.0 {
          Add(path + [Name(Cost)], BadValue);
        } else {
          cost := t;
        }
      }
    }

    method MemberName(es: seq<Entry>, path: Path) returns (model: string)
      requires v == [] ==> DistinctKeys(HostId, hosts)
      modifies this`v
      ensures old(v) <= v
      ensures model == StringAt(es, Model)
      ensures v == [] <==> old(v) == [] && !Absent(es, Model) && StringOk(es, Model) && Configured(hosts, model)
    {
      hide SplitPublishedID;
      var n := Field(es, Model);
      Require(n, path);
      model := StringField(es, path, Model);
      if n.Some? {
        var parts := SplitPublishedID(model);
        if model == "" {
          EmptySplits();
          Add(path + [Name(Model)], BadValue);
        } else if parts.None? {
          Add(path + [Name(Model)], BadValue);
        } else {
          var known := KnownHost(parts.value.host);
          if !known {
            Add(path + [Name(Model)], Missing);
          } else {
            known := KnownServer(parts.value.host, parts.value.segment);
            if !known {
              Add(path + [Name(Model)], Missing);
            }
          }
        }
      }
    }

    method MemberEntry(path: Path, n: Node) returns (m: RouteMember)
      requires v == [] ==> DistinctKeys(HostId, hosts)
      modifies this`v
      ensures old(v) <= v
      ensures v == [] <==> old(v) == [] && MemberOk(n, hosts)
      ensures v == [] ==> m == ParseMember(n)
    {
      hide KeysOk, Get, StringAt, StringOk, Absent, RealAt, RealOk, Configured, DistinctKeys;
      m := RouteMember("", None);
      if !n.Map? {
        Add(path, WrongKind);
        return;
      }
      var kept := MapEntries(n.entries, path, MEMBER_FIELDS);
      var cost := CostField(kept, path);
      var model := MemberName(kept, path);
      m := RouteMember(model, cost);
    }

    method MemberList(path: Path, n: Option<Node>) returns (ms: seq<RouteMember>)
      requires v == [] ==> DistinctKeys(HostId, hosts)
      modifies this`v
      ensures old(v) <= v
      ensures v == [] <==> old(v) == [] && n.Some? && n.value.List? && n.value.items != [] && MembersOk(n.value.items, hosts)
      ensures v == [] ==> ms == Mapped(ParseMember, n.value.items)
    {
      hide MemberOk, MembersOk, ParseMember, KeysAre, DistinctKeys;
      ms := [];
      if n.None? {
        Add(path, Missing);
        return;
      }
      if !n.value.List? || |n.value.items| == 0 {
        Add(path, WrongKind);
        return;
      }
      var items := n.value.items;
      var seen: map<string, nat> := map[];
      NoMembers(hosts);
      assert seen.Keys == {};
      for i := 0 to |items|
        invariant old(v) <= v
        invariant v == [] ==> old(v) == []
        invariant old(v) == [] ==> (v == [] <==> MembersOk(items[..i], hosts))
        invariant v == [] ==> ms == Mapped(ParseMember, items[..i])
        invariant v == [] ==> KeysAre(MemberModel, ms, seen.Keys)
      {
        MappedSnoc(ParseMember, items, i);
        MembersSnoc(items[..i], items[i], hosts, seen.Keys);
        MemberNamed(items[i], hosts);
        var m := MemberEntry(path + [At(i)], items[i]);
        ghost var before := seen.Keys;
        if m.model != "" {
          if m.model in seen {
            Add(path + [At(i)], Duplicate(path));
          } else {
            seen := seen[m.model := i];
            assert seen.Keys == before + {m.model};
          }
        }
        ms := ms + [m];
      }
      assert items[..|items|] == items;
    }

    method AliasField(es: seq<Entry>, path: Path) returns (alias: string)
      modifies this`v, this`seenAliases
      ensures old(v) <= v
      ensures alias == StringAt(es, Alias)
      ensures v == [] <==> old(v) == [] && !Absent(es, Alias) && StringOk(es, Alias) && IsRouteAlias(alias)
                           && ToLower(alias) !in old(seenAliases)
      ensures v == [] ==> seenAliases.Keys == old(seenAliases).Keys + {ToLower(alias)}
      ensures Takes(AliasKey(es), path + [Name(Alias)], old(seenAliases), seenAliases, v)
    {
      hide ToLower, IsRouteAlias;
      NotAnAlias();
      var n := Field(es, Alias);
      Require(n, path);
      alias := StringField(es, path, Alias);
      if n.Some? {
        if alias == "" {
          Add(path + [Name(Alias)], BadValue);
        } else if !IsRouteAlias(alias) {
          Add(path + [Name(Alias)], BadValue);
        } else if ToLower(alias) in seenAliases {
          Add(path + [Name(Alias)], Duplicate(seenAliases[ToLower(alias)]));
          Add(seenAliases[ToLower(alias)], Duplicate(path + [Name(Alias)]));
          LastTwo(v);
        } else {
          seenAliases := seenAliases[ToLower(alias) := path + [Name(Alias)]];
        }
      }
    }

    method RouteNames(path: Path, es: seq<Entry>) returns (kept: seq<Entry>, description: string, alias: string)
      modifies this`v, this`seenAliases
      ensures old(v) <= v
      ensures v == [] <==> old(v) == [] && RouteNamed(es) && ToLower(StringAt(es, Alias)) !in old(seenAliases)
      ensures v == [] ==> kept == es && description == StringAt(es, Description) && alias == StringAt(es, Alias)
      ensures v == [] ==> seenAliases.Keys == old(seenAliases).Keys + {ToLower(alias)}
      ensures Takes(AliasKey(es), path + [Name(Alias)], old(seenAliases), seenAliases, v)
    {
      hide KeysOk, IsRouteAlias, Get, StringAt, StringOk, Absent, ToLower, Takes, AliasKey;
      kept := MapEntries(es, path, ROUTE_FIELDS);
      SameAliasKey(kept, es);
      description := StringField(kept, path, Description);
      alias := AliasField(kept, path);
    }

    method RouteEntry(path: Path, n: Node) returns (r: Route)
      requires v == [] ==> DistinctKeys(HostId, hosts)
      modifies this`v, this`seenAliases
      ensures old(v) <= v
      ensures v == [] <==> old(v) == [] && RouteOk(n, hosts) && RouteKey(ParseRoute(n)) !in old(seenAliases)
      ensures v == [] ==> r == ParseRoute(n) && seenAliases.Keys == old(seenAliases).Keys + {RouteKey(r)}
      ensures Takes(if n.Map? then AliasKey(n.entries) else None, path + [Name(Alias)], old(seenAliases), seenAliases, v)
    {
      hide Takes, AliasKey, RouteNamed, Get, StringAt, MembersOk, RouteOk, DistinctKeys, ParseRoute, Mapped, ToLower;
      r := Route("", "", []);
      if !n.Map? {
        RouteIsMap(n, hosts);
        Add(path, WrongKind);
        NoKeyTakes(path + [Name(Alias)], seenAliases, v);
        return;
      }
      RouteParts(n, hosts);
      var kept, description, alias := RouteNames(path, n.entries);
      ghost var so := v;
      var listed := Field(kept, Models);
      var members := MemberList(path + [Name(Models)], listed);
      r := Route(alias, description, members);
      TakesStays(AliasKey(n.entries), path + [Name(Alias)], old(seenAliases), seenAliases, so, v);
    }

    method RouteList(path: Path, items: seq<Node>) returns (rs: seq<Route>)
      requires v == [] ==> DistinctKeys(HostId, hosts)
      requires seenAliases == map[]
      modifies this`v, this`seenAliases
      ensures old(v) <= v
      ensures v == [] <==> old(v) == [] && RoutesOk(items, hosts)
      ensures v == [] ==> rs == Mapped(ParseRoute, items)
      ensures TwiceReported(AliasKeys(items), AliasPaths(path, |items|), v)
    {
      hide TwiceReported, Tracks, Takes, AliasKey, AliasKeys, AliasPaths, RoutesOk, RouteOk, ParseRoute, KeysAre, DistinctKeys, RouteKey;
      rs := [];
      NoRoutes(hosts);
      assert seenAliases.Keys == {};
      NothingTracked(path, v);
      for i := 0 to |items|
        invariant Tracks(AliasKeys(items[..i]), AliasPaths(path, i), seenAliases, v)
        invariant old(v) <= v
        invariant v == [] ==> old(v) == []
        invariant old(v) == [] ==> (v == [] <==> RoutesOk(items[..i], hosts))
        invariant v == [] ==> rs == Mapped(ParseRoute, items[..i])
        invariant v == [] ==> KeysAre(RouteKey, rs, seenAliases.Keys)
      {
        MappedSnoc(ParseRoute, items, i);
        RoutesSnoc(items[..i], items[i], hosts, seenAliases.Keys);
        ghost var so, seen := v, seenAliases;
        AliasKeysMore(items, path, i);
        var r := RouteEntry(path + [At(i)], items[i]);
        rs := rs + [r];
        TracksMore(AliasKeys(items[..i]), AliasPaths(path, i), seen, so, AliasKeys(items)[i], path + [At(i)] + [Name(Alias)], seenAliases, v);
      }
      assert items[..|items|] == items;
      TracksTell(AliasKeys(items), AliasPaths(path, |items|), seenAliases, v);
    }

    method RouteSection(n: Node)
      requires v == [] ==> DistinctKeys(HostId, hosts)
      requires seenAliases == map[]
      modifies this`v, this`seenAliases, this`routes
      ensures old(v) <= v
      ensures v == [] <==> old(v) == [] && (n.Null? || (RoutesShape(n) && RoutesProper(ParseRoutes(n), hosts)))
      ensures n.Null? ==> routes == old(routes)
      ensures v == [] && !n.Null? ==> routes == Some(ParseRoutes(n))
      ensures RouteTwins(ItemsAt(Entries(n), Routes), v)
    {
      hide KeysOk, Get, RoutesOk, DistinctKeys, TwiceReported, AliasKeys, AliasPaths;
      NoTwins(v);
      NothingAt(Routes);
      var path := [Name(LoadBalancer)];
      NoRoutes(hosts);
      if n.Null? {
        return;
      }
      if !n.Map? {
        Add(path, WrongKind);
        NoTwins(v);
        return;
      }
      RoutesParts(n, hosts);
      var kept := MapEntries(n.entries, path, LB_FIELDS);
      var listed := Field(kept, Routes);
      var rs := [];
      NoTwins(v);
      if listed.Some? {
        if !listed.value.List? {
          Add(path + [Name(Routes)], WrongKind);
          NoTwins(v);
        } else {
          assert path + [Name(Routes)] == [Name(LoadBalancer), Name(Routes)];
          rs := RouteList(path + [Name(Routes)], listed.value.items);
        }
      }
      routes := Some(rs);
    }

    // ----- the whole document --------------------------------------------------------------------------

    /** Names claimed twice are reported at both places. */
    method CrossCheck()
      modifies this`v
      ensures old(v) <= v
      ensures v == [] <==> old(v) == [] && DistinctKeys(NameOf, names)
      ensures forall i, j :: 0 <= i < j < |names| && names[i].name == names[j].name ==> BothReported(v, names[i].path, names[j].path)
    {
      for i := 0 to |names|
        invariant old(v) <= v
        invariant v == [] <==> old(v) == [] && forall a, b :: 0 <= a < i && a < b < |names| ==> NameOf(names[a]) != NameOf(names[b])
        invariant forall a, b :: 0 <= a < i && a < b < |names| && names[a].name == names[b].name ==> BothReported(v, names[a].path, names[b].path)
      {
        ghost var so := v;
        for j := i + 1 to |names|
          invariant so <= v
          invariant v == [] <==> so == [] && forall b :: i < b < j ==> NameOf(names[i]) != NameOf(names[b])
          invariant forall b :: i < b < j && names[i].name == names[b].name ==> BothReported(v, names[i].path, names[b].path)
        {
          if names[i].name == names[j].name {
            Add(names[i].path, Duplicate(names[j].path));
            Add(names[j].path, Duplicate(names[i].path));
            assert v[|v| - 2] == Violation(names[i].path, Duplicate(names[j].path));
            assert v[|v| - 1] == Violation(names[j].path, Duplicate(names[i].path));
          }
        }
      }
    }

    method Top(n: Node) returns (hostsN: Option<Node>, pricesN: Option<Node>, balancerN: Option<Node>)
      requires n.Map? && v == []
      modifies this`v
      ensures old(v) <= v
      ensures v == [] <==> forall i :: 0 <= i < |n.entries| ==> n.entries[i].key in TOP_FIELDS
      ensures hostsN == GetLast(n.entries, Hosts) && pricesN == GetLast(n.entries, PriceList)
      ensures balancerN == GetLast(n.entries, LoadBalancer)
    {
      hostsN, pricesN, balancerN := None, None, None;
      var es := n.entries;
      for i := 0 to |es|
        invariant old(v) <= v
        invariant v == [] <==> forall j :: 0 <= j < i ==> es[j].key in TOP_FIELDS
        invariant hostsN == GetLast(es[..i], Hosts) && pricesN == GetLast(es[..i], PriceList)
        invariant balancerN == GetLast(es[..i], LoadBalancer)
      {
        assert es[..i + 1][..i] == es[..i];
        match es[i].key {
          case Hosts => hostsN := Some(es[i].value);
          case PriceList => pricesN := Some(es[i].value);
          case LoadBalancer => balancerN := Some(es[i].value);
          case _ => Add([], UnknownField);
        }
      }
      assert es[..|es|] == es;
    }

    method Document(n: Node)
      requires n.Map? && v == [] && hosts == [] && prices == None && routes == None && names == []
      requires seenHosts == map[] && seenAddresses == map[] && seenAliases == map[]
      modifies this
      ensures v == [] <==> TopShape(n) && Proper(ParseTop(n.entries))
      ensures v == [] ==> ParseTop(n.entries) == Config(hosts, prices, routes)
      ensures names == DocClaims(n.entries)
      ensures forall i, j :: 0 <= i < j < |names| && names[i].name == names[j].name ==> BothReported(v, names[i].path, names[j].path)
      ensures TwinsReported(n.entries, v)
    {
      hide HostTwins, RouteTwins, RouteNodes, HostsPart, PricesPart, NamesPart, RoutesPart, GetLast, Section, HostNodes, DocClaims, DistinctKeys, TopShape, Proper;
      var es := n.entries;
      TopParts(n);
      var hostsN, pricesN, balancerN := Top(n);
      HostsTurn(es, hostsN);
      ghost var afterHosts := v;
      PricesTurn(es, pricesN);
      RoutesTurn(es, balancerN);
      ghost var afterRoutes := v;
      CrossCheck();
      HostTwinsStay(HostNodes(es), afterHosts, v);
      RouteTwinsStay(RouteNodes(es), afterRoutes, v);
    }

    method HostsTurn(es: seq<Entry>, n: Option<Node>)
      requires n == GetLast(es, Hosts) && hosts == [] && seenHosts == map[] && seenAddresses == map[]
      modifies this`v, this`hosts, this`seenHosts, this`seenAddresses
      ensures old(v) <= v
      ensures v == [] <==> old(v) == [] && HostsPart(es)
      ensures v == [] ==> hosts == Mapped(ParseHost, HostNodes(es)) && DistinctKeys(HostId, hosts)
      ensures HostTwins(HostNodes(es), v)
    {
      hide HostsOk, GetLast, DistinctKeys, HostTwins;
      NoTwins(v);
      ListedHosts(es);
      HostsAreDistinct(es);
      if n.Some? {
        HostList(n.value);
        NoTwins(v);
      }
    }

    method PricesTurn(es: seq<Entry>, n: Option<Node>)
      requires n == GetLast(es, PriceList) && names == [] && prices == None
      modifies this`v, this`names, this`prices
      ensures old(v) <= v
      ensures v == [] <==> old(v) == [] && PricesPart(es)
      ensures v == [] ==> prices == match Section(es, PriceList) { case Some(n) => Some(ParsePrices(n)) case None => None }
      ensures names == DocClaims(es)
      ensures v == [] ==> (DistinctKeys(NameOf, names) <==> NamesPart(es))
    {
      hide PricesOk, GetLast, PriceClaims, DistinctKeys, Flat;
      NoEntries([Name(PriceList), Name(Models)]);
      NothingAt(Models);
      NoNames();
      if n.Some? {
        PriceSection(n.value);
      }
      NamesByText(names);
    }

    method RoutesTurn(es: seq<Entry>, n: Option<Node>)
      requires n == GetLast(es, LoadBalancer) && seenAliases == map[] && routes == None
      requires v == [] ==> hosts == Mapped(ParseHost, HostNodes(es)) && DistinctKeys(HostId, hosts)
      modifies this`v, this`seenAliases, this`routes
      ensures old(v) <= v
      ensures v == [] <==> old(v) == [] && RoutesPart(es)
      ensures v == [] ==> routes == match Section(es, LoadBalancer) { case Some(n) => Some(ParseRoutes(n)) case None => None }
      ensures RouteTwins(RouteNodes(es), v)
    {
      hide RoutesShape, RoutesProper, GetLast, DistinctKeys, HostNodes, RouteTwins;
      NoTwins(v);
      if n.Some? {
        RouteSection(n.value);
      }
    }
  }

  lemma EmptySplits()
    ensures SplitPublishedID("").None?
  {
  }

  lemma NoMembers(hs: seq<Host>)
    ensures MembersOk([], hs) && KeysAre(MemberModel, [], {})
  {
  }

  lemma MemberNamed(n: Node, hs: seq<Host>)
    ensures MemberOk(n, hs) ==> ParseMember(n).model != ""
  {
    EmptySplits();
  }

  lemma NoRoutes(hs: seq<Host>)
    ensures RoutesOk([], hs) && KeysAre(RouteKey, [], {})
  {
  }

  lemma RouteIsMap(n: Node, hs: seq<Host>)
    ensures RouteOk(n, hs) ==> n.Map?
  {
  }

  lemma RoutesParts(n: Node, hs: seq<Host>)
    requires n.Map?
    ensures RoutesShape(n) && RoutesProper(ParseRoutes(n), hs) <==>
      KeysOk(n.entries, LB_FIELDS) && ListOk(n.entries, Routes) && RoutesOk(ItemsAt(n.entries, Routes), hs)
  {
    hide KeysOk, Get, RouteShape, RouteProper, DistinctKeys, ParseRoute;
  }

  ghost predicate BothReported(v: seq<Violation>, a: Path, b: Path) {
    Violation(a, Duplicate(b)) in v && Violation(b, Duplicate(a)) in v
  }

  // ----- what stands twice is reported at both places ----------------------------------------------

  ghost predicate IsFirst(keys: seq<Option<string>>, k: string, f: nat)
    ensures IsFirst(keys, k, f) ==> f < |keys|
  {
    f < |keys| && keys[f] == Some(k) && forall j :: 0 <= j < f ==> keys[j] != Some(k)
  }

  /** Keys seen at these places, each remembered where it first stood; wherever one stands
      again, both places carry a violation that names the other. */
  ghost predicate Tracks(keys: seq<Option<string>>, paths: seq<Path>, seen: map<string, Path>, v: seq<Violation>)
  {
    && |keys| == |paths|
    && (forall k :: k in seen ==> exists f: nat :: IsFirst(keys, k, f) && seen[k] == paths[f])
    && (forall j :: 0 <= j < |keys| && keys[j].Some? ==> keys[j].value in seen)
    && (forall j, f: nat :: 0 <= j < |keys| && keys[j].Some? && f < j && IsFirst(keys, keys[j].value, f) ==> BothReported(v, paths[f], paths[j]))
  }

  /** What one more place does to what was seen and reported. */
  ghost predicate Takes(key: Option<string>, path: Path, seen: map<string, Path>, seen': map<string, Path>, v: seq<Violation>) {
    match key
    case None => seen' == seen
    case Some(k) => if k in seen then seen' == seen && BothReported(v, seen[k], path) else seen' == seen[k := path]
  }

  lemma LastTwo(v: seq<Violation>)
    requires |v| >= 2
    ensures v[|v| - 1] in v && v[|v| - 2] in v
  {
  }

  lemma TakesStays(key: Option<string>, path: Path, seen: map<string, Path>, seen': map<string, Path>, so: seq<Violation>, v: seq<Violation>)
    requires Takes(key, path, seen, seen', so) && so <= v
    ensures Takes(key, path, seen, seen', v)
  {
  }

  lemma NoKeyTakes(path: Path, seen: map<string, Path>, v: seq<Violation>)
    ensures Takes(None, path, seen, seen, v)
  {
  }

  lemma NothingTracked(path: Path, v: seq<Violation>)
    ensures Tracks(HostKeys([]), IdPaths(0), map[], v) && Tracks(AliasKeys([]), AliasPaths(path, 0), map[], v)
    ensures Tracks(AllAddressKeys([]), AllAddressPaths([]), map[], v) && forall items :: AllRepeatsReported(items, 0, v)
  {
  }

  lemma FirstStays(keys: seq<Option<string>>, key: Option<string>, k: string, f: nat)
    ensures IsFirst(keys + [key], k, f) <==>
      IsFirst(keys, k, f) || (f == |keys| && key == Some(k) && forall j :: 0 <= j < |keys| ==> keys[j] != Some(k))
  {
    assert f < |keys| ==> forall j :: 0 <= j <= f ==> (keys + [key])[j] == keys[j];
    assert f == |keys| ==> (keys + [key])[f] == key && forall j :: 0 <= j < f ==> (keys + [key])[j] == keys[j];
  }

  lemma TracksMore(keys: seq<Option<string>>, paths: seq<Path>, seen: map<string, Path>, so: seq<Violation>,
                   key: Option<string>, path: Path, seen': map<string, Path>, v: seq<Violation>)
    requires Tracks(keys, paths, seen, so) && so <= v && Takes(key, path, seen, seen', v)
    ensures Tracks(keys + [key], paths + [path], seen', v)
  {
    hide IsFirst, BothReported;
    var keys', paths' := keys + [key], paths + [path];
    forall k | k in seen' ensures exists f: nat :: IsFirst(keys', k, f) && seen'[k] == paths'[f] {
      FirstOf(keys, paths, seen, key, path, seen', k);
    }
    forall j, f: nat | 0 <= j < |keys'| && keys'[j].Some? && f < j && IsFirst(keys', keys'[j].value, f)
      ensures BothReported(v, paths'[f], paths'[j])
    {
      FirstStays(keys, key, keys'[j].value, f);
      if j < |keys| {
        ReportStays(so, v, paths[f], paths[j]);
      } else {
        SeenAtFirst(keys, paths, seen, so, key.value, f);
        SeenIsTaken(key.value, path, seen, seen', v);
      }
    }
  }

  lemma SeenIsTaken(k: string, path: Path, seen: map<string, Path>, seen': map<string, Path>, v: seq<Violation>)
    requires Takes(Some(k), path, seen, seen', v) && k in seen
    ensures BothReported(v, seen[k], path)
  {
  }

  lemma ReportStays(so: seq<Violation>, v: seq<Violation>, a: Path, b: Path)
    requires so <= v && BothReported(so, a, b)
    ensures BothReported(v, a, b)
  {
  }

  lemma SeenAtFirst(keys: seq<Option<string>>, paths: seq<Path>, seen: map<string, Path>, v: seq<Violation>, k: string, f: nat)
    requires Tracks(keys, paths, seen, v) && IsFirst(keys, k, f)
    ensures k in seen && seen[k] == paths[f]
  {
    assert keys[f].value in seen;
    var g: nat :| IsFirst(keys, k, g) && seen[k] == paths[g];
    assert f == g;
  }

  lemma FirstOf(keys: seq<Option<string>>, paths: seq<Path>, seen: map<string, Path>, key: Option<string>, path: Path,
                seen': map<string, Path>, k: string)
    requires |keys| == |paths| && (forall k :: k in seen ==> exists f: nat :: IsFirst(keys, k, f) && seen[k] == paths[f])
    requires forall j :: 0 <= j < |keys| && keys[j].Some? ==> keys[j].value in seen
    requires k in seen' && (seen' == seen || (key.Some? && key.value !in seen && seen' == seen[key.value := path]))
    ensures exists f: nat :: IsFirst(keys + [key], k, f) && seen'[k] == (paths + [path])[f]
  {
    if k in seen {
      var f: nat :| IsFirst(keys, k, f) && seen[k] == paths[f];
      FirstStays(keys, key, k, f);
      assert (paths + [path])[f] == paths[f];
    } else {
      FirstStays(keys, key, k, |keys|);
      assert (paths + [path])[|keys|] == path;
    }
  }

  /** The id of a host, as far as it is one. */
  ghost function HostKey(es: seq<Entry>): Option<string> {
    if Get(es, Id).Some? && IsID(StringAt(es, Id)) then Some(StringAt(es, Id)) else None
  }

  ghost function HostKeys(items: seq<Node>): (keys: seq<Option<string>>)
    ensures |keys| == |items|
  {
    seq(|items|, i requires 0 <= i < |items| => if items[i].Map? then HostKey(items[i].entries) else None)
  }

  ghost function IdPaths(n: nat): (paths: seq<Path>)
    ensures |paths| == n && forall i :: 0 <= i < n ==> paths[i] == [Name(Hosts), At(i), Name(Id)]
  {
    seq(n, i requires 0 <= i < n => [Name(Hosts), At(i), Name(Id)])
  }

  /** The alias of a route up to case, as far as it is one. */
  ghost function AliasKey(es: seq<Entry>): Option<string> {
    if Get(es, Alias).Some? && IsRouteAlias(StringAt(es, Alias)) then Some(ToLower(StringAt(es, Alias))) else None
  }

  ghost function AliasKeys(items: seq<Node>): (keys: seq<Option<string>>)
    ensures |keys| == |items|
  {
    seq(|items|, i requires 0 <= i < |items| => if items[i].Map? then AliasKey(items[i].entries) else None)
  }

  ghost function AliasPaths(path: Path, n: nat): (paths: seq<Path>)
    ensures |paths| == n && forall i :: 0 <= i < n ==> paths[i] == path + [At(i)] + [Name(Alias)]
  {
    seq(n, i requires 0 <= i < n => path + [At(i)] + [Name(Alias)])
  }

  lemma NotAnAlias()
    ensures !IsRouteAlias("")
  {
  }

  lemma SameAliasKey(kept: seq<Entry>, es: seq<Entry>)
    requires Get(kept, Alias) == Get(es, Alias)
    ensures AliasKey(kept) == AliasKey(es)
  {
  }

  lemma AliasKeysMore(items: seq<Node>, path: Path, i: nat)
    requires i < |items|
    ensures AliasKeys(items[..i + 1]) == AliasKeys(items[..i]) + [AliasKeys(items)[i]]
    ensures AliasPaths(path, i + 1) == AliasPaths(path, i) + [path + [At(i)] + [Name(Alias)]]
    ensures AliasKeys(items)[i] == if items[i].Map? then AliasKey(items[i].entries) else None
  {
  }

  // Addresses, over all hosts. A second spelling on one host is reported there and is not
  // looked at any further.

  ghost function Listed(n: Option<Node>): seq<Node> {
    if n.Some? && n.value.List? then n.value.items else []
  }

  /** The address at place q stands on the host before. */
  ghost predicate Repeats(items: seq<Node>, q: nat)
    requires q < |items|
  {
    exists p :: 0 <= p < q && AddressOk(items[p]) && NormalizeAddress(StringOf(items[p])) == NormalizeAddress(StringOf(items[q]))
  }

  ghost function AddressKey(items: seq<Node>, q: nat): Option<string>
    requires q < |items|
  {
    if AddressOk(items[q]) && !Repeats(items, q) then Some(NormalizeAddress(StringOf(items[q]))) else None
  }

  ghost function AddressKeys(items: seq<Node>): (keys: seq<Option<string>>)
    ensures |keys| == |items| && forall q :: 0 <= q < |items| ==> keys[q] == AddressKey(items, q)
  {
    seq(|items|, q requires 0 <= q < |items| => AddressKey(items, q))
  }

  ghost function AddressPaths(path: Path, n: nat): (paths: seq<Path>)
    ensures |paths| == n && forall q :: 0 <= q < n ==> paths[q] == path + [At(q)]
  {
    seq(n, q requires 0 <= q < n => path + [At(q)])
  }

  /** What of the addresses of one host is known: their normal forms. */
  ghost predicate RepeatsSeen(items: seq<Node>, seen: set<string>) {
    forall k :: k in seen <==> exists p :: 0 <= p < |items| && AddressOk(items[p]) && NormalizeAddress(StringOf(items[p])) == k
  }

  /** The first n addresses of the host that repeat another of it are reported. */
  ghost predicate RepeatsReported(items: seq<Node>, path: Path, n: nat, v: seq<Violation>)
    requires n <= |items|
  {
    forall q :: 0 <= q < n && AddressOk(items[q]) && Repeats(items, q) ==> Violation(path + [At(q)], Duplicate(path)) in v
  }

  ghost function HostAddressNodes(n: Node): seq<Node> {
    if n.Map? then Listed(Get(n.entries, HostAddresses)) else []
  }

  ghost function AllAddressKeys(items: seq<Node>): seq<Option<string>> {
    if items == [] then [] else AllAddressKeys(items[..|items| - 1]) + AddressKeys(HostAddressNodes(items[|items| - 1]))
  }

  ghost function AllAddressPaths(items: seq<Node>): seq<Path> {
    if items == [] then []
    else
      AllAddressPaths(items[..|items| - 1])
      + AddressPaths([Name(Hosts), At(|items| - 1), Name(HostAddresses)], |HostAddressNodes(items[|items| - 1])|)
  }

  ghost predicate AllRepeatsReported(items: seq<Node>, n: nat, v: seq<Violation>)
    requires n <= |items|
  {
    forall i :: 0 <= i < n ==>
      RepeatsReported(HostAddressNodes(items[i]), [Name(Hosts), At(i), Name(HostAddresses)], |HostAddressNodes(items[i])|, v)
  }

  lemma HostAddressesMore(items: seq<Node>, i: nat)
    requires i < |items|
    ensures var nodes := HostAddressNodes(items[i]);
      && AllAddressKeys(items[..i + 1]) == AllAddressKeys(items[..i]) + AddressKeys(nodes)
      && AllAddressPaths(items[..i + 1]) == AllAddressPaths(items[..i]) + AddressPaths([Name(Hosts), At(i), Name(HostAddresses)], |nodes|)
      && nodes == (if items[i].Map? then Listed(Get(items[i].entries, HostAddresses)) else [])
  {
    hide AddressKeys, AddressPaths, HostAddressNodes;
    assert items[..i + 1][..i] == items[..i];
    NodesAre(items[i]);
  }

  lemma NodesAre(n: Node)
    ensures HostAddressNodes(n) == if n.Map? then Listed(Get(n.entries, HostAddresses)) else []
  {
  }

  lemma NoRepeats(path: Path, v: seq<Violation>)
    ensures RepeatsReported([], path, 0, v) && AddressKeys([]) == [] && AddressPaths(path, 0) == []
  {
  }

  lemma RepeatsStay(items: seq<Node>, path: Path, so: seq<Violation>, v: seq<Violation>)
    requires RepeatsReported(items, path, |items|, so) && so <= v
    ensures RepeatsReported(items, path, |items|, v)
  {
  }

  lemma AllRepeatsMore(items: seq<Node>, i: nat, so: seq<Violation>, v: seq<Violation>)
    requires i < |items| && AllRepeatsReported(items, i, so) && so <= v
    requires RepeatsReported(HostAddressNodes(items[i]), [Name(Hosts), At(i), Name(HostAddresses)], |HostAddressNodes(items[i])|, v)
    ensures AllRepeatsReported(items, i + 1, v)
  {
    hide RepeatsReported, HostAddressNodes;
    forall j | 0 <= j < i
      ensures RepeatsReported(HostAddressNodes(items[j]), [Name(Hosts), At(j), Name(HostAddresses)], |HostAddressNodes(items[j])|, v)
    {
      RepeatsStay(HostAddressNodes(items[j]), [Name(Hosts), At(j), Name(HostAddresses)], so, v);
    }
  }

  lemma TracksStay(keys: seq<Option<string>>, paths: seq<Path>, seen: map<string, Path>, so: seq<Violation>, v: seq<Violation>)
    requires Tracks(keys, paths, seen, so) && so <= v
    ensures Tracks(keys, paths, seen, v)
  {
  }

  lemma NoAddressTracked(keys: seq<Option<string>>, paths: seq<Path>, path: Path, seen: map<string, Path>, v: seq<Violation>)
    requires Tracks(keys, paths, seen, v)
    ensures Tracks(keys + AddressKeys([]), paths + AddressPaths(path, 0), seen, v) && AddressKeys([]) == []
    ensures RepeatsSeen([], {})
    ensures forall items :: RepeatsReported(items, path, 0, v)
  {
    assert keys + [] == keys && paths + [] == paths;
  }

  lemma LastOne(v: seq<Violation>)
    requires |v| >= 1
    ensures v[|v| - 1] in v
  {
  }

  lemma LastTwoAre(v: seq<Violation>, a: Path, b: Path)
    requires |v| >= 2 && v[|v| - 2] == Violation(a, Duplicate(b)) && v[|v| - 1] == Violation(b, Duplicate(a))
    ensures BothReported(v, b, a)
  {
  }

  /** What one more address of the host is, told from the forms seen on it. */
  lemma AddressStep(items: seq<Node>, path: Path, i: nat, seen: set<string>)
    requires i < |items| && RepeatsSeen(items[..i], seen)
    ensures var norm := NormalizeAddress(StringOf(items[i]));
      && AddressKeys(items[..i + 1]) == AddressKeys(items[..i]) + [if AddressOk(items[i]) && norm !in seen then Some(norm) else None]
      && AddressPaths(path, i + 1) == AddressPaths(path, i) + [path + [At(i)]]
      && RepeatsSeen(items[..i + 1], if AddressOk(items[i]) then seen + {norm} else seen)
      && (Repeats(items, i) <==> norm in seen)
      && AddressKey(items, i) == if AddressOk(items[i]) && norm !in seen then Some(norm) else None
  {
    hide AddressOk, NormalizeAddress, StringOf;
    var a, b := items[..i + 1], items[..i];
    assert forall q :: 0 <= q < i ==> a[q] == b[q] == items[q];
    assert a[i] == items[i];
    assert AddressKeys(a) == AddressKeys(b) + [AddressKey(items, i)] by {
      forall q | 0 <= q < i ensures AddressKey(a, q) == AddressKey(b, q) {
      }
    }
  }

  lemma AddressTracked(keys: seq<Option<string>>, paths: seq<Path>, items: seq<Node>, path: Path, i: nat,
                       seen: map<string, Path>, so: seq<Violation>, seen': map<string, Path>, v: seq<Violation>)
    requires i < |items| && so <= v && Tracks(keys + AddressKeys(items[..i]), paths + AddressPaths(path, i), seen, so)
    requires Takes(AddressKey(items, i), path + [At(i)], seen, seen', v)
    requires RepeatsReported(items, path, i, so)
    requires AddressOk(items[i]) && Repeats(items, i) ==> Violation(path + [At(i)], Duplicate(path)) in v
    requires AddressKeys(items[..i + 1]) == AddressKeys(items[..i]) + [AddressKey(items, i)]
    requires AddressPaths(path, i + 1) == AddressPaths(path, i) + [path + [At(i)]]
    ensures Tracks(keys + AddressKeys(items[..i + 1]), paths + AddressPaths(path, i + 1), seen', v)
    ensures RepeatsReported(items, path, i + 1, v)
  {
    hide Tracks, Takes, AddressKeys, AddressPaths, AddressKey, AddressOk;
    TracksMore(keys + AddressKeys(items[..i]), paths + AddressPaths(path, i), seen, so, AddressKey(items, i), path + [At(i)], seen', v);
    assert keys + AddressKeys(items[..i + 1]) == keys + AddressKeys(items[..i]) + [AddressKey(items, i)];
    assert paths + AddressPaths(path, i + 1) == paths + AddressPaths(path, i) + [path + [At(i)]];
  }

  /** Whatever key stands at a place for the first time and then again: both are reported. */
  ghost predicate TwiceReported(keys: seq<Option<string>>, paths: seq<Path>, v: seq<Violation>)
    requires |keys| == |paths|
  {
    forall j, f: nat :: 0 <= j < |keys| && keys[j].Some? && f < j && IsFirst(keys, keys[j].value, f) ==> BothReported(v, paths[f], paths[j])
  }

  lemma TracksTell(keys: seq<Option<string>>, paths: seq<Path>, seen: map<string, Path>, v: seq<Violation>)
    requires Tracks(keys, paths, seen, v)
    ensures |keys| == |paths| && TwiceReported(keys, paths, v)
  {
  }

  lemma TwiceStays(keys: seq<Option<string>>, paths: seq<Path>, so: seq<Violation>, v: seq<Violation>)
    requires |keys| == |paths| && TwiceReported(keys, paths, so) && so <= v
    ensures TwiceReported(keys, paths, v)
  {
  }

  /** Host ids that stand twice, and addresses that do, are reported at both places; one that
      stands twice on a host, at the second. */
  ghost predicate HostTwins(items: seq<Node>, v: seq<Violation>) {
    && TwiceReported(HostKeys(items), IdPaths(|items|), v)
    && |AllAddressKeys(items)| == |AllAddressPaths(items)| && TwiceReported(AllAddressKeys(items), AllAddressPaths(items), v)
    && AllRepeatsReported(items, |items|, v)
  }

  /** So are route aliases that stand twice. */
  ghost predicate RouteTwins(items: seq<Node>, v: seq<Violation>) {
    TwiceReported(AliasKeys(items), AliasPaths([Name(LoadBalancer), Name(Routes)], |items|), v)
  }

  lemma HostsTracked(items: seq<Node>, ids: map<string, Path>, addrs: map<string, Path>, v: seq<Violation>)
    requires Tracks(HostKeys(items), IdPaths(|items|), ids, v) && Tracks(AllAddressKeys(items), AllAddressPaths(items), addrs, v)
    requires AllRepeatsReported(items, |items|, v)
    ensures HostTwins(items, v)
  {
    hide Tracks, TwiceReported, AllAddressKeys, AllAddressPaths, AllRepeatsReported, HostKeys, IdPaths;
    TracksTell(HostKeys(items), IdPaths(|items|), ids, v);
    TracksTell(AllAddressKeys(items), AllAddressPaths(items), addrs, v);
  }

  lemma NoTwins(v: seq<Violation>)
    ensures HostTwins([], v) && RouteTwins([], v)
  {
  }

  lemma HostTwinsStay(items: seq<Node>, so: seq<Violation>, v: seq<Violation>)
    requires HostTwins(items, so) && so <= v
    ensures HostTwins(items, v)
  {
    hide TwiceReported, AllAddressKeys, AllAddressPaths, HostKeys, IdPaths, RepeatsReported, HostAddressNodes;
    TwiceStays(HostKeys(items), IdPaths(|items|), so, v);
    TwiceStays(AllAddressKeys(items), AllAddressPaths(items), so, v);
    forall i | 0 <= i < |items|
      ensures RepeatsReported(HostAddressNodes(items[i]), [Name(Hosts), At(i), Name(HostAddresses)], |HostAddressNodes(items[i])|, v)
    {
      RepeatsStay(HostAddressNodes(items[i]), [Name(Hosts), At(i), Name(HostAddresses)], so, v);
    }
  }

  /** The nodes of the routes that count. */
  ghost function RouteNodes(es: seq<Entry>): seq<Node> {
    match GetLast(es, LoadBalancer)
    case Some(n) => ItemsAt(Entries(n), Routes)
    case None => []
  }

  /** What of a document stands twice is reported at both places. */
  ghost predicate TwinsReported(es: seq<Entry>, v: seq<Violation>) {
    HostTwins(HostNodes(es), v) && RouteTwins(RouteNodes(es), v)
  }

  lemma RouteTwinsStay(items: seq<Node>, so: seq<Violation>, v: seq<Violation>)
    requires RouteTwins(items, so) && so <= v
    ensures RouteTwins(items, v)
  {
    hide TwiceReported, AliasKeys, AliasPaths;
    TwiceStays(AliasKeys(items), AliasPaths([Name(LoadBalancer), Name(Routes)], |items|), so, v);
  }

  lemma SameHostKey(kept: seq<Entry>, es: seq<Entry>)
    requires Get(kept, Id) == Get(es, Id)
    ensures HostKey(kept) == HostKey(es)
  {
  }

  lemma HostKeysMore(items: seq<Node>, i: nat)
    requires i < |items|
    ensures HostKeys(items[..i + 1]) == HostKeys(items[..i]) + [HostKeys(items)[i]]
    ensures IdPaths(i + 1) == IdPaths(i) + [[Name(Hosts), At(i), Name(Id)]]
    ensures HostKeys(items)[i] == if items[i].Map? then HostKey(items[i].entries) else None
  {
  }

  ghost function DocClaims(es: seq<Entry>): seq<NameClaim> {
    match GetLast(es, PriceList)
    case Some(n) => PriceClaims([Name(PriceList), Name(Models)], ItemsAt(Entries(n), Models))
    case None => []
  }

  lemma NoNames()
    ensures DistinctKeys(NameOf, [])
  {
  }

  lemma NamesByText(names: seq<NameClaim>)
    ensures DistinctKeys(NameOf, names) <==> DistinctKeys(Self, Mapped(NameOf, names))
  {
    var texts := Mapped(NameOf, names);
    if DistinctKeys(Self, texts) {
      forall i, j | 0 <= i < j < |names| ensures NameOf(names[i]) != NameOf(names[j]) {
        assert Self(texts[i]) != Self(texts[j]);
      }
    }
  }

  lemma {:induction false} FlatDistinct(ms: seq<ModelPrice>)
    requires DistinctKeys(Self, Flat(Claims, ms))
    ensures forall i :: 0 <= i < |ms| ==> DistinctKeys(Self, ms[i].aliases)
  {
    if ms != [] {
      var n := |ms| - 1;
      DistinctAppend(Self, Flat(Claims, ms[..n]), Claims(ms[n]));
      DistinctAppend(Self, [ms[n].model], ms[n].aliases);
      FlatDistinct(ms[..n]);
      forall i | 0 <= i < |ms| ensures DistinctKeys(Self, ms[i].aliases) {
        assert i < n ==> ms[i] == ms[..n][i];
      }
    }
  }

  lemma PricesParts(n: Node)
    ensures PricesShape(n) && PricesProper(ParsePrices(n))
       <==> PricesOk(n) && DistinctKeys(Self, Flat(Claims, ParsePrices(n).models))
  {
    hide KeysOk, Get, PriceShape, PriceProper, DistinctKeys, ParsePrice, Flat, IsIsoCurrency, StringAt, ToUpper, ItemsAt, EntriesOk, Absent;
    UpperTwice(StringAt(Entries(n), Currency));
    EntriesParts(ItemsAt(Entries(n), Models));
  }

  lemma EntriesParts(items: seq<Node>)
    ensures DistinctKeys(Self, Flat(Claims, Mapped(ParsePrice, items))) ==>
      (EntriesOk(items) <==> forall i :: 0 <= i < |items| ==> PriceShape(items[i]) && PriceProper(Mapped(ParsePrice, items)[i]))
    ensures EntriesOk(items) ==> forall i :: 0 <= i < |items| ==> PriceShape(items[i]) && PriceProper(Mapped(ParsePrice, items)[i])
  {
    hide PriceShape, PriceProper, ParsePrice, Flat, DistinctKeys;
    var ms := Mapped(ParsePrice, items);
    if DistinctKeys(Self, Flat(Claims, ms)) {
      FlatDistinct(ms);
      assert forall i :: 0 <= i < |items| ==> DistinctKeys(Self, ms[i].aliases);
    }
  }

  lemma OkHostsShareNone(items: seq<Node>)
    requires HostsOk(items)
    ensures NoSharedAddress(Mapped(ParseHost, items))
  {
    hide HostsProper, HostShape, ParseHost;
    ProperHostsShareNone(Mapped(ParseHost, items));
  }

  lemma HostsParts(n: Node)
    requires n.List?
    ensures HostsShape(n) && HostsProper(Mapped(ParseHost, n.items)) <==> HostsOk(n.items)
  {
    hide HostShape, HostsProper;
  }

  lemma HostsAreDistinct(es: seq<Entry>)
    ensures HostsOk(HostNodes(es)) ==> DistinctKeys(HostId, Mapped(ParseHost, HostNodes(es)))
    ensures DistinctKeys(HostId, [])
  {
  }

  ghost predicate HostsPart(es: seq<Entry>) {
    GetLast(es, Hosts).Some? ==> GetLast(es, Hosts).value.List? && HostsOk(GetLast(es, Hosts).value.items)
  }

  ghost predicate PricesPart(es: seq<Entry>) {
    Section(es, PriceList).Some? ==> PricesOk(Section(es, PriceList).value)
  }

  ghost predicate NamesPart(es: seq<Entry>) {
    Section(es, PriceList).Some? ==> DistinctKeys(Self, Flat(Claims, ParsePrices(Section(es, PriceList).value).models))
  }

  ghost predicate RoutesPart(es: seq<Entry>) {
    Section(es, LoadBalancer).Some? ==>
      && RoutesShape(Section(es, LoadBalancer).value)
      && RoutesProper(ParseRoutes(Section(es, LoadBalancer).value), Mapped(ParseHost, HostNodes(es)))
  }

  /** The three sections judged apart, and the names of the price entries at the end. */
  lemma TopParts(n: Node)
    requires n.Map?
    ensures var es := n.entries;
      TopShape(n) && Proper(ParseTop(es)) <==>
        && (forall i :: 0 <= i < |es| ==> es[i].key in TOP_FIELDS)
        && HostsPart(es) && PricesPart(es) && NamesPart(es) && RoutesPart(es)
  {
    hide HostsOk, PricesOk, RoutesShape, RoutesProper, HostsProper, PricesProper, HostsShape, PricesShape, GetLast, Flat, DistinctKeys,
      ParsePrices, ParseRoutes;
    var es := n.entries;
    NoHostsAreProper();
    if GetLast(es, Hosts).Some? && GetLast(es, Hosts).value.List? {
      HostsParts(GetLast(es, Hosts).value);
    }
    ListedHosts(es);
    if Section(es, PriceList).Some? {
      PricesParts(Section(es, PriceList).value);
    }
  }

  lemma ListedHosts(es: seq<Entry>)
    ensures GetLast(es, Hosts).Some? && HostsShape(GetLast(es, Hosts).value) ==> GetLast(es, Hosts).value.List?
    ensures GetLast(es, Hosts).None? ==> HostNodes(es) == [] && Mapped(ParseHost, HostNodes(es)) == []
  {
  }

  lemma NoHostsAreProper()
    ensures HostsProper([])
  {
  }

  lemma ClaimsSnoc(path: Path, items: seq<Node>, n: Node)
    ensures AliasClaims(path, items + [n]) ==
      if AsString(n).Some? && IsPriceAlias(AsString(n).value) && AsString(n).value !in Mapped(NameOf, AliasClaims(path, items))
      then AliasClaims(path, items) + [NameClaim(path + [At(|items|)], AsString(n).value)]
      else AliasClaims(path, items)
    ensures AsString(n).Some? ==> StringOf(n) == AsString(n).value
    ensures AliasOk(n) <==> AsString(n).Some? && IsPriceAlias(AsString(n).value)
  {
    assert (items + [n])[..|items|] == items;
  }

  lemma NoClaims(path: Path)
    ensures AliasClaims(path, []) == [] && AliasesOk([])
  {
  }

  lemma NoModelClaims(path: Path)
    ensures ModelClaims(path, "") == []
  {
  }

  lemma EntryNames(path: Path, model: string, more: seq<NameClaim>, aliases: seq<string>)
    requires Mapped(NameOf, more) == aliases
    ensures model != "" && '@' !in model ==> Mapped(NameOf, ModelClaims(path, model) + more) == [model] + aliases
  {
  }

  lemma Regroup<T>(a: seq<T>, b: seq<T>, c: seq<T>)
    ensures a + b + c == a + (b + c)
  {
  }

  lemma NoEntries(path: Path)
    ensures PriceClaims(path, []) == [] && EntriesOk([]) && Flat(Claims, []) == []
  {
  }

  lemma NothingAt(k: Field)
    ensures StringAt([], k) == "" && ItemsAt([], k) == []
  {
  }

  lemma SameAt(a: seq<Entry>, b: seq<Entry>, k: Field)
    requires Get(a, k) == Get(b, k)
    ensures StringAt(a, k) == StringAt(b, k)
    ensures ItemsAt(b, k) == if Get(a, k).Some? && Get(a, k).value.List? then Get(a, k).value.items else []
  {
  }

  lemma EntryIsMap(n: Node)
    ensures EntryOk(n) ==> n.Map?
  {
  }

  lemma UpperTwice(s: string)
    ensures ToUpper(ToUpper(s)) == ToUpper(s)
  {
  }

  lemma CurrencyIsLong(s: string)
    requires IsIsoCurrency(s)
    ensures ToUpper(s) != ""
  {
  }

  lemma PriceClaimsSnoc(path: Path, items: seq<Node>, n: Node)
    ensures PriceClaims(path, items + [n]) == PriceClaims(path, items) + EntryClaims(path + [At(|items|)], n)
    ensures Mapped(NameOf, PriceClaims(path, items + [n]))
         == Mapped(NameOf, PriceClaims(path, items)) + Mapped(NameOf, EntryClaims(path + [At(|items|)], n))
  {
    assert (items + [n])[..|items|] == items;
  }

  ghost predicate PricesOk(n: Node) {
    && n.Map? && KeysOk(n.entries, PRICES_FIELDS)
    && !Absent(n.entries, Currency) && StringOk(n.entries, Currency) && IsIsoCurrency(StringAt(n.entries, Currency))
    && ListOk(n.entries, Models) && EntriesOk(ItemsAt(n.entries, Models))
  }

  /** The validator finds nothing wrong exactly when the document has the right shape
      and its contents meet the rules, and then it returns what the document says. A
      price name claimed twice, a host id, an address or a route alias that stands twice is
      reported at both places, whatever else is wrong. */
  method ParseAndValidate(d: Doc) returns (cfg: Option<Config>, v: seq<Violation>)
    ensures v == [] <==> Shape(d) && Proper(Parse(d))
    ensures cfg == if v == [] then Some(Parse(d)) else None
    ensures d.Some? && d.value.Map? ==>
      var names := DocClaims(d.value.entries);
      forall i, j :: 0 <= i < j < |names| && names[i].name == names[j].name ==> BothReported(v, names[i].path, names[j].path)
    ensures d.Some? && d.value.Map? ==> TwinsReported(d.value.entries, v)
  {
    hide TopShape, HostsProper, DocClaims, ParseTop, TwinsReported;
    if d.None? {
      NoHostsAreProper();
      return Some(EMPTY), [];
    }
    if !d.value.Map? {
      ShapeOfTop(d.value);
      return None, [Violation([], WrongKind)];
    }
    var va := new Validator();
    va.Document(d.value);
    if |va.v| > 0 {
      return None, va.v;
    }
    return Some(Config(va.hosts, va.prices, va.routes)), [];
  }

  lemma ShapeOfTop(n: Node)
    ensures TopShape(n) ==> n.Map?
  {
  }

  /** The names claimed do not depend on the earlier ones of a repeated section either. */
  lemma EarlierClaimsIgnored(es: seq<Entry>)
    ensures DocClaims(LastOnly(es)) == DocClaims(es)
  {
    GetLastOfLastOnly(es, PriceList);
  }

  /** A document whose first hosts section is no list at all, and whose second is an empty
      one, has nothing wrong with it. */
  lemma RepeatedSectionPasses()
    ensures var bad, good := Entry(Hosts, Scalar("none", None, None)), Entry(Hosts, List([]));
      && !Shape(Some(Map([bad])))
      && Shape(Some(Map([bad, good]))) && Proper(Parse(Some(Map([bad, good])))) && Parse(Some(Map([bad, good]))) == EMPTY
  {
    var bad, good := Entry(Hosts, Scalar("none", None, None)), Entry(Hosts, List([]));
    assert [bad, good][..1] == [bad] && [bad][..0] == [];
    assert GetLast([bad, good], PriceList) == GetLast([bad], PriceList) == GetLast([], PriceList);
    assert GetLast([bad, good], LoadBalancer) == GetLast([bad], LoadBalancer) == GetLast([], LoadBalancer);
    assert GetLast([bad], Hosts) == Some(bad.value);
    assert Mapped(ParseHost, []) == [];
    NoHostsAreProper();
  }
}
