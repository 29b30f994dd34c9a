/** The names clients may ask for: what POST resolves and what GET /v1/models lists. */
module Vocabulary {
  import opened Wrappers
  import opened Strings
  import opened Names
  import opened ConfigTypes
  import opened Fleet
  import opened RouteTable
  import opened Balancer
  import Sorting

  datatype Resolution =
    | Routed(target: Target, via: string) // via is the route alias, "" for a direct id
    | NotAvailable
    | NotConfigured

  /** `resolve`: a published id routes to its own server, an alias to the member its
      policy picks; the reason says whether the name is unknown or just dark. */
  method ResolveName(cfg: Config, asked: string, regs: Registry, table: Table, servers: Servers)
    returns (r: Resolution)
    ensures asked in table ==>
      r == if TargetLive(table[asked], servers) then Routed(table[asked], "") else NotAvailable
    ensures asked !in table && RouteFor(cfg.Routes(), asked).Some? ==>
      var ms := CompiledRoute(RouteFor(cfg.Routes(), asked).value, regs, table, servers);
      if CanServe(RouteFor(cfg.Routes(), asked).value, table, servers)
      then exists i :: IsPick(ms, i) && r == Routed(ms[i].target.value, asked)
      else r == NotAvailable
    ensures asked !in table && RouteFor(cfg.Routes(), asked).None? ==>
      r == if IsKnown(table, servers, asked) then NotAvailable else NotConfigured
  {
    if asked in table {
      var t := table[asked];
      if t.key !in servers || !servers[t.key].up || servers[t.key].active == "" {
        return NotAvailable;
      }
      return Routed(t, "");
    }
    var route := RouteFor(cfg.Routes(), asked);
    if route.Some? {
      var member := Resolve(cfg, asked, regs, table, servers);
      if member.Some? {
        return Routed(member.value.target.value, asked);
      }
      return NotAvailable;
    }
    var known := Known(table, servers, asked);
    return if known then NotAvailable else NotConfigured;
  }

  /** GET /v1/models: the table's ids and the aliases of serving routes, sorted. */
  method ListModels(cfg: Config, regs: Registry, table: Table, ids: seq<string>, servers: Servers)
    returns (names: seq<string>)
    ensures names == Sorting.SortBy(x => x, ids + Sorting.SortBy(x => x, ServingAliases(cfg.Routes(), table, servers)))
    ensures Sorting.Sorted(x => x, names)
  {
    var aliases := Aliases(cfg, regs, table, servers);
    Sorting.SortBySorted(x => x, ids + aliases);
    names := Sorting.SortBy(x => x, ids + aliases);
  }

  /** What validation guarantees about route aliases. */
  ghost predicate ValidAliases(cfg: Config) {
    var rs := cfg.Routes();
    && (forall i :: 0 <= i < |rs| ==> IsRouteAlias(rs[i].alias))
    && (forall i, j :: 0 <= i < j < |rs| ==> ToLower(rs[i].alias) != ToLower(rs[j].alias))
  }

  /** A table and id list rebuilt from the servers as they are. */
  ghost predicate Fresh(table: Table, ids: seq<string>, servers: Servers) {
    ValidKeys(servers) && NamedModels(servers) && IsRouteTable(table, servers) && IsIdList(ids, table)
  }

  lemma AliasHasNoAt(a: string)
    requires IsRouteAlias(a)
    ensures '@' !in a
  {
  }

  lemma IdHasAt(table: Table, servers: Servers, id: string)
    requires IsRouteTable(table, servers) && id in table
    ensures '@' in id
    ensures TargetLive(table[id], servers)
  {
    assert FromServer(servers, id, table[id]);
    PublishHasAt(table[id].base, table[id].key.server, table[id].key.host);
  }

  lemma {:induction false} ServingAliasesMembers(rs: seq<Route>, table: Table, servers: Servers, name: string)
    ensures name in ServingAliases(rs, table, servers)
       <==> exists i :: 0 <= i < |rs| && rs[i].alias == name && CanServe(rs[i], table, servers)
  {
    if rs != [] {
      var n := |rs| - 1;
      ServingAliasesMembers(rs[..n], table, servers, name);
      if i :| 0 <= i < |rs| && rs[i].alias == name && CanServe(rs[i], table, servers) {
        assert i < n ==> rs[..n][i] == rs[i];
      }
    }
  }

  lemma {:induction false} ServingAliasesDistinct(rs: seq<Route>, table: Table, servers: Servers)
    requires forall i, j :: 0 <= i < j < |rs| ==> rs[i].alias != rs[j].alias
    ensures Sorting.DistinctKeys(x => x, ServingAliases(rs, table, servers))
  {
    if rs != [] {
      var n := |rs| - 1;
      ServingAliasesDistinct(rs[..n], table, servers);
      ServingAliasesMembers(rs[..n], table, servers, rs[n].alias);
      var rest := ServingAliases(rs[..n], table, servers);
      assert forall i :: 0 <= i < |rest| ==> rest[i] in rest;
    }
  }

  lemma RouteForDistinct(cfg: Config, name: string, i: nat)
    requires ValidAliases(cfg) && i < |cfg.Routes()| && cfg.Routes()[i].alias == name
    ensures RouteFor(cfg.Routes(), name) == Some(cfg.Routes()[i])
  {
    var rs := cfg.Routes();
    var r := RouteFor(rs, name).value;
    var j :| 0 <= j < |rs| && rs[j] == r;
    assert ToLower(rs[i].alias) == ToLower(rs[j].alias);
  }

  ghost function Listing(cfg: Config, table: Table, ids: seq<string>, servers: Servers): seq<string> {
    Sorting.SortBy(x => x, ids + Sorting.SortBy(x => x, ServingAliases(cfg.Routes(), table, servers)))
  }

  lemma ListedIff(cfg: Config, table: Table, ids: seq<string>, servers: Servers, name: string)
    requires IsIdList(ids, table) && ValidAliases(cfg)
    ensures name in Listing(cfg, table, ids, servers)
       <==> name in table || (RouteFor(cfg.Routes(), name).Some? && CanServe(RouteFor(cfg.Routes(), name).value, table, servers))
  {
    var key := (x: string) => x;
    var aliases := ServingAliases(cfg.Routes(), table, servers);
    Sorting.SortBySorted(key, aliases);
    Sorting.SortBySorted(key, ids + Sorting.SortBy(key, aliases));
    assert name in Listing(cfg, table, ids, servers) <==> name in multiset(ids + Sorting.SortBy(key, aliases));
    assert name in Sorting.SortBy(key, aliases) <==> name in multiset(aliases);
    ServingAliasesMembers(cfg.Routes(), table, servers, name);
    if i :| 0 <= i < |cfg.Routes()| && cfg.Routes()[i].alias == name && CanServe(cfg.Routes()[i], table, servers) {
      RouteForDistinct(cfg, name, i);
    }
    if RouteFor(cfg.Routes(), name).Some? {
      var r := RouteFor(cfg.Routes(), name).value;
      var i :| 0 <= i < |cfg.Routes()| && cfg.Routes()[i] == r;
    }
  }

  /** The vocabulary of requests equals the list of models: with a validated
      configuration and a table of the current server states, a name resolves to a
      target exactly when it is listed; and a name that does not resolve is called
      not configured exactly when it is no route alias and no server, up or down,
      last reported a model under it. */
  method VocabularyEquality(cfg: Config, asked: string, regs: Registry, table: Table, ids: seq<string>, servers: Servers)
    returns (r: Resolution, names: seq<string>)
    requires ValidAliases(cfg) && Fresh(table, ids, servers)
    ensures r.Routed? <==> asked in names
    ensures r.NotConfigured? <==>
      RouteFor(cfg.Routes(), asked).None? && !exists k, b :: Reports(servers, k, b, asked)
    ensures r.Routed? ==> TargetLive(r.target, servers)
    ensures Sorting.StrictlySorted(names)
  {
    r := ResolveName(cfg, asked, regs, table, servers);
    names := ListModels(cfg, regs, table, ids, servers);
    ListedIff(cfg, table, ids, servers, asked);
    KnownIsFullScan(table, servers, asked);
    if asked in table {
      IdHasAt(table, servers, asked);
      assert FromServer(servers, asked, table[asked]);
    }
    ListingStrict(cfg, table, ids, servers);
  }

  lemma ListingStrict(cfg: Config, table: Table, ids: seq<string>, servers: Servers)
    requires ValidAliases(cfg) && Fresh(table, ids, servers)
    ensures Sorting.StrictlySorted(Listing(cfg, table, ids, servers))
  {
    var key := (x: string) => x;
    var rs := cfg.Routes();
    forall i, j | 0 <= i < j < |rs| ensures rs[i].alias != rs[j].alias {
      assert ToLower(rs[i].alias) != ToLower(rs[j].alias);
    }
    ServingAliasesDistinct(rs, table, servers);
    var aliases := ServingAliases(rs, table, servers);
    var sorted := Sorting.SortBy(key, aliases);
    Sorting.SortBySorted(key, aliases);
    Sorting.DistinctPermuted(key, aliases, sorted);
    forall i, j | 0 <= i < |ids| && 0 <= j < |sorted| ensures ids[i] != sorted[j] {
      assert ids[i] in ids;
      IdHasAt(table, servers, ids[i]);
      assert sorted[j] in multiset(aliases);
      ServingAliasesMembers(rs, table, servers, sorted[j]);
      AliasHasNoAt(sorted[j]);
    }
    forall i, j | 0 <= i < j < |ids| ensures ids[i] != ids[j] {
      BeforeAntisymmetric(ids[i], ids[j]);
    }
    assert Sorting.DistinctKeys(key, ids + sorted);
    Sorting.SortKeepsDistinct(ids + sorted);
  }
}
