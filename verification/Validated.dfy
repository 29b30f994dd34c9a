/** What a validated document gives the parts that rely on it: the health manager, the
    route table and the resolver. */
module Validated {
  import opened ConfigTypes
  import opened Fleet
  import opened Names
  import opened Document
  import opened Rules
  import RouteTable
  import Health
  import Vocabulary
  import Strings
  import opened Sorting

  /** Ids are unique the way the health manager keys its servers, and aliases the way the
      resolver looks them up. */
  lemma ValidatedNames(c: Config)
    requires Proper(c)
    ensures Health.UniqueIds(c.hosts) && Vocabulary.ValidAliases(c)
  {
    hide NormalizeAddress, Flat, IsID, IsRouteAlias, PricesProper, Configured;
    var hs := c.hosts;
    forall i, j | 0 <= i < j < |hs| ensures hs[i].id != hs[j].id {
      assert HostId(hs[i]) != HostId(hs[j]);
    }
    forall i, j, l | 0 <= i < |hs| && 0 <= j < l < |hs[i].servers| ensures hs[i].servers[j].id != hs[i].servers[l].id {
      assert HostProper(hs[i]);
      assert ServerId(hs[i].servers[j]) != ServerId(hs[i].servers[l]);
    }
    var rs := c.Routes();
    forall i, j | 0 <= i < j < |rs| ensures Strings.ToLower(rs[i].alias) != Strings.ToLower(rs[j].alias) {
      assert RouteKey(rs[i]) != RouteKey(rs[j]);
    }
  }

  /** Every server the manager runs has ids that publish and split safely. */
  lemma AppliedKeys(c: Config, servers: Servers)
    requires Proper(c)
    requires forall k :: k in servers ==> exists w :: Health.Configured(c.hosts, k, w)
    ensures RouteTable.ValidKeys(servers)
  {
    hide NormalizeAddress, Flat, IsID, PricesProper, RoutesProper, DistinctKeys;
    forall k | k in servers ensures IsID(k.host) && IsID(k.server) {
      var w :| Health.Configured(c.hosts, k, w);
      var i, j :| 0 <= i < |c.hosts| && 0 <= j < |c.hosts[i].servers| && k == Health.KeyAt(c.hosts, i, j) && w == Health.WishAt(c.hosts, i, j);
      assert HostProper(c.hosts[i]) && ServerProper(c.hosts[i].servers[j]);
    }
  }

  /** Applying a valid configuration: every server it names is run with just its addresses
      and just its limit, and no other server is run. */
  method ApplyValid(m: Health.Manager, c: Config)
    requires Proper(c) && m.Keyed() && m.SemsValid()
    modifies m, m.states.Values, m.Sems(), m.Waiters()
    ensures m.Keyed() && m.SemsValid() && m.Current()
    ensures m.RunsJust(c.hosts)
  {
    hide Proper, Health.Manager.SemsValid, Health.Manager.Current, Health.Manager.Keyed, Health.Manager.AllRun, Health.Manager.RunsJust;
    ValidatedNames(c);
    ghost var known := m.states.Keys;
    m.Apply(c.hosts);
    forall h, s | h in c.hosts && s in h.servers ensures s.maxConcurrency >= 0 {
      LimitsAreProper(c, h, s);
    }
    m.JustRuns(c.hosts, known);
  }

  lemma LimitsAreProper(c: Config, h: Host, s: Server)
    requires Proper(c) && h in c.hosts && s in h.servers
    ensures s.maxConcurrency >= 0
  {
    hide NormalizeAddress, Flat, IsID, PricesProper, RoutesProper, DistinctKeys;
    assert HostProper(h) && ServerProper(s);
  }

  /** From document to vocabulary: with the servers of a valid document running, and a
      table and id list that agree with their states, all that name resolution relies on
      holds; and if no server id has a dash, the table and the list could not be others. */
  lemma DocumentVocabulary(d: Doc, servers: Servers, table: Table, ids: seq<string>)
    requires Shape(d) && Proper(Parse(d))
    requires forall k :: k in servers ==> exists w :: Health.Configured(Parse(d).hosts, k, w)
    requires RouteTable.NamedModels(servers)
    requires RouteTable.IsRouteTable(table, servers) && RouteTable.IsIdList(ids, table)
    ensures Vocabulary.ValidAliases(Parse(d)) && Vocabulary.Fresh(table, ids, servers)
    ensures (forall k: Key :: k in servers ==> '-' !in k.server) ==>
      forall t, js :: RouteTable.IsRouteTable(t, servers) && RouteTable.IsIdList(js, t) ==> t == table && js == ids
  {
    hide Shape, Parse, RouteTable.IsRouteTable, RouteTable.IsIdList, RouteTable.ValidKeys, RouteTable.NamedModels, Proper;
    ValidatedNames(Parse(d));
    AppliedKeys(Parse(d), servers);
    if forall k: Key :: k in servers ==> '-' !in k.server {
      RouteTable.DashFreeIsSafe(servers);
      forall t, js | RouteTable.IsRouteTable(t, servers) && RouteTable.IsIdList(js, t) ensures t == table && js == ids {
        RouteTable.TableUnique(servers, t, table);
        RouteTable.IdListUnique(js, ids, table);
      }
    }
  }
}
