/** The published route table: what live servers publish, one target per id. */
module RouteTable {
  import opened Wrappers
  import opened Strings
  import opened Names
  import opened Fleet
  import Sorting

  /** Server k reports model b, published as id (whether or not it answers now). */
  ghost predicate Reports(servers: Servers, k: Key, b: string, id: string) {
    k in servers && b in servers[k].models && id == PublishID(b, k.server, k.host)
  }

  /** ... and can answer for it. */
  ghost predicate Publishes(servers: Servers, k: Key, b: string, id: string) {
    Reports(servers, k, b, id) && servers[k].Live()
  }

  ghost predicate FromServer(servers: Servers, id: string, t: Target) {
    t.published == id && Publishes(servers, t.key, t.base, id)
  }

  /** The table holds exactly the ids that live servers publish, each with a server
      that publishes it. */
  ghost predicate IsRouteTable(t: Table, servers: Servers) {
    && (forall id :: id in t ==> FromServer(servers, id, t[id]))
    && (forall k, b, id :: Publishes(servers, k, b, id) ==> id in t)
  }

  ghost predicate IsIdList(ids: seq<string>, t: Table) {
    Sorting.Lists(ids, t.Keys)
  }

  method AddServer(t: Table, k: Key, s: ServerView) returns (r: Table)
    requires s.Live()
    ensures forall id :: id in t ==> id in r && r[id] == t[id]
    ensures forall b :: b in s.models ==> PublishID(b, k.server, k.host) in r
    ensures forall id :: id in r && id !in t ==>
      r[id].published == id && r[id].key == k && r[id].base in s.models && id == PublishID(r[id].base, k.server, k.host)
  {
    r := t;
    for i := 0 to |s.models|
      invariant forall id :: id in t ==> id in r && r[id] == t[id]
      invariant forall j :: 0 <= j < i ==> PublishID(s.models[j], k.server, k.host) in r
      invariant forall id :: id in r && id !in t ==>
        r[id].published == id && r[id].key == k && r[id].base in s.models && id == PublishID(r[id].base, k.server, k.host)
    {
      var pub := PublishID(s.models[i], k.server, k.host);
      if pub !in r {
        r := r[pub := Target(pub, s.models[i], k)];
      }
    }
  }

  /** Whatever order the servers are enumerated in. */
  method Rebuild(servers: Servers) returns (t: Table, ids: seq<string>)
    ensures IsRouteTable(t, servers) && IsIdList(ids, t)
  {
    t := map[];
    var todo := servers.Keys;
    while todo != {}
      invariant todo <= servers.Keys
      invariant forall id :: id in t ==> FromServer(servers, id, t[id])
      invariant forall k, b, id :: Publishes(servers, k, b, id) && k !in todo ==> id in t
      decreases |todo|
    {
      var k :| k in todo;
      todo := todo - {k};
      if !servers[k].up || servers[k].active == "" {
        continue;
      }
      t := AddServer(t, k, servers[k]);
    }
    ids := Sorting.ListSorted(t.Keys);
  }

  /** The list is as determined as the table's domain. */
  lemma IdListUnique(a: seq<string>, b: seq<string>, t: Table)
    requires IsIdList(a, t) && IsIdList(b, t)
    ensures a == b
  {
    Sorting.StrictlySortedUnique(a, b);
  }

  // ----- is the table determined by the servers? -----------------------------------------

  ghost predicate ValidKeys(servers: Servers) {
    forall k :: k in servers ==> IsID(k.host) && IsID(k.server)
  }

  /** No server id is another of the same host after a dash. */
  ghost predicate DashSafe(servers: Servers) {
    forall k: Key, l: Key :: k in servers && l in servers && k.host == l.host ==> !DashSuffix(k.server, l.server)
  }

  lemma IDsHaveNoAt(s: string)
    requires IsID(s)
    ensures '@' !in s && s != ""
  {
  }

  lemma PublisherUnique(servers: Servers, k: Key, b: string, l: Key, c: string, id: string)
    requires ValidKeys(servers) && DashSafe(servers)
    requires Reports(servers, k, b, id) && Reports(servers, l, c, id)
    ensures k == l && b == c
  {
    IDsHaveNoAt(k.host);
    IDsHaveNoAt(l.host);
    HostsSeparate(b, k.server, k.host, c, l.server, l.host);
    CollisionMeansSuffix(b, k.server, c, l.server, k.host);
  }

  /** Without dashed-suffix server ids (dash-free ids, say) every order of
      enumeration builds the same table, and each target is what its id splits
      into when the server id has no dash. */
  lemma TableUnique(servers: Servers, t: Table, u: Table)
    requires ValidKeys(servers) && DashSafe(servers) && IsRouteTable(t, servers) && IsRouteTable(u, servers)
    ensures t == u
  {
    forall id | id in t ensures id in u {
      assert Publishes(servers, t[id].key, t[id].base, id);
    }
    forall id | id in u ensures id in t && t[id] == u[id] {
      assert FromServer(servers, id, u[id]);
      assert Publishes(servers, u[id].key, u[id].base, id);
      assert FromServer(servers, id, t[id]);
      PublisherUnique(servers, t[id].key, t[id].base, u[id].key, u[id].base, id);
    }
  }

  lemma DashFreeIsSafe(servers: Servers)
    requires forall k :: k in servers ==> '-' !in k.server
    ensures DashSafe(servers)
  {
    forall k: Key, l: Key | k in servers && l in servers ensures !DashSuffix(k.server, l.server) {
      assert |k.server| > |l.server| ==> k.server[|k.server| - |l.server| - 1] != '-';
    }
  }

  lemma TargetSplits(servers: Servers, t: Table, id: string)
    requires ValidKeys(servers) && IsRouteTable(t, servers) && id in t
    requires '-' !in t[id].key.server && t[id].base != ""
    ensures SplitPublishedID(id) == Some(Parts(t[id].base, t[id].key.server, t[id].key.host))
  {
    assert FromServer(servers, id, t[id]);
    IDsHaveNoAt(t[id].key.host);
    PublishThenSplit(t[id].base, t[id].key.server, t[id].key.host);
  }

  /** Whatever these servers report, every rebuild gives the same table. */
  ghost predicate AlwaysDetermined(keys: set<Key>) {
    forall servers: Servers, t: Table, u: Table :: servers.Keys == keys && IsRouteTable(t, servers) && IsRouteTable(u, servers) ==> t == u
  }

  ghost predicate DashedPair(keys: set<Key>, k: Key, l: Key) {
    k in keys && l in keys && k.host == l.host && DashSuffix(k.server, l.server)
  }

  /** Ids that validate do not exclude a clash: with k.server = x-l.server, model m
      of k and model m-x of l are published under one id, and the table depends on
      which server is enumerated first. */
  lemma DashedServersClash(keys: set<Key>, k: Key, l: Key) returns (servers: Servers, t: Table, u: Table)
    requires DashedPair(keys, k, l)
    ensures servers.Keys == keys && IsRouteTable(t, servers) && IsRouteTable(u, servers) && t != u
  {
    SuffixCollides(k.server, l.server, k.host);
    var b1, b2 :| b1 != "" && b2 != "" && PublishID(b1, k.server, k.host) == PublishID(b2, l.server, k.host);
    var id := PublishID(b1, k.server, k.host);
    var dark := ServerView(false, 0, "", [], []);
    servers := (map q | q in keys :: dark)[k := ServerView(true, 0, "x", [b1], ["x"])][l := ServerView(true, 0, "x", [b2], ["x"])];
    t, u := map[id := Target(id, b1, k)], map[id := Target(id, b2, l)];
    forall q, b, x | Publishes(servers, q, b, x) ensures x == id {
      assert q == k || q == l;
    }
    assert FromServer(servers, id, t[id]) && FromServer(servers, id, u[id]);
    assert t[id] != u[id];
  }

  /** The table is a function of the servers' state, for all they may report,
      exactly when no server id is another of its host after a dash. */
  lemma DeterminedIff(keys: set<Key>)
    requires forall k: Key :: k in keys ==> IsID(k.host) && IsID(k.server)
    ensures AlwaysDetermined(keys) <==> forall k, l :: !DashedPair(keys, k, l)
  {
    if k, l :| DashedPair(keys, k, l) {
      var servers, t, u := DashedServersClash(keys, k, l);
    } else {
      forall servers: Servers, t: Table, u: Table | servers.Keys == keys && IsRouteTable(t, servers) && IsRouteTable(u, servers)
        ensures t == u
      {
        assert DashSafe(servers) by {
          forall k: Key, l: Key | k in servers && l in servers && k.host == l.host ensures !DashSuffix(k.server, l.server) {
            assert !DashedPair(keys, k, l);
          }
        }
        TableUnique(servers, t, u);
      }
    }
  }

  // ----- names that are configured but dark ----------------------------------------------

  method KnownScan(servers: Servers, hostID: string, published: string) returns (yes: bool)
    ensures yes <==> exists k: Key, b: string :: k.host == hostID && Reports(servers, k, b, published)
  {
    var todo := servers.Keys;
    while todo != {}
      invariant todo <= servers.Keys
      invariant forall k: Key, b: string :: k.host == hostID && k !in todo ==> !Reports(servers, k, b, published)
      decreases |todo|
    {
      var k :| k in todo;
      todo := todo - {k};
      if k.host != hostID {
        continue;
      }
      for i := 0 to |servers[k].models|
        invariant forall j :: 0 <= j < i ==> PublishID(servers[k].models[j], k.server, k.host) != published
      {
        if PublishID(servers[k].models[i], k.server, k.host) == published {
          assert Reports(servers, k, servers[k].models[i], published);
          return true;
        }
      }
    }
    return false;
  }

  /** `Known`: in the table, or reported by some server of the host the id names. */
  ghost predicate IsKnown(t: Table, servers: Servers, published: string) {
    || published in t
    || (SplitPublishedID(published).Some?
        && exists k: Key, b: string :: k.host == SplitPublishedID(published).value.host && Reports(servers, k, b, published))
  }

  method Known(t: Table, servers: Servers, published: string) returns (yes: bool)
    ensures yes == IsKnown(t, servers, published)
  {
    if published in t {
      return true;
    }
    var parts := SplitPublishedID(published);
    if parts.None? {
      return false;
    }
    yes := KnownScan(servers, parts.value.host, published);
  }

  /** Probes only keep model names that are not empty. */
  ghost predicate NamedModels(servers: Servers) {
    forall k :: k in servers ==> "" !in servers[k].models
  }

  lemma ReportedSplits(servers: Servers, k: Key, b: string, id: string)
    requires ValidKeys(servers) && NamedModels(servers) && Reports(servers, k, b, id)
    ensures SplitPublishedID(id).Some? && SplitPublishedID(id).value.host == k.host
  {
    IDsHaveNoAt(k.host);
    PublishAt(b, k.server, k.host);
    var head := b + "-" + k.server;
    assert id == head + "@" + k.host;
    assert id[..|head|] == head && id[|head| + 1..] == k.host;
    assert head[|b|] == '-';
  }

  /** Looking only at the host the id names loses nothing against asking every
      server: with a table of the current state, an id is known exactly when some
      server, up or down, last reported a model published under it. */
  lemma KnownIsFullScan(t: Table, servers: Servers, id: string)
    requires ValidKeys(servers) && NamedModels(servers) && IsRouteTable(t, servers)
    ensures IsKnown(t, servers, id) <==> exists k, b :: Reports(servers, k, b, id)
  {
    if id in t {
      assert FromServer(servers, id, t[id]);
      assert Reports(servers, t[id].key, t[id].base, id);
    }
    if k, b :| Reports(servers, k, b, id) {
      ReportedSplits(servers, k, b, id);
    }
  }
}
