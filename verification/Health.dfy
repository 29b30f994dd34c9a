/** Server states and their manager, as objects that the probe loop and the
    configuration change in place. */
module Health {
  import opened Wrappers
  import opened ConfigTypes
  import opened Fleet
  import opened HealthModel
  import opened RouteTable
  import SemModel
  import FairSemaphore

  class ServerState {
    const key: Key
    const sem: FairSemaphore.FairSem
    var up: bool
    var consecFail: nat
    var active: string
    var models: seq<string>
    var hostAddrs: seq<string>

    function View(): ServerView
      reads this
    {
      ServerView(up, consecFail, active, models, hostAddrs)
    }

    ghost predicate SemValid()
      reads sem, sem.born.Values
    {
      sem.Linked() && SemModel.Inv(sem.View())
    }

    /** Nothing else matters to it. */
    twostate lemma StaysValid()
      requires old(SemValid()) && unchanged(sem) && forall t :: t in sem.born ==> unchanged(sem.born[t])
      ensures SemValid()
    {
      hide SemModel.Inv;
    }

    constructor (key: Key, addrs: seq<string>, maxConcurrency: nat)
      ensures this.key == key && View() == NewServer(addrs)
      ensures fresh(sem) && sem.born == map[] && SemValid() && sem.View() == SemModel.Fresh(maxConcurrency)
    {
      this.key := key;
      up, consecFail, active, models, hostAddrs := false, 0, "", [], addrs;
      sem := new FairSemaphore.FairSem(maxConcurrency);
    }

    method SetConfig(addrs: seq<string>, maxConcurrency: nat) returns (addrsChanged: bool)
      requires SemValid()
      modifies `active, `hostAddrs, sem, sem.born.Values
      ensures View() == EditStep(old(View()), addrs)
      ensures addrsChanged == (Join(old(hostAddrs)) != Join(addrs))
      ensures SemValid() && sem.View() == SemModel.Step(old(sem.View()), SemModel.SetCapacity(maxConcurrency))
      ensures sem.born == old(sem.born)
    {
      addrsChanged := Join(hostAddrs) != Join(addrs);
      hostAddrs := addrs;
      if addrsChanged {
        active := "";
      }
      hide *;
      sem.SetCapacity(maxConcurrency);
    }

    /** The active address first, if any, then the rest of the list in order. */
    method ListCandidates() returns (candidates: seq<string>)
      ensures candidates == Candidates(View())
    {
      candidates := [];
      if active != "" {
        candidates := [active];
      }
      ghost var head := candidates;
      for i := 0 to |hostAddrs|
        invariant candidates == head + Others(hostAddrs[..i], active)
      {
        assert hostAddrs[..i + 1][..i] == hostAddrs[..i];
        if hostAddrs[i] != active {
          candidates := candidates + [hostAddrs[i]];
        }
      }
      assert hostAddrs[..|hostAddrs|] == hostAddrs;
    }

    method RecordFailure()
      modifies `up, `consecFail, `active
      ensures View() == old(View()).(active := "", consecFail := old(consecFail) + 1, up := old(up) && old(consecFail) + 1 < 3)
    {
      if active != "" {
        active := "";
      }
      consecFail := consecFail + 1;
      if consecFail >= 3 && up {
        up := false;
      }
    }

    static method Walk(candidates: seq<string>, answers: Answers) returns (elected: Option<string>)
      ensures elected == FirstAnswering(candidates, answers)
    {
      assert candidates[0..] == candidates;
      for i := 0 to |candidates|
        invariant FirstAnswering(candidates[i..], answers) == FirstAnswering(candidates, answers)
      {
        assert candidates[i..][1..] == candidates[i + 1..];
        if answers(candidates[i]).Some? {
          return Some(candidates[i]);
        }
      }
      return None;
    }

    /** One round: walk the candidates, elect the first that answers, else count
        one failure for the server. */
    method ProbeServer(answers: Answers)
      modifies `up, `consecFail, `active, `models
      ensures View() == ProbeStep(old(View()), answers)
    {
      if |hostAddrs| > 0 {
        var candidates := ListCandidates();
        var elected := Walk(candidates, answers);
        if elected.Some? {
          up, consecFail, active, models := true, 0, elected.value, answers(elected.value).value;
        } else {
          RecordFailure();
        }
      }
    }
  }

  function KeyAt(hosts: seq<Host>, i: nat, j: nat): Key
    requires i < |hosts| && j < |hosts[i].servers|
  {
    Key(hosts[i].id, hosts[i].servers[j].id)
  }

  /** What the configuration wants of a server. */
  datatype Wish = Wish(addrs: seq<string>, cap: nat)

  /** The validator lets no negative cap through. */
  function CapOf(s: Server): nat {
    if s.maxConcurrency < 0 then 0 else s.maxConcurrency
  }

  function WishAt(hosts: seq<Host>, i: nat, j: nat): Wish
    requires i < |hosts| && j < |hosts[i].servers|
  {
    Wish(hosts[i].addresses, CapOf(hosts[i].servers[j]))
  }

  /** Server k is configured: some server of some host, with that host's addresses. */
  ghost predicate Configured(hosts: seq<Host>, k: Key, w: Wish) {
    exists i, j :: 0 <= i < |hosts| && 0 <= j < |hosts[i].servers| && k == KeyAt(hosts, i, j) && w == WishAt(hosts, i, j)
  }

  /** What the validator guarantees about ids. */
  ghost predicate UniqueIds(hosts: seq<Host>) {
    && (forall i, j :: 0 <= i < j < |hosts| ==> hosts[i].id != hosts[j].id)
    && (forall i, j, l :: 0 <= i < |hosts| && 0 <= j < l < |hosts[i].servers| ==> hosts[i].servers[j].id != hosts[i].servers[l].id)
  }

  /** `desired` covers the servers of the first i hosts and n of the next. */
  ghost predicate Covers(hosts: seq<Host>, i: nat, n: nat, desired: map<Key, Wish>)
    requires i <= |hosts| && (i < |hosts| ==> n <= |hosts[i].servers|)
  {
    && (forall a, j :: 0 <= a < |hosts| && 0 <= j < |hosts[a].servers| && (a < i || (a == i && j < n)) ==>
          KeyAt(hosts, a, j) in desired && desired[KeyAt(hosts, a, j)] == WishAt(hosts, a, j))
    && (forall k :: k in desired ==>
          exists a, j :: 0 <= a < |hosts| && 0 <= j < |hosts[a].servers| && k == KeyAt(hosts, a, j))
  }

  lemma CoversNone(hosts: seq<Host>)
    ensures Covers(hosts, 0, 0, map[])
  {
  }

  lemma CoversMore(hosts: seq<Host>, i: nat, n: nat, desired: map<Key, Wish>)
    requires UniqueIds(hosts) && i < |hosts| && n < |hosts[i].servers| && Covers(hosts, i, n, desired)
    ensures Covers(hosts, i, n + 1, desired[KeyAt(hosts, i, n) := WishAt(hosts, i, n)])
  {
    var more := desired[KeyAt(hosts, i, n) := WishAt(hosts, i, n)];
    forall a, j | 0 <= a < |hosts| && 0 <= j < |hosts[a].servers| && (a < i || (a == i && j < n + 1))
      ensures KeyAt(hosts, a, j) in more && more[KeyAt(hosts, a, j)] == WishAt(hosts, a, j)
    {
      KeysApart(hosts, a, j, i, n);
    }
  }

  lemma KeysApart(hosts: seq<Host>, a: nat, j: nat, i: nat, n: nat)
    requires UniqueIds(hosts) && a < |hosts| && j < |hosts[a].servers| && i < |hosts| && n < |hosts[i].servers|
    ensures KeyAt(hosts, a, j) == KeyAt(hosts, i, n) ==> a == i && j == n
  {
  }

  lemma CoversHost(hosts: seq<Host>, i: nat, desired: map<Key, Wish>)
    requires i < |hosts| && Covers(hosts, i, |hosts[i].servers|, desired)
    ensures Covers(hosts, i + 1, 0, desired)
  {
  }

  lemma CoversAll(hosts: seq<Host>, desired: map<Key, Wish>)
    requires Covers(hosts, |hosts|, 0, desired)
    ensures forall k, w :: Configured(hosts, k, w) ==> k in desired && desired[k] == w
    ensures forall k :: k in desired ==> Configured(hosts, k, desired[k])
  {
    hide KeyAt, WishAt;
    forall k | k in desired ensures Configured(hosts, k, desired[k]) {
      var a, j :| 0 <= a < |hosts| && 0 <= j < |hosts[a].servers| && k == KeyAt(hosts, a, j);
      assert desired[k] == WishAt(hosts, a, j);
    }
  }

  /** The manager of all servers. */
  class Manager {
    var states: map<Key, ServerState>
    var table: Table
    var ids: seq<string>

    /** The states of the servers as they are now. */
    function Views(): (v: Servers)
      reads this`states, states.Values
      ensures v.Keys == states.Keys
    {
      map k | k in states :: states[k].View()
    }

    /** Every state is filed under the key of its server. */
    ghost predicate Keyed()
      reads this`states
    {
      forall k :: k in states ==> states[k].key == k
    }

    ghost function Sems(): set<FairSemaphore.FairSem>
      reads this`states
    {
      set k | k in states :: states[k].sem
    }

    ghost function Waiters(): set<FairSemaphore.SemWaiter>
      reads this`states, Sems()
    {
      set k, t | k in states && t in states[k].sem.born :: states[k].sem.born[t]
    }

    /** Each server has a semaphore of its own, in good order. */
    ghost predicate SemsValid()
      reads this`states, Sems(), Waiters()
    {
      && (forall k :: k in states ==> states[k].SemValid())
      && (forall k, l :: k in states && l in states && k != l ==> states[k].sem != states[l].sem)
    }

    /** The published table agrees with a scan of the current server states. */
    ghost predicate Current()
      reads this, states.Values
    {
      IsRouteTable(table, Views()) && IsIdList(ids, table)
    }

    constructor ()
      ensures states == map[] && Keyed() && SemsValid() && Current()
    {
      states, table, ids := map[], map[], [];
    }

    method RebuildTable()
      modifies `table, `ids
      ensures old(Keyed()) ==> Keyed()
      ensures Current() && (old(SemsValid()) ==> SemsValid())
      ensures Views() == old(Views()) && SemViews() == old(SemViews())
    {
      hide IsRouteTable, IsIdList, SemsValid, Views, SemViews;
      table, ids := Rebuild(Views());
      SameViews();
      if old(SemsValid()) {
        SemsStay();
      }
    }

    twostate lemma SameViews()
      requires states == old(states) && forall k :: k in states ==> unchanged(states[k]) && unchanged(states[k].sem)
      ensures Views() == old(Views()) && SemViews() == old(SemViews())
    {
    }

    lemma ViewsAt(k: Key)
      requires k in states
      ensures Views()[k] == states[k].View()
    {
    }

    /** Only the one server is another. */
    twostate lemma ViewsMove(k: Key)
      requires Keyed() && old(Keyed()) && k in states && states == old(states)
      requires forall l :: l in states && l != k ==> unchanged(states[l])
      ensures Views() == old(Views())[k := states[k].View()]
    {
    }

    /** What leaves the semaphores and their waiters alone keeps them in order. */
    twostate lemma SemsStay()
      requires states == old(states) && old(SemsValid())
      requires forall k :: k in states ==> unchanged(states[k].sem)
      requires forall k, t :: k in states && t in states[k].sem.born ==> unchanged(states[k].sem.born[t])
      ensures SemsValid()
    {
      hide ServerState.SemValid;
      forall k | k in states ensures states[k].SemValid() {
        states[k].StaysValid();
      }
    }

    /** A probe round of one server, with its table rebuild. */
    method ProbeRound(k: Key, answers: Answers)
      requires Keyed() && k in states
      modifies this`table, this`ids, states[k]
      ensures Current() && (old(SemsValid()) ==> SemsValid())
      ensures Views() == old(Views())[k := ProbeStep(old(Views())[k], answers)]
      ensures old(NamedModels(Views())) && Named(answers) ==> NamedModels(Views())
    {
      hide ProbeStep, SemModel.Inv, SemsValid, Current, Views, SemViews, Named, NamedModels;
      RoundKeepsNamed(Views(), k, answers);
      ViewsAt(k);
      states[k].ProbeServer(answers);
      ViewsMove(k);
      if old(SemsValid()) {
        SemsStay();
      }
      RebuildTable();
    }

    static method Wanted(hosts: seq<Host>) returns (desired: map<Key, Wish>)
      requires UniqueIds(hosts)
      ensures forall k, w :: Configured(hosts, k, w) ==> k in desired && desired[k] == w
      ensures forall k :: k in desired ==> Configured(hosts, k, desired[k])
    {
      hide Covers, Configured, UniqueIds, KeyAt, WishAt;
      desired := map[];
      CoversNone(hosts);
      for i := 0 to |hosts|
        invariant Covers(hosts, i, 0, desired)
      {
        for j := 0 to |hosts[i].servers|
          invariant Covers(hosts, i, j, desired)
        {
          CoversMore(hosts, i, j, desired);
          desired := desired[KeyAt(hosts, i, j) := WishAt(hosts, i, j)];
        }
        CoversHost(hosts, i, desired);
      }
      CoversAll(hosts, desired);
    }

    static method Remaining(states: map<Key, ServerState>, desired: set<Key>) returns (kept: map<Key, ServerState>)
      ensures kept.Keys == states.Keys * desired && forall k :: k in kept ==> kept[k] == states[k]
    {
      kept := states;
      var todo := states.Keys;
      while todo != {}
        invariant todo <= states.Keys
        invariant forall k :: k in kept <==> k in states && (k in todo || k in desired)
        invariant forall k :: k in kept ==> kept[k] == states[k]
        decreases |todo|
      {
        var k :| k in todo;
        todo := todo - {k};
        if k !in desired {
          kept := kept - {k};
        }
      }
    }

    /** Stop vanished servers: they leave the map, and are otherwise left alone, as requests
        may still hold them. */
    method Vanish(desired: set<Key>)
      requires Keyed() && SemsValid()
      modifies `states
      ensures Keyed() && SemsValid() && states.Keys == old(states).Keys * desired
      ensures forall k :: k in states ==> states[k] == old(states)[k]
      ensures Views() == map k | k in old(Views()) && k in desired :: old(Views())[k]
      ensures SemViews() == map k | k in old(SemViews()) && k in desired :: old(SemViews())[k]
      ensures states.Values <= old(states.Values) && Sems() <= old(Sems()) && Waiters() <= old(Waiters())
    {
      hide Views, SemViews, Sems, Waiters, SemsValid, SemModel.Inv;
      var kept := Remaining(states, desired);
      states := kept;
      FewerObjects();
      FewerViews();
      FewerSems();
    }

    /** Some of the states of before, none of them touched. */
    twostate predicate Fewer()
      reads this`states, states.Values, set k | k in states :: states[k].sem
    {
      forall k :: k in states ==> k in old(states) && states[k] == old(states)[k] && unchanged(states[k]) && unchanged(states[k].sem)
    }

    twostate lemma FewerObjects()
      requires Fewer()
      ensures states.Values <= old(states.Values) && Sems() <= old(Sems()) && Waiters() <= old(Waiters())
    {
    }

    twostate lemma FewerViews()
      requires Fewer()
      ensures Views() == map k | k in old(Views()) && k in states :: old(Views())[k]
      ensures SemViews() == map k | k in old(SemViews()) && k in states :: old(SemViews())[k]
    {
    }

    twostate lemma FewerSems()
      requires Fewer() && old(SemsValid())
      requires forall k, t :: k in states && t in states[k].sem.born ==> unchanged(states[k].sem.born[t])
      ensures SemsValid()
    {
      hide ServerState.SemValid;
      forall k | k in states ensures states[k].SemValid() {
        states[k].StaysValid();
      }
    }

    /** An existing server takes its new addresses and cap; no other is touched. */
    method EditOne(k: Key, w: Wish, ghost view: ServerView, ghost sem: SemModel.Sem)
      requires Keyed() && SemsValid() && k in states && Stands(states[k], view, sem)
      modifies states[k], states[k].sem, states[k].sem.born.Values
      ensures SemsValid()
      ensures Stands(states[k], EditStep(view, w.addrs), CapAfter(sem, w.cap))
      ensures states[k].sem.born == old(states[k].sem.born)
      ensures forall l :: l in states && l != k ==> unchanged(states[l]) && unchanged(states[l].sem)
    {
      hide SemModel.Inv, SemModel.Step, EditStep, CapAfter;
      var st := states[k];
      assert st.SemValid();
      CapAfterIsStep(st.sem.View(), w.cap);
      var moved := st.SetConfig(w.addrs, w.cap);
      SemsStayBut(k);
    }

    /** Waiters belong to one semaphore, so changing one server's leaves the others'. */
    twostate lemma SemsStayBut(k: Key)
      requires states == old(states) && old(SemsValid()) && k in states && states[k].SemValid()
      requires states[k].sem.born == old(states[k].sem.born)
      requires forall l :: l in states && l != k ==> unchanged(states[l].sem)
      requires forall w: FairSemaphore.SemWaiter :: allocated(w) && old(allocated(w)) && w.sem != states[k].sem ==> unchanged(w)
      ensures SemsValid()
    {
      hide SemModel.Inv;
      forall l | l in states && l != k ensures states[l].SemValid() {
        states[l].StaysValid();
      }
    }

    /** A new server starts from scratch with a semaphore of its own. */
    method StartOne(k: Key, w: Wish)
      requires Keyed() && SemsValid() && k !in states
      modifies `states
      ensures Keyed() && SemsValid()
      ensures k in states && states == old(states)[k := states[k]]
      ensures fresh(states[k]) && fresh(states[k].sem) && states[k].sem.born == map[]
      ensures Stands(states[k], NewServer(w.addrs), SemModel.Fresh(w.cap))
    {
      hide SemModel.Inv, NewServer, SemsValid;
      var st := new ServerState(k, w.addrs, w.cap);
      states := states[k := st];
      OneMoreSem(k);
    }

    twostate lemma OneMoreSem(k: Key)
      requires old(SemsValid()) && k !in old(states) && k in states && states == old(states)[k := states[k]]
      requires states[k].SemValid() && fresh(states[k].sem)
      requires forall l :: l in old(states) ==> unchanged(states[l].sem)
      requires forall l, t :: l in old(states) && t in states[l].sem.born ==> unchanged(states[l].sem.born[t])
      ensures SemsValid()
    {
      hide ServerState.SemValid;
      forall l | l in old(states) ensures states[l].SemValid() {
        states[l].StaysValid();
      }
    }

    ghost function SemViews(): (v: map<Key, SemModel.Sem>)
      reads this`states, Sems()
      ensures v.Keys == states.Keys
    {
      map k | k in states :: states[k].sem.View()
    }

    /** The states of before are still the ones in use, with the waiters they had. */
    ghost predicate StillThere(kept: map<Key, ServerState>, borns: map<Key, map<nat, FairSemaphore.SemWaiter>>)
      requires kept.Keys == borns.Keys
      reads this`states, Sems()
    {
      forall k :: k in kept ==> k in states && states[k] == kept[k] && states[k].sem.born == borns[k]
    }

    lemma OneStillThere(kept: map<Key, ServerState>, borns: map<Key, map<nat, FairSemaphore.SemWaiter>>, k: Key)
      requires kept.Keys == borns.Keys && StillThere(kept, borns) && k in kept
      ensures k in states && states[k] == kept[k] && states[k].sem.born == borns[k]
    {
    }

    method UpdateKnown(k: Key, w: Wish, ghost kept: map<Key, ServerState>, ghost borns: map<Key, map<nat, FairSemaphore.SemWaiter>>)
      requires kept.Keys == borns.Keys && Keyed() && SemsValid() && StillThere(kept, borns) && k in states
      modifies states[k], states[k].sem, states[k].sem.born.Values
      ensures Keyed() && SemsValid() && StillThere(kept, borns)
      ensures Views() == old(Views())[k := ViewFor(old(Views()), k, w)]
      ensures SemViews() == old(SemViews())[k := SemFor(old(SemViews()), k, w)]
    {
      hide EditStep, NewServer, CapAfter, SemModel.Fresh, SemModel.Inv, SemsValid, Stands, Views, SemViews;
      StandsAre(k);
      EditOne(k, w, Views()[k], SemViews()[k]);
      StandsAre(k);
      assert states == states[k := states[k]];
      OneMoved(k);
    }

    method StartNew(k: Key, w: Wish, ghost kept: map<Key, ServerState>, ghost borns: map<Key, map<nat, FairSemaphore.SemWaiter>>)
      requires kept.Keys == borns.Keys && Keyed() && SemsValid() && StillThere(kept, borns) && k !in states
      modifies `states
      ensures Keyed() && SemsValid() && StillThere(kept, borns)
      ensures Views() == old(Views())[k := ViewFor(old(Views()), k, w)]
      ensures SemViews() == old(SemViews())[k := SemFor(old(SemViews()), k, w)]
    {
      hide EditStep, NewServer, CapAfter, SemModel.Fresh, SemModel.Inv, SemsValid, Stands, Views, SemViews;
      StartOne(k, w);
      StandsAre(k);
      OneMoved(k);
    }

    /** The server k has its wish, whether it was there before or not; the others stay. */
    method TakeWish(k: Key, w: Wish, ghost kept: map<Key, ServerState>, ghost borns: map<Key, map<nat, FairSemaphore.SemWaiter>>)
      requires kept.Keys == borns.Keys && Keyed() && SemsValid() && StillThere(kept, borns)
      modifies `states
      modifies if k in states then {states[k], states[k].sem} + states[k].sem.born.Values else {}
      ensures Keyed() && SemsValid() && StillThere(kept, borns)
      ensures Views() == old(Views())[k := ViewFor(old(Views()), k, w)]
      ensures SemViews() == old(SemViews())[k := SemFor(old(SemViews()), k, w)]
    {
      hide ViewFor, SemFor, SemModel.Inv, SemsValid, Views, SemViews, StillThere, Keyed;
      if k in states {
        UpdateKnown(k, w, kept, borns);
      } else {
        StartNew(k, w, kept, borns);
      }
    }

    lemma StandsAre(k: Key)
      ensures forall v, s :: k in states && Stands(states[k], v, s) ==> Views()[k] == v && SemViews()[k] == s
      ensures k in states ==> Stands(states[k], Views()[k], SemViews()[k])
    {
    }

    twostate lemma OneMoved(k: Key)
      requires k in states && states == old(states)[k := states[k]]
      requires forall l :: l in old(states) && l != k ==> unchanged(old(states)[l]) && unchanged(old(states)[l].sem)
      ensures Views() == old(Views())[k := Views()[k]]
      ensures SemViews() == old(SemViews())[k := SemViews()[k]]
    {
      hide Views, SemViews;
      OneViewMoved(k);
      OneSemMoved(k);
    }

    twostate lemma OneViewMoved(k: Key)
      requires k in states && states == old(states)[k := states[k]]
      requires forall l :: l in old(states) && l != k ==> unchanged(old(states)[l])
      ensures Views() == old(Views())[k := Views()[k]]
    {
    }

    twostate lemma OneSemMoved(k: Key)
      requires k in states && states == old(states)[k := states[k]]
      requires forall l :: l in old(states) && l != k ==> unchanged(old(states)[l].sem)
      ensures SemViews() == old(SemViews())[k := SemViews()[k]]
    {
    }

    method TakeAll(desired: map<Key, Wish>, ghost views: Servers, ghost sems: map<Key, SemModel.Sem>,
                   ghost kept: map<Key, ServerState>, ghost borns: map<Key, map<nat, FairSemaphore.SemWaiter>>, ghost frame: set<object>)
      requires Keyed() && SemsValid() && states.Keys <= desired.Keys
      requires states == kept && kept.Keys == borns.Keys && StillThere(kept, borns) && views == Views() && sems == SemViews()
      requires forall k :: k in kept ==> kept[k] in frame && kept[k].sem in frame && borns[k].Values <= frame
      modifies this`states, frame
      ensures Keyed() && SemsValid() && StillThere(kept, borns)
      ensures Views() == PartViews(views, desired, {}) && SemViews() == PartSems(sems, desired, {})
    {
      hide ViewFor, SemFor, SemModel.Inv, SemsValid, Views, SemViews, PartViews, PartSems, StillThere, Keyed;
      var todo := desired.Keys;
      NoneTaken(views, sems, desired);
      while todo != {}
        invariant todo <= desired.Keys && Keyed() && SemsValid() && StillThere(kept, borns)
        invariant Views() == PartViews(views, desired, todo) && SemViews() == PartSems(sems, desired, todo)
        decreases |todo|
      {
        var k :| k in todo;
        OneTaken(views, sems, desired, todo, k);
        if k in kept {
          OneStillThere(kept, borns, k);
        }
        todo := todo - {k};
        TakeWish(k, desired[k], kept, borns);
      }
    }

    /** Update existing, start new. */
    method Refresh(desired: map<Key, Wish>)
      requires Keyed() && SemsValid() && states.Keys <= desired.Keys
      modifies this`states, states.Values, Sems(), Waiters()
      ensures Keyed() && SemsValid() && (forall k :: k in old(states) ==> k in states && states[k] == old(states)[k])
      ensures Views() == map k | k in desired :: ViewFor(old(Views()), k, desired[k])
      ensures SemViews() == map k | k in desired :: SemFor(old(SemViews()), k, desired[k])
    {
      hide ViewFor, SemFor, SemModel.Inv, SemsValid, Views, SemViews, PartViews, PartSems, StillThere, Keyed;
      ghost var kept, views, sems := states, Views(), SemViews();
      ghost var borns := map k | k in states :: states[k].sem.born;
      ThereNow(borns);
      ghost var frame: set<object> := states.Values + Sems() + Waiters();
      TakeAll(desired, views, sems, kept, borns, frame);
      AllTaken(views, sems, desired);
      forall k | k in kept ensures k in states && states[k] == kept[k] {
        OneStillThere(kept, borns, k);
      }
    }

    lemma ThereNow(borns: map<Key, map<nat, FairSemaphore.SemWaiter>>)
      requires borns == map k | k in states :: states[k].sem.born
      ensures StillThere(states, borns)
    {
    }

    method Reconcile(desired: map<Key, Wish>)
      requires Keyed() && SemsValid()
      modifies this`states, states.Values, Sems(), Waiters()
      ensures Keyed() && SemsValid() && states.Keys == desired.Keys
      ensures forall k :: k in old(states) && k in desired ==> k in states && states[k] == old(states)[k]
      ensures Views() == map k | k in desired :: ViewFor(old(Views()), k, desired[k])
      ensures SemViews() == map k | k in desired :: SemFor(old(SemViews()), k, desired[k])
    {
      hide ViewFor, SemFor, SemModel.Inv, SemsValid, Views, SemViews, Sems, Waiters, Keyed;
      SameFor(Views(), SemViews(), desired);
      Vanish(desired.Keys);
      Refresh(desired);
    }

    method Grant(desired: map<Key, Wish>)
      requires Keyed() && SemsValid()
      modifies this, states.Values, Sems(), Waiters()
      ensures Keyed() && SemsValid() && Current() && states.Keys == desired.Keys
      ensures forall k :: k in old(states) && k in desired ==> states[k] == old(states)[k]
      ensures forall k :: k in desired ==>
        Views()[k] == ViewFor(old(Views()), k, desired[k]) && SemViews()[k] == SemFor(old(SemViews()), k, desired[k])
      ensures old(NamedModels(Views())) ==> NamedModels(Views())
    {
      hide ViewFor, SemFor, SemModel.Inv, SemsValid, Views, SemViews, Current, Keyed, NamedModels;
      ApplyKeepsNamed(Views(), desired);
      Reconcile(desired);
      RebuildTable();
    }

    /** The server of that host is run with the addresses and the limit it is given. */
    ghost predicate RunsAs(h: Host, s: Server)
      reads this`states, states.Values, Sems()
    {
      var k := Key(h.id, s.id);
      && k in states && states[k].hostAddrs == h.addresses
      && (s.maxConcurrency >= 0 ==> states[k].sem.View().capacity == s.maxConcurrency)
    }

    /** It is down, nothing is known of it, and all its slots are free. */
    ghost predicate RunsAnew(h: Host, s: Server)
      reads this`states, states.Values, Sems()
    {
      var k := Key(h.id, s.id);
      && k in states && !states[k].up && states[k].consecFail == 0 && states[k].active == "" && states[k].models == []
      && states[k].sem.View().avail == states[k].sem.View().capacity && states[k].sem.View().phase == []
    }

    /** What runs is what the hosts name, and what was not known before starts anew. */
    ghost predicate AllRun(hosts: seq<Host>, known: set<Key>)
      reads this`states, states.Values, Sems()
    {
      && (forall k :: k in states ==> exists h, s :: h in hosts && s in h.servers && k == Key(h.id, s.id))
      && (forall h, s :: h in hosts && s in h.servers ==> RunsAs(h, s) && (Key(h.id, s.id) !in known ==> RunsAnew(h, s)))
    }

    /** The servers of the hosts and no others, each with just its addresses and limit. */
    ghost predicate RunsJust(hosts: seq<Host>)
      reads this`states, states.Values, Sems()
    {
      && (forall k :: k in states <==> exists h, s :: h in hosts && s in h.servers && k == Key(h.id, s.id))
      && (forall h, s :: h in hosts && s in h.servers ==>
            var k := Key(h.id, s.id);
            k in states && states[k].hostAddrs == h.addresses && states[k].sem.View().capacity == s.maxConcurrency)
    }

    lemma JustRuns(hosts: seq<Host>, known: set<Key>)
      requires AllRun(hosts, known) && forall h, s :: h in hosts && s in h.servers ==> s.maxConcurrency >= 0
      ensures RunsJust(hosts)
    {
      hide RunsAnew;
      forall h, s | h in hosts && s in h.servers
        ensures var k := Key(h.id, s.id);
          k in states && states[k].hostAddrs == h.addresses && states[k].sem.View().capacity == s.maxConcurrency
      {
        assert RunsAs(h, s);
      }
    }

    /** Reconcile with the configuration: vanished servers go, known ones take their new
        addresses and cap, each its own, new ones start from scratch; then rebuild. */
    method Apply(hosts: seq<Host>)
      requires Keyed() && SemsValid() && UniqueIds(hosts)
      modifies this, states.Values, Sems(), Waiters()
      ensures Keyed() && SemsValid() && Current()
      ensures AllRun(hosts, old(states).Keys)
      ensures forall k :: k in states <==> exists w :: Configured(hosts, k, w)
      ensures forall k, w :: Configured(hosts, k, w) ==>
        && k in states && (k in old(states) ==> states[k] == old(states)[k])
        && Views()[k] == ViewFor(old(Views()), k, w)
        && SemViews()[k] == SemFor(old(SemViews()), k, w)
      ensures old(NamedModels(Views())) ==> NamedModels(Views())
    {
      hide ViewFor, SemFor, SemModel.Inv, SemsValid, Views, SemViews, Configured, UniqueIds, Current, Keyed, NamedModels, AllRun;
      var desired := Wanted(hosts);
      WantedKeys(hosts, desired);
      SemsInOrder();
      ghost var views, sems := Views(), SemViews();
      Grant(desired);
      AllRunAs(hosts, desired, views, sems);
    }

    /** Whoever has its wish runs as the configuration has it. */
    lemma AllRunAs(hosts: seq<Host>, desired: map<Key, Wish>, views: Servers, sems: map<Key, SemModel.Sem>)
      requires views.Keys == sems.Keys && (forall k :: k in sems ==> SemModel.Inv(sems[k])) && states.Keys == desired.Keys
      requires forall k, w :: Configured(hosts, k, w) ==> k in desired && desired[k] == w
      requires forall k :: k in desired ==> Configured(hosts, k, desired[k])
      requires forall k :: k in desired ==> Views()[k] == ViewFor(views, k, desired[k]) && SemViews()[k] == SemFor(sems, k, desired[k])
      ensures AllRun(hosts, views.Keys)
    {
      hide ViewFor, SemFor, SemModel.Inv, Views, SemViews, Configured, RunsAs, RunsAnew;
      forall k | k in states ensures exists h, s :: h in hosts && s in h.servers && k == Key(h.id, s.id) {
        ConfiguredOf(hosts, k, desired[k]);
      }
      forall h, s | h in hosts && s in h.servers ensures RunsAs(h, s) && (Key(h.id, s.id) !in views ==> RunsAnew(h, s)) {
        WishOf(hosts, h, s);
        GivenWish(h, s, Wish(h.addresses, CapOf(s)), views, sems);
      }
    }

    lemma SemsInOrder()
      requires SemsValid()
      ensures forall k :: k in SemViews() ==> SemModel.Inv(SemViews()[k])
    {
      hide SemModel.Inv;
    }

    lemma GivenWish(h: Host, s: Server, w: Wish, views: Servers, sems: map<Key, SemModel.Sem>)
      requires w == Wish(h.addresses, CapOf(s)) && views.Keys == sems.Keys && forall k :: k in sems ==> SemModel.Inv(sems[k])
      requires var k := Key(h.id, s.id); k in states && Views()[k] == ViewFor(views, k, w) && SemViews()[k] == SemFor(sems, k, w)
      ensures RunsAs(h, s) && (Key(h.id, s.id) !in views ==> RunsAnew(h, s))
    {
      hide SemModel.Inv, CapAfter, Join;
      var k := Key(h.id, s.id);
      StandsAre(k);
      if k in sems {
        CapAfterHasCap(sems[k], w.cap);
      }
    }
  }

  lemma CapAfterHasCap(s: SemModel.Sem, c: nat)
    requires SemModel.Inv(s)
    ensures CapAfter(s, c).capacity == c
  {
    SemModel.CapacityKeeps(s, c);
  }

  lemma ConfiguredOf(hosts: seq<Host>, k: Key, w: Wish)
    requires Configured(hosts, k, w)
    ensures exists h, s :: h in hosts && s in h.servers && k == Key(h.id, s.id)
  {
    var i, j :| 0 <= i < |hosts| && 0 <= j < |hosts[i].servers| && k == KeyAt(hosts, i, j) && w == WishAt(hosts, i, j);
    assert hosts[i] in hosts && hosts[i].servers[j] in hosts[i].servers;
  }

  lemma WishOf(hosts: seq<Host>, h: Host, s: Server)
    requires h in hosts && s in h.servers
    ensures Configured(hosts, Key(h.id, s.id), Wish(h.addresses, CapOf(s)))
  {
    var i :| 0 <= i < |hosts| && hosts[i] == h;
    var j :| 0 <= j < |h.servers| && h.servers[j] == s;
    assert KeyAt(hosts, i, j) == Key(h.id, s.id) && WishAt(hosts, i, j) == Wish(h.addresses, CapOf(s));
  }

  lemma RoundKeepsNamed(views: Servers, k: Key, answers: Answers)
    requires k in views
    ensures NamedModels(views) && Named(answers) ==> NamedModels(views[k := ProbeStep(views[k], answers)])
  {
    if NamedModels(views) && Named(answers) {
      ProbeKeepsNamed(views[k], answers);
    }
  }

  lemma ApplyKeepsNamed(views: Servers, desired: map<Key, Wish>)
    ensures NamedModels(views) ==> NamedModels(map k | k in desired :: ViewFor(views, k, desired[k]))
  {
    hide Join;
  }

  lemma WantedKeys(hosts: seq<Host>, desired: map<Key, Wish>)
    requires forall k, w :: Configured(hosts, k, w) ==> k in desired && desired[k] == w
    requires forall k :: k in desired ==> Configured(hosts, k, desired[k])
    ensures forall k :: k in desired <==> exists w :: Configured(hosts, k, w)
  {
    hide Configured;
  }

  /** A server that is wanted is known after the others have gone exactly if it was before. */
  lemma SameFor(views: Servers, sems: map<Key, SemModel.Sem>, desired: map<Key, Wish>)
    ensures var kept := map k | k in views && k in desired.Keys :: views[k];
      (map k | k in desired :: ViewFor(kept, k, desired[k])) == (map k | k in desired :: ViewFor(views, k, desired[k]))
    ensures var kept := map k | k in sems && k in desired.Keys :: sems[k];
      (map k | k in desired :: SemFor(kept, k, desired[k])) == (map k | k in desired :: SemFor(sems, k, desired[k]))
  {
    hide EditStep, NewServer, CapAfter, SemModel.Fresh;
  }

  /** The views when the wishes in `todo` are still to be taken. */
  ghost function PartViews(views: Servers, desired: map<Key, Wish>, todo: set<Key>): (v: Servers)
    ensures v.Keys == set k | k in desired && (k in views || k !in todo)
  {
    map k | k in desired && (k in views || k !in todo) :: if k in todo then views[k] else ViewFor(views, k, desired[k])
  }

  ghost function PartSems(sems: map<Key, SemModel.Sem>, desired: map<Key, Wish>, todo: set<Key>): (v: map<Key, SemModel.Sem>)
    ensures v.Keys == set k | k in desired && (k in sems || k !in todo)
  {
    map k | k in desired && (k in sems || k !in todo) :: if k in todo then sems[k] else SemFor(sems, k, desired[k])
  }

  lemma NoneTaken(views: Servers, sems: map<Key, SemModel.Sem>, desired: map<Key, Wish>)
    requires views.Keys <= desired.Keys && sems.Keys <= desired.Keys
    ensures PartViews(views, desired, desired.Keys) == views && PartSems(sems, desired, desired.Keys) == sems
  {
  }

  lemma OneTaken(views: Servers, sems: map<Key, SemModel.Sem>, desired: map<Key, Wish>, todo: set<Key>, k: Key)
    requires k in todo && k in desired
    ensures var v := PartViews(views, desired, todo);
      v[k := ViewFor(v, k, desired[k])] == PartViews(views, desired, todo - {k})
    ensures var v := PartSems(sems, desired, todo);
      v[k := SemFor(v, k, desired[k])] == PartSems(sems, desired, todo - {k})
  {
    hide EditStep, NewServer, CapAfter, SemModel.Fresh;
  }

  lemma AllTaken(views: Servers, sems: map<Key, SemModel.Sem>, desired: map<Key, Wish>)
    ensures PartViews(views, desired, {}) == map k | k in desired :: ViewFor(views, k, desired[k])
    ensures PartSems(sems, desired, {}) == map k | k in desired :: SemFor(sems, k, desired[k])
  {
  }

  /** A server that is known takes an edit, one that is not starts from scratch. */
  ghost function ViewFor(views: Servers, k: Key, w: Wish): ServerView {
    if k in views then EditStep(views[k], w.addrs) else NewServer(w.addrs)
  }

  ghost function SemFor(sems: map<Key, SemModel.Sem>, k: Key, w: Wish): SemModel.Sem {
    if k in sems then CapAfter(sems[k], w.cap) else SemModel.Fresh(w.cap)
  }

  /** How a server and its semaphore stand. */
  ghost predicate Stands(st: ServerState, view: ServerView, sem: SemModel.Sem)
    reads st, st.sem
  {
    st.View() == view && st.sem.View() == sem
  }

  lemma CapAfterIsStep(s: SemModel.Sem, c: nat)
    requires SemModel.Inv(s)
    ensures CapAfter(s, c) == SemModel.Step(s, SemModel.SetCapacity(c))
  {
  }

  /** A semaphore after a change of its cap. */
  ghost function CapAfter(s: SemModel.Sem, c: nat): SemModel.Sem {
    if SemModel.QueueKnown(s) then SemModel.CapacityStep(s, c) else s
  }
}
