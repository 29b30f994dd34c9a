/** The balancer within the interleavings: requests that are aimed where the policy picks
    on the registry as they read it, and register some steps later, are a run of admissions
    in the sense of Balancing, so its bounds hold of the registry at every moment. */
module RouteTraffic {
  import opened Balancer
  import opened Balancing
  import opened Lifecycle
  import opened Runs
  import ConfigTypes
  import opened Fleet

  /** The registry as it was once, when so many had been admitted through the route. */
  datatype Moment = Moment(registry: map<string, int>, admitted: nat)

  /** What the proof keeps beside the system: the admissions so far, for each request aimed
      at the route and not yet registered its pick and how many had been admitted when it
      read each member's count, and the moments there have been. */
  datatype Mark = Mark(member: nat, asOf: seq<nat>)

  datatype Book = Book(run: Run, aims: map<Rid, Mark>, past: seq<Moment>)

  const UNMARKED: Book := Book([], map[], [])

  ghost predicate IsRoute(ms: seq<Member>) {
    IdleRoute(ms) && forall i, j :: 0 <= i < j < |ms| ==> ms[i].model != ms[j].model
  }

  ghost predicate Names(ms: seq<Member>, id: string) {
    exists j :: 0 <= j < |ms| && ms[j].model == id
  }

  /** The route with these counts in flight to its members. */
  ghost function LoadedRoute(ms: seq<Member>, counts: seq<int>): (s: seq<Member>)
    requires |counts| == |ms|
    ensures |s| == |ms| && forall j :: 0 <= j < |ms| ==> s[j] == ms[j].(inFlight := counts[j], load := Carries(ms[j], counts[j]))
  {
    seq(|ms|, j requires 0 <= j < |ms| => ms[j].(inFlight := counts[j], load := Carries(ms[j], counts[j])))
  }

  ghost function CountsIn(ms: seq<Member>, registry: map<string, int>): (c: seq<int>)
    ensures |c| == |ms| && forall j :: 0 <= j < |ms| ==> c[j] == CountOf(registry, ms[j].model)
  {
    seq(|ms|, j requires 0 <= j < |ms| => CountOf(registry, ms[j].model))
  }

  ghost predicate AreReads(ms: seq<Member>, past: seq<Moment>, at: seq<nat>) {
    |at| == |ms| && forall j :: 0 <= j < |ms| ==> at[j] < |past|
  }

  /** Each member's count read at a moment of its own. */
  ghost function CountsRead(ms: seq<Member>, past: seq<Moment>, at: seq<nat>): (c: seq<int>)
    requires AreReads(ms, past, at)
    ensures |c| == |ms| && forall j :: 0 <= j < |ms| ==> c[j] == CountOf(past[at[j]].registry, ms[j].model)
  {
    seq(|ms|, j requires 0 <= j < |ms| => CountOf(past[at[j]].registry, ms[j].model))
  }

  ghost function AsOf(ms: seq<Member>, past: seq<Moment>, at: seq<nat>): (a: seq<nat>)
    requires AreReads(ms, past, at)
    ensures |a| == |ms| && forall j :: 0 <= j < |ms| ==> a[j] == past[at[j]].admitted
  {
    seq(|ms|, j requires 0 <= j < |ms| => past[at[j]].admitted)
  }

  /** The id is that of the member the policy picks on the counts read. */
  ghost predicate Picks(ms: seq<Member>, past: seq<Moment>, at: seq<nat>, id: string, p: int) {
    AreReads(ms, past, at) && IsPick(LoadedRoute(ms, CountsRead(ms, past, at)), p) && ms[p].model == id
  }

  ghost function Now(sys: System, book: Book): seq<Moment> {
    book.past + [Moment(sys.registry, |book.run|)]
  }

  ghost predicate Recent(m: Mark, run: Run, k: nat) {
    forall j :: 0 <= j < |m.asOf| ==> |run| < m.asOf[j] + k
  }

  /** The step keeps to the route: whoever is aimed at one of its members is aimed at the
      pick on counts it has read, fewer than k others register between any of a request's
      reads and its own registration, and nothing finishes. */
  ghost predicate Keeps(ms: seq<Member>, k: nat, sys: System, book: Book, e: Event) {
    match e
    case Aim(_, id, _) => Names(ms, id) ==> exists at, p :: Picks(ms, Now(sys, book), at, id, p)
    case Register(r) => r in book.aims ==> Recent(book.aims[r], book.run, k)
    case Unregister(_) => false
    case _ => true
  }

  ghost function NotedAim(ms: seq<Member>, past: seq<Moment>, book: Book, r: Rid, id: string): Book {
    if exists at, p :: Picks(ms, past, at, id, p)
    then
      var at, p :| Picks(ms, past, at, id, p);
      book.(aims := book.aims[r := Mark(p, AsOf(ms, past, at))])
    else book
  }

  ghost function Noted(ms: seq<Member>, sys: System, book: Book, e: Event): Book {
    var past := Now(sys, book);
    match e
    case Aim(r, id, _) => NotedAim(ms, past, book.(past := past), r, id)
    case Register(r) =>
      if r in book.aims
      then Book(book.run + [Admission(book.aims[r].member, book.aims[r].asOf)], book.aims, past)
      else book.(past := past)
    case _ => book.(past := past)
  }

  ghost predicate KeepsTo(ms: seq<Member>, k: nat, sys: System, book: Book, es: seq<Event>)
    requires Runs.Feasible(sys, es)
    decreases |es|
  {
    es != [] ==>
      && Keeps(ms, k, sys, book, es[0])
      && KeepsTo(ms, k, Lifecycle.Step(sys, es[0]), Noted(ms, sys, book, es[0]), es[1..])
  }

  // ----- what is kept -------------------------------------------------------------------------

  ghost predicate Reached(run: Run, asOf: seq<nat>) {
    forall j :: 0 <= j < |asOf| ==> asOf[j] <= |run|
  }

  /** The route with each count as it was after so many admissions. */
  ghost function SeenAt(ms: seq<Member>, run: Run, asOf: seq<nat>): (s: seq<Member>)
    requires |asOf| == |ms| && Reached(run, asOf)
    ensures |s| == |ms| && forall j :: 0 <= j < |ms| ==> s[j] == Loaded(ms[j], Count(run, j, asOf[j]))
  {
    seq(|ms|, j requires 0 <= j < |ms| => Loaded(ms[j], Count(run, j, asOf[j])))
  }

  ghost predicate CountsAgree(ms: seq<Member>, sys: System, run: Run) {
    Agreed(ms, Moment(sys.registry, |run|), run)
  }

  /** At that moment the registry counted the admissions so far. */
  ghost predicate Agreed(ms: seq<Member>, m: Moment, run: Run) {
    m.admitted <= |run| && forall j :: 0 <= j < |ms| ==> CountOf(m.registry, ms[j].model) == Count(run, j, m.admitted)
  }

  ghost predicate PastAgrees(ms: seq<Member>, past: seq<Moment>, run: Run) {
    forall t :: 0 <= t < |past| ==> Agreed(ms, past[t], run)
  }

  ghost predicate IsMark(ms: seq<Member>, run: Run, m: Mark, id: string) {
    && m.member < |ms| && ms[m.member].model == id
    && |m.asOf| == |ms| && Reached(run, m.asOf) && IsPick(SeenAt(ms, run, m.asOf), m.member)
  }

  /** A request aimed at a member of the route has its mark, and the mark is the pick on
      what it read. */
  ghost predicate Marked(ms: seq<Member>, sys: System, book: Book, r: Rid) {
    r in sys.requests && sys.requests[r].stage.Aimed? ==>
      if r in book.aims then IsMark(ms, book.run, book.aims[r], sys.requests[r].stage.id)
      else !Names(ms, sys.requests[r].stage.id)
  }

  ghost predicate InStep(ms: seq<Member>, k: nat, sys: System, book: Book) {
    && CountsAgree(ms, sys, book.run) && PastAgrees(ms, book.past, book.run) && Admits(ms, k, book.run)
    && (forall r :: Marked(ms, sys, book, r))
    && (forall r :: r in book.aims ==> r in sys.requests && !sys.requests[r].stage.Entered?)
  }

  lemma {:induction false} CountPrefix(a: Run, b: Run, j: nat, r: nat)
    requires r <= |a| && a <= b
    ensures Count(a, j, r) == Count(b, j, r)
  {
    if r > 0 {
      CountPrefix(a, b, j, r - 1);
    }
  }

  lemma SeenPrefix(ms: seq<Member>, a: Run, b: Run, asOf: seq<nat>)
    requires |asOf| == |ms| && Reached(a, asOf) && a <= b
    ensures Reached(b, asOf) && SeenAt(ms, a, asOf) == SeenAt(ms, b, asOf)
  {
    forall j | 0 <= j < |ms| ensures Count(a, j, asOf[j]) == Count(b, j, asOf[j]) {
      CountPrefix(a, b, j, asOf[j]);
    }
  }

  lemma MarkStays(ms: seq<Member>, a: Run, b: Run, m: Mark, id: string)
    requires IsMark(ms, a, m, id) && a <= b
    ensures IsMark(ms, b, m, id)
  {
    hide SeenAt, IsPick;
    SeenPrefix(ms, a, b, m.asOf);
  }

  lemma PastStays(ms: seq<Member>, past: seq<Moment>, a: Run, b: Run)
    requires PastAgrees(ms, past, a) && a <= b
    ensures PastAgrees(ms, past, b)
  {
    forall t | 0 <= t < |past| ensures Agreed(ms, past[t], b) {
      assert Agreed(ms, past[t], a);
      forall j | 0 <= j < |ms| ensures CountOf(past[t].registry, ms[j].model) == Count(b, j, past[t].admitted) {
        CountPrefix(a, b, j, past[t].admitted);
      }
    }
  }

  lemma NowAgrees(ms: seq<Member>, sys: System, book: Book)
    requires CountsAgree(ms, sys, book.run) && PastAgrees(ms, book.past, book.run)
    ensures PastAgrees(ms, Now(sys, book), book.run)
  {
    hide Agreed;
  }

  /** What the counts were when they were read is what the admissions had made them. */
  lemma ReadIsSeen(ms: seq<Member>, past: seq<Moment>, run: Run, at: seq<nat>)
    requires PastAgrees(ms, past, run) && AreReads(ms, past, at)
    ensures Reached(run, AsOf(ms, past, at))
    ensures LoadedRoute(ms, CountsRead(ms, past, at)) == SeenAt(ms, run, AsOf(ms, past, at))
  {
    assert forall j :: 0 <= j < |ms| ==> Agreed(ms, past[at[j]], run);
  }

  lemma PickIsMark(ms: seq<Member>, past: seq<Moment>, run: Run, at: seq<nat>, id: string, p: int)
    requires PastAgrees(ms, past, run) && Picks(ms, past, at, id, p)
    ensures IsMark(ms, run, Mark(p, AsOf(ms, past, at)), id)
  {
    hide PastAgrees, SeenAt, LoadedRoute, CountsRead, AsOf;
    ReadIsSeen(ms, past, run, at);
  }

  lemma NotedAimMarks(ms: seq<Member>, past: seq<Moment>, book: Book, r: Rid, id: string)
    requires PastAgrees(ms, past, book.run)
    requires Names(ms, id) ==> exists at, p :: Picks(ms, past, at, id, p)
    ensures var after := NotedAim(ms, past, book, r, id);
      && after.run == book.run && after.past == book.past && after.aims.Keys <= book.aims.Keys + {r}
      && (forall q :: q != r ==> (q in after.aims <==> q in book.aims) && (q in book.aims ==> after.aims[q] == book.aims[q]))
      && (Names(ms, id) ==> r in after.aims && IsMark(ms, book.run, after.aims[r], id))
      && (!Names(ms, id) ==> after == book)
  {
    hide PastAgrees, IsMark, AsOf;
    if exists at, p :: Picks(ms, past, at, id, p) {
      var at, p :| Picks(ms, past, at, id, p) && NotedAim(ms, past, book, r, id) == book.(aims := book.aims[r := Mark(p, AsOf(ms, past, at))]);
      PickIsMark(ms, past, book.run, at, id, p);
    }
  }

  lemma AimStep(ms: seq<Member>, k: nat, sys: System, book: Book, e: Event)
    requires IsRoute(ms) && InStep(ms, k, sys, book) && e.Aim?
    requires SemsSound(sys) && Enabled(sys, e) && Keeps(ms, k, sys, book, e)
    ensures InStep(ms, k, Lifecycle.Step(sys, e), Noted(ms, sys, book, e))
  {
    hide SemModel.Step, SemModel.Inv, NextServers, Admits, NotedAim, PastAgrees, Agreed, IsMark, Picks, IsRoute, Names;
    var next, after := Lifecycle.Step(sys, e), Noted(ms, sys, book, e);
    var past := Now(sys, book);
    NowAgrees(ms, sys, book);
    NotedAimMarks(ms, past, book.(past := past), e.r, e.id);
    assert e.r !in book.aims;
    forall r ensures Marked(ms, next, after, r) {
      assert Marked(ms, sys, book, r);
    }
  }

  /** An admission more: the pick on what the request read, not too long ago. */
  lemma AdmitsMore(ms: seq<Member>, k: nat, run: Run, m: Mark, id: string)
    requires Admits(ms, k, run) && IsMark(ms, run, m, id) && Recent(m, run, k)
    ensures Admits(ms, k, run + [Admission(m.member, m.asOf)])
  {
    hide IsPick;
    var more := run + [Admission(m.member, m.asOf)];
    forall r | 0 <= r < |more| ensures AdmitsAt(ms, k, more, r) {
      if r < |run| {
        assert AdmitsAt(ms, k, run, r) && more[r] == run[r];
        forall j | 0 <= j < |ms| ensures Count(more, j, more[r].asOf[j]) == Count(run, j, run[r].asOf[j]) {
          CountPrefix(run, more, j, run[r].asOf[j]);
        }
        assert Seen(ms, more, r) == Seen(ms, run, r);
      } else {
        SeenPrefix(ms, run, more, m.asOf);
        assert Seen(ms, more, r) == SeenAt(ms, more, m.asOf);
      }
    }
  }

  lemma CountsMove(ms: seq<Member>, sys: System, run: Run, a: Admission, id: string)
    requires IsRoute(ms) && CountsAgree(ms, sys, run) && a.member < |ms| && ms[a.member].model == id
    ensures Agreed(ms, Moment(Bumped(sys.registry, id, 1), |run| + 1), run + [a])
  {
    var more := run + [a];
    forall j | 0 <= j < |ms| ensures CountOf(Bumped(sys.registry, id, 1), ms[j].model) == Count(more, j, |more|) {
      CountPrefix(run, more, j, |run|);
    }
  }

  lemma CountsStay(ms: seq<Member>, sys: System, run: Run, id: string)
    requires CountsAgree(ms, sys, run) && !Names(ms, id)
    ensures Agreed(ms, Moment(Bumped(sys.registry, id, 1), |run|), run)
  {
  }

  lemma RegisterStep(ms: seq<Member>, k: nat, sys: System, book: Book, e: Event)
    requires IsRoute(ms) && InStep(ms, k, sys, book) && e.Register?
    requires SemsSound(sys) && Enabled(sys, e) && Keeps(ms, k, sys, book, e)
    ensures InStep(ms, k, Lifecycle.Step(sys, e), Noted(ms, sys, book, e))
  {
    hide SemModel.Step, SemModel.Inv, NextServers, Admits, Bumped, IsRoute, PastAgrees, Agreed, IsMark, Names, Now, Recent;
    var next, after := Lifecycle.Step(sys, e), Noted(ms, sys, book, e);
    assert Marked(ms, sys, book, e.r);
    NowAgrees(ms, sys, book);
    PastStays(ms, Now(sys, book), book.run, after.run);
    if e.r in book.aims {
      var m := book.aims[e.r];
      AdmitsMore(ms, k, book.run, m, sys.requests[e.r].stage.id);
      MarkNames(ms, book.run, m, sys.requests[e.r].stage.id);
      CountsMove(ms, sys, book.run, Admission(m.member, m.asOf), sys.requests[e.r].stage.id);
    } else {
      CountsStay(ms, sys, book.run, sys.requests[e.r].stage.id);
    }
    forall r ensures Marked(ms, next, after, r) {
      assert Marked(ms, sys, book, r);
      if r in book.aims && r in sys.requests && sys.requests[r].stage.Aimed? {
        MarkStays(ms, book.run, after.run, book.aims[r], sys.requests[r].stage.id);
      }
    }
  }

  lemma MarkNames(ms: seq<Member>, run: Run, m: Mark, id: string)
    requires IsMark(ms, run, m, id)
    ensures m.member < |ms| && ms[m.member].model == id
  {
  }

  lemma OtherStep(ms: seq<Member>, k: nat, sys: System, book: Book, e: Event)
    requires InStep(ms, k, sys, book) && !e.Aim? && !e.Register? && !e.Unregister?
    requires SemsSound(sys) && Enabled(sys, e)
    ensures InStep(ms, k, Lifecycle.Step(sys, e), Noted(ms, sys, book, e))
  {
    hide SemModel.Step, SemModel.Inv, SemModel.Enabled, NextServers, Admits, Logs, PastAgrees, Agreed, IsMark, Now, Names;
    var next := Lifecycle.Step(sys, e);
    NowAgrees(ms, sys, book);
    forall r ensures Marked(ms, next, Noted(ms, sys, book, e), r) {
      assert Marked(ms, sys, book, r);
    }
  }

  lemma StepKeepsInStep(ms: seq<Member>, k: nat, sys: System, book: Book, e: Event)
    requires IsRoute(ms) && InStep(ms, k, sys, book)
    requires SemsSound(sys) && Enabled(sys, e) && Keeps(ms, k, sys, book, e)
    ensures InStep(ms, k, Lifecycle.Step(sys, e), Noted(ms, sys, book, e))
  {
    hide InStep, SemsSound, Enabled, Lifecycle.Step, Noted, IsRoute;
    match e
    case Aim(_, _, _) => AimStep(ms, k, sys, book, e);
    case Register(_) => RegisterStep(ms, k, sys, book, e);
    case Unregister(_) =>
    case _ => OtherStep(ms, k, sys, book, e);
  }

  lemma {:induction false} RunStaysInStep(ms: seq<Member>, k: nat, sys: System, book: Book, es: seq<Event>) returns (run: Run)
    requires IsRoute(ms) && InStep(ms, k, sys, book)
    requires Runs.Feasible(sys, es) && KeepsTo(ms, k, sys, book, es)
    ensures Admits(ms, k, run) && CountsAgree(ms, Runs.After(sys, es), run)
    decreases |es|
  {
    if es == [] {
      run := book.run;
    } else {
      StepKeepsInStep(ms, k, sys, book, es[0]);
      run := RunStaysInStep(ms, k, Lifecycle.Step(sys, es[0]), Noted(ms, sys, book, es[0]), es[1..]);
    }
  }

  /** A run from the start that keeps to the route. */
  ghost predicate Traffic(ms: seq<Member>, k: nat, es: seq<Event>) {
    IsRoute(ms) && Runs.Feasible(EMPTY, es) && KeepsTo(ms, k, EMPTY, UNMARKED, es)
  }

  lemma NothingYet(ms: seq<Member>, k: nat)
    ensures InStep(ms, k, EMPTY, UNMARKED)
  {
  }

  lemma TrafficIsAdmissions(ms: seq<Member>, k: nat, es: seq<Event>) returns (run: Run)
    requires Traffic(ms, k, es)
    ensures Admits(ms, k, run)
    ensures forall j :: 0 <= j < |ms| ==> CountOf(Runs.After(EMPTY, es).registry, ms[j].model) == Count(run, j, |run|)
  {
    hide InStep, KeepsTo, IsRoute, Admits;
    NothingYet(ms, k);
    run := RunStaysInStep(ms, k, EMPTY, UNMARKED, es);
  }

  /** Through whatever interleaving of requests, health changes and cap edits: as long as
      requests for the route go where the policy picks on the counts they read, each when it
      may, fewer than k others register in between, and nothing finishes, no member that
      answers carries more in-flight cost, by the registry, than another and k of its own
      connections. */
  lemma RegistrySpread(ms: seq<Member>, k: nat, es: seq<Event>, i: nat, j: nat)
    requires Traffic(ms, k, es)
    requires i < |ms| && j < |ms| && ms[i].Available() && ms[j].Available()
    ensures var registry := Runs.After(EMPTY, es).registry;
      Carries(ms[i], CountOf(registry, ms[i].model)) <= Carries(ms[j], CountOf(registry, ms[j].model)) + Carries(ms[i], k)
  {
    hide Admits, Carries, KeepsTo, Runs.After, Runs.Feasible;
    var run := TrafficIsAdmissions(ms, k, es);
    SpreadBound(ms, k, run, |run|, i, j);
  }

  /** The members' connections by the registry. */
  ghost function Held(ms: seq<Member>, registry: map<string, int>): (f: seq<real>)
    ensures |f| == |ms| && forall j :: 0 <= j < |ms| ==> f[j] == CountOf(registry, ms[j].model) as real
  {
    seq(|ms|, j requires 0 <= j < |ms| => CountOf(registry, ms[j].model) as real)
  }

  lemma HeldIsAdmitted(ms: seq<Member>, k: nat, registry: map<string, int>, run: Run)
    requires Admits(ms, k, run) && forall j :: 0 <= j < |ms| ==> CountOf(registry, ms[j].model) == Count(run, j, |run|)
    ensures Sum(Held(ms, registry)) == |run| as real
  {
    hide Admits, Count, Sum;
    CountsAddUp(ms, k, run, |run|);
    assert Held(ms, registry) == Counts(ms, run, |run|);
  }

  /** In the same traffic, with N connections in all by the registry, a member that answers
      has its share of them, but for what k and the number of members that answer allow. */
  lemma RegistryShares(ms: seq<Member>, k: nat, es: seq<Event>, i: nat)
    requires Traffic(ms, k, es) && i < |ms| && ms[i].Available()
    ensures var registry := Runs.After(EMPTY, es).registry;
      var n, held := Sum(Held(ms, registry)), CountOf(registry, ms[i].model) as real;
      && held <= Times(n - k as real, Share(ms, i)) + k as real
      && held >= Times(n + k as real - Times(k as real, Answering(ms)), Share(ms, i))
  {
    hide Admits, KeepsTo, Runs.After, Runs.Feasible, Share, Sum, Answering, Times, Held, Count;
    var run := TrafficIsAdmissions(ms, k, es);
    HeldIsAdmitted(ms, k, Runs.After(EMPTY, es).registry, run);
    ShareAtMost(ms, k, run, i);
    ShareAtLeast(ms, k, run, i);
  }

  /** And if no other registers in between, no other way to hand out as many connections to
      the members that answer leaves the least loaded of them with more. */
  lemma RegistryMaxMin(ms: seq<Member>, es: seq<Event>, held: seq<nat>, other: seq<nat>, l: real, l': real)
    requires Traffic(ms, 1, es) && |held| == |other| == |ms|
    requires forall j :: 0 <= j < |ms| ==> held[j] == CountOf(Runs.After(EMPTY, es).registry, ms[j].model)
    requires forall j :: 0 <= j < |ms| && !ms[j].Available() ==> other[j] == 0
    requires Sum(Reals(other)) == Sum(Reals(held)) && LeastLoad(ms, held, l) && LeastLoad(ms, other, l')
    ensures l' <= l
  {
    hide Admits, KeepsTo, Runs.After, Runs.Feasible, Sum, Count, LeastLoad;
    var run := TrafficIsAdmissions(ms, 1, es);
    HeldIsAdmitted(ms, 1, Runs.After(EMPTY, es).registry, run);
    assert Reals(held) == Held(ms, Runs.After(EMPTY, es).registry);
    assert Final(ms, run) == held;
    MaxMinOptimal(ms, run, other, l, l');
  }

  // ----- the route as it is compiled --------------------------------------------------------------

  /** The members of a configured route with nothing in flight. */
  ghost function IdleMembers(r: ConfigTypes.Route, table: Table, servers: Servers): (ms: seq<Member>)
    ensures |ms| == |r.members| && forall j :: 0 <= j < |ms| ==> ms[j] == Compiled(r.members[j], 0, table, servers)
  {
    seq(|r.members|, j requires 0 <= j < |r.members| => Compiled(r.members[j], 0, table, servers))
  }

  /** Compiling a route is loading its idle members with what the registry counts. */
  lemma CompiledIsLoaded(r: ConfigTypes.Route, regs: Registry, table: Table, servers: Servers)
    ensures var ms := IdleMembers(r, table, servers);
      CompiledRoute(r, regs, table, servers) == LoadedRoute(ms, CountsIn(ms, regs.n))
  {
  }

  /** What `Resolve` answers is a pick in the sense of the traffic above, of a request that
      reads all its counts now. */
  lemma ResolvedPicks(r: ConfigTypes.Route, regs: Registry, table: Table, servers: Servers, past: seq<Moment>, i: int)
    requires IsPick(CompiledRoute(r, regs, table, servers), i) && past != [] && past[|past| - 1].registry == regs.n
    ensures var ms := IdleMembers(r, table, servers);
      Picks(ms, past, seq(|ms|, _ => |past| - 1), CompiledRoute(r, regs, table, servers)[i].model, i)
  {
    var ms := IdleMembers(r, table, servers);
    var at: seq<nat> := seq(|ms|, _ => |past| - 1);
    CompiledIsLoaded(r, regs, table, servers);
    assert AreReads(ms, past, at);
    assert CountsRead(ms, past, at) == CountsIn(ms, regs.n);
    assert ms[i].model == CompiledRoute(r, regs, table, servers)[i].model;
  }
}
