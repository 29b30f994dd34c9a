/** Whole runs of the request machine, from a proxy with no server and no request. */
module Runs {
  import SemModel
  import opened Balancer
  import opened Outcomes
  import opened Lifecycle
  import opened Conservation

  const EMPTY := System(map[], map[], map[])

  ghost predicate Feasible(sys: System, es: seq<Event>)
    decreases |es|
  {
    es == [] || (SemsSound(sys) && Enabled(sys, es[0]) && Feasible(Step(sys, es[0]), es[1..]))
  }

  ghost function After(sys: System, es: seq<Event>): System
    requires Feasible(sys, es)
    decreases |es|
  {
    if es == [] then sys else After(Step(sys, es[0]), es[1..])
  }

  lemma EmptyIsSound()
    ensures Sound(EMPTY)
  {
  }

  lemma {:induction false} RunKeepsSound(sys: System, es: seq<Event>)
    requires Sound(sys) && Feasible(sys, es)
    ensures Sound(After(sys, es))
    decreases |es|
  {
    hide Sound, Enabled, Step;
    if es != [] {
      StepKeepsSound(sys, es[0]);
      RunKeepsSound(Step(sys, es[0]), es[1..]);
    }
  }

  // ----- slots and their holders ------------------------------------------------------

  ghost function HeldTickets(phase: seq<SemModel.Phase>): set<nat> {
    set t: nat | t < |phase| && (phase[t].Offered? || phase[t].Holding?)
  }

  lemma {:induction false} HeldIsCount(phase: seq<SemModel.Phase>)
    ensures multiset(phase)[SemModel.Offered] + multiset(phase)[SemModel.Holding] == |HeldTickets(phase)|
  {
    if phase != [] {
      var n := |phase| - 1;
      HeldIsCount(phase[..n]);
      assert phase == phase[..n] + [phase[n]];
      var more := if phase[n].Offered? || phase[n].Holding? then {n} else {};
      assert HeldTickets(phase) == HeldTickets(phase[..n]) + more;
    }
  }

  lemma {:induction false} OneEach(ts: set<nat>, owner: seq<Rid>, hs: set<Rid>)
    requires forall t :: t in ts ==> t < |owner| && owner[t] in hs
    requires forall t, u :: t in ts && u in ts && owner[t] == owner[u] ==> t == u
    requires forall h :: h in hs ==> exists t :: t in ts && owner[t] == h
    ensures |ts| == |hs|
  {
    if ts == {} {
      assert hs == {};
    } else {
      var t :| t in ts;
      OneEach(ts - {t}, owner, hs - {owner[t]});
    }
  }

  /** The slots of a server that are held are exactly the requests past their wait
      and not yet done with it, and those whose grant is on its way. */
  lemma HeldByHolders(sys: System, sid: Sid)
    requires Sound(sys) && sid in sys.servers
    ensures sys.servers[sid].sem.Held() == |Holders(sys, sid)|
  {
    var sem, owner := sys.servers[sid].sem, sys.servers[sid].owner;
    var ts := HeldTickets(sem.phase);
    HeldIsCount(sem.phase);
    hide SemModel.Inv, SemsSound, RegistryCounts, InFlightCounts, LoggedOnce;
    forall t | t in ts ensures t < |owner| && owner[t] in Holders(sys, sid) && sys.requests[owner[t]].stage.ticket == t {
      assert TicketAgrees(sys, sid, t);
    }
    forall h | h in Holders(sys, sid) ensures exists t :: t in ts && owner[t] == h {
      var t := sys.requests[h].stage.ticket;
      assert OwnerKnown(sys, h, sid, t);
      assert t < |owner| && owner[t] == h;
      assert TicketAgrees(sys, sid, t);
      assert t in ts;
    }
    OneEach(ts, owner, Holders(sys, sid));
  }

  // ----- what a whole run leaves ---------------------------------------------------------

  /** Conservation. In every interleaving of requests, health changes and capacity
      edits, at every moment: the registry counts the requests admitted to each id,
      in-flight counts the requests being served, the slots held are the requests
      holding them, and a request has logged one outcome exactly when it is on its
      way out. */
  lemma Conserved(es: seq<Event>)
    requires Feasible(EMPTY, es)
    ensures var sys := After(EMPTY, es);
      && (forall id :: CountOf(sys.registry, id) == |AdmittedTo(sys, id)|)
      && (forall sid :: sid in sys.servers ==>
            && sys.servers[sid].inFlight == |InFlightOn(sys, sid)|
            && sys.servers[sid].sem.Held() == |Holders(sys, sid)|
            && sys.servers[sid].inFlight <= sys.servers[sid].sem.Held())
      && (forall r :: r in sys.requests ==>
            && |sys.requests[r].log| == (if sys.requests[r].stage.Logged() then 1 else 0)
            && forall i :: 0 <= i < |sys.requests[r].log| ==> Sensible(sys.requests[r].log[i]))
  {
    var sys := After(EMPTY, es);
    EmptyIsSound();
    RunKeepsSound(EMPTY, es);
    forall sid | sid in sys.servers
      ensures sys.servers[sid].sem.Held() == |Holders(sys, sid)| && |InFlightOn(sys, sid)| <= |Holders(sys, sid)| {
      HeldByHolders(sys, sid);
      SubsetCount(InFlightOn(sys, sid), Holders(sys, sid));
    }
  }

  lemma {:induction false} SubsetCount<T>(a: set<T>, b: set<T>)
    requires a <= b
    ensures |a| <= |b|
  {
    if a != {} {
      var x :| x in a;
      SubsetCount(a - {x}, b - {x});
    }
  }

  // ----- the cap, end to end ----------------------------------------------------------------

  ghost predicate ExactCap(s: SemModel.Sem) {
    s.capacity > 0 && s.Held() + s.avail == s.capacity
  }

  /** The event leaves the server a cap above zero and cuts no more than is free. */
  ghost predicate GentleTo(sys: System, e: Event, sid: Sid) {
    && (e.StartServer? && e.sid == sid ==> e.c > 0)
    && (e.EditCapacity? && e.sid == sid && sid in sys.servers ==>
          e.c > 0 && sys.servers[sid].sem.capacity - e.c <= sys.servers[sid].sem.avail)
  }

  ghost predicate GentleRun(sys: System, es: seq<Event>, sid: Sid)
    requires Feasible(sys, es)
    decreases |es|
  {
    es != [] ==> GentleTo(sys, es[0], sid) && GentleRun(Step(sys, es[0]), es[1..], sid)
  }

  lemma SemKeepsCap(s: SemModel.Sem, f: SemModel.Event)
    requires SemModel.Inv(s) && SemModel.Enabled(s, f) && ExactCap(s)
    requires f.SetCapacity? ==> f.c > 0 && s.capacity - f.c <= s.avail
    ensures ExactCap(SemModel.Step(s, f))
  {
    SemModel.StepKeeps(s, f);
    if f.SetCapacity? {
      SemModel.CapacityKeeps(s, f.c);
    } else {
      SemModel.StepSurplus(s, f);
    }
  }

  lemma StepKeepsCap(sys: System, e: Event, sid: Sid)
    requires SemsSound(sys) && Enabled(sys, e) && GentleTo(sys, e, sid)
    requires sid in sys.servers ==> ExactCap(sys.servers[sid].sem)
    ensures sid in Step(sys, e).servers ==> ExactCap(Step(sys, e).servers[sid].sem)
  {
    hide SemModel.Step, SemModel.Inv, SemModel.Enabled, Step;
    StepTurns(sys, e);
    if sid in sys.servers && Turns(sys, e, sid) {
      SemKeepsCap(sys.servers[sid].sem, Turn(sys, e));
    } else if sid !in sys.servers && e.StartServer? {
      FreshCap(e.c);
    }
  }

  lemma FreshCap(c: nat)
    ensures c > 0 ==> ExactCap(SemModel.Fresh(c))
  {
  }

  lemma {:induction false} CapKept(sys: System, es: seq<Event>, sid: Sid)
    requires Sound(sys) && Feasible(sys, es) && GentleRun(sys, es, sid)
    requires sid in sys.servers ==> ExactCap(sys.servers[sid].sem)
    ensures sid in After(sys, es).servers ==> ExactCap(After(sys, es).servers[sid].sem)
    decreases |es|
  {
    hide Enabled, Step, ExactCap, GentleTo;
    if es != [] {
      StepKeepsSound(sys, es[0]);
      StepKeepsCap(sys, es[0], sid);
      CapKept(Step(sys, es[0]), es[1..], sid);
    }
  }

  /** At no moment of any interleaving does a server serve more requests than its cap, as
      long as the cap stays above zero and is never cut by more than what is free. */
  lemma NeverOverCap(es: seq<Event>, sid: Sid)
    requires Feasible(EMPTY, es) && GentleRun(EMPTY, es, sid)
    ensures sid in After(EMPTY, es).servers ==>
      var server := After(EMPTY, es).servers[sid];
      |InFlightOn(After(EMPTY, es), sid)| <= |Holders(After(EMPTY, es), sid)| <= server.sem.capacity
  {
    EmptyIsSound();
    CapKept(EMPTY, es, sid);
    Conserved(es);
  }

  /** Once every request has ended, nothing is left over: the registry is empty, no
      server counts anything in flight, every slot is free and nobody waits. */
  lemma IdleAgain(es: seq<Event>)
    requires Feasible(EMPTY, es)
    requires forall r :: r in After(EMPTY, es).requests ==> After(EMPTY, es).requests[r].stage.Ended?
    ensures var sys := After(EMPTY, es);
      && sys.registry == map[]
      && forall sid :: sid in sys.servers ==>
           && sys.servers[sid].inFlight == 0 && sys.servers[sid].sem.Held() == 0
           && sys.servers[sid].sem.avail == sys.servers[sid].sem.capacity && sys.servers[sid].sem.queue == []
  {
    hide SemModel.Ordered, TicketsAgree, LoggedOnce, Feasible, Step;
    var sys := After(EMPTY, es);
    EmptyIsSound();
    RunKeepsSound(EMPTY, es);
    forall id ensures id !in sys.registry {
      assert AdmittedTo(sys, id) == {};
    }
    forall sid | sid in sys.servers ensures InFlightOn(sys, sid) == {} && Holders(sys, sid) == {} && sys.servers[sid].sem.Held() == 0 {
      HeldByHolders(sys, sid);
    }
  }

  /** The outcome a request logs is final. */
  lemma {:induction false} OutcomeIsFinal(sys: System, es: seq<Event>, r: Rid)
    requires Sound(sys) && Feasible(sys, es) && r in sys.requests && sys.requests[r].stage.Logged()
    ensures r in After(sys, es).requests && After(sys, es).requests[r].log == sys.requests[r].log
    decreases |es|
  {
    if es != [] {
      StepKeepsSound(sys, es[0]);
      KeepsOutcome(sys, es[0], r);
      OutcomeIsFinal(Step(sys, es[0]), es[1..], r);
    }
  }

  lemma KeepsOutcome(sys: System, e: Event, r: Rid)
    requires Sound(sys) && Enabled(sys, e) && r in sys.requests && sys.requests[r].stage.Logged()
    ensures r in Step(sys, e).requests && Step(sys, e).requests[r].stage.Logged()
    ensures Step(sys, e).requests[r].log == sys.requests[r].log
  {
    hide SemModel.Step, SemModel.Inv, NextServers, NextRegistry, TicketsAgree;
  }

  // ----- health ---------------------------------------------------------------------------------

  /** What the last report on a server's health in the run says; none, and it is down. */
  ghost function LastReport(es: seq<Event>, sid: Sid, before: bool): bool {
    if es == [] then before
    else LastReport(es[1..], sid, match es[0] case SetHealth(s, up) => if s == sid then up else before case _ => before)
  }

  /** A server starts out down, and is up exactly if the last report said so. */
  lemma {:induction false} UpIsLastReport(sys: System, es: seq<Event>, sid: Sid)
    requires Sound(sys) && Feasible(sys, es) && sid in After(sys, es).servers
    ensures After(sys, es).servers[sid].up == LastReport(es, sid, sid in sys.servers && sys.servers[sid].up)
    decreases |es|
  {
    hide Sound, Enabled, Step;
    if es != [] {
      StepKeepsSound(sys, es[0]);
      StepReports(sys, es[0], sid);
      UpIsLastReport(Step(sys, es[0]), es[1..], sid);
    }
  }

  lemma StepReports(sys: System, e: Event, sid: Sid)
    requires Sound(sys) && Enabled(sys, e)
    ensures sid in sys.servers ==> sid in Step(sys, e).servers
    ensures (sid in Step(sys, e).servers && Step(sys, e).servers[sid].up) <==>
      LastReport([e], sid, sid in sys.servers && sys.servers[sid].up)
  {
    hide SemModel.Step, SemModel.Inv, SemModel.Enabled, NextRegistry, NextStage, Logs, SemAfter, TicketsAgree, RegistryCounts, InFlightCounts, LoggedOnce;
  }

  // ----- what the outcome of a request tells ------------------------------------------------

  ghost predicate UpNow(sys: System, r: Rid)
    requires Bound(sys, r)
  {
    sys.servers[sys.requests[r].stage.sid].up
  }

  /** The step by which a request comes to an outcome, told from the outcome. */
  ghost predicate Explains(sys: System, e: Event, o: Outcome)
    requires Enabled(sys, e)
  {
    match o
    case Rejected(400) => e.Refuse? && e.http == 400
    case Rejected(404) => e.Refuse? && e.http == 404
    case Rejected(429) => e.LogLost? && !e.clientGone && UpNow(sys, e.r)
    case Rejected(503) => ((e.LogLost? && !e.clientGone) || e.CheckUp?) && !UpNow(sys, e.r)
    case Rejected(500) => e.Dispatch? && e.b in {EncodeFailed, BuildFailed}
    case Rejected(_) => false
    case Finish(Ok, http) => e.Dispatch? && WentWell(e.b, http)
    case Finish(Cancelled, http) => http == 499 && ((e.LogLost? && e.clientGone) || (e.Dispatch? && ClientLeft(e.b)))
    case Finish(UpstreamTimeout, http) => e.Dispatch? && TimedOut(e.b, http)
    case Finish(UpstreamError, http) => e.Dispatch? && Broke(e.b, http)
  }

  lemma StepTells(sys: System, e: Event, o: Outcome)
    requires Enabled(sys, e)
    ensures Logs(sys, e) == [o] <==> Explains(sys, e, o)
    ensures |Logs(sys, e)| <= 1
  {
    hide SemModel.Enabled, SemModel.Inv;
    if e.Dispatch? {
      OutcomeSaysHow(e.b, o);
    }
  }

  /** The one outcome a request has logged says which way out it took, in every run: there
      is a step of its own that explains it. */
  lemma {:induction false} OutcomeTells(sys: System, es: seq<Event>, r: Rid) returns (n: nat, mid: System)
    requires Sound(sys) && Feasible(sys, es) && LogOf(sys, r) == []
    requires LogOf(After(sys, es), r) != []
    ensures n < |es| && Feasible(sys, es[..n]) && mid == After(sys, es[..n])
    ensures OfRequest(es[n]) && es[n].r == r && Enabled(mid, es[n])
    ensures |LogOf(After(sys, es), r)| == 1 && Explains(mid, es[n], LogOf(After(sys, es), r)[0])
    decreases |es|
  {
    hide Enabled, Step, Explains, Sound, LogOf;
    n, mid := 0, sys;
    if es != [] {
      var next := Step(sys, es[0]);
      StepKeepsSound(sys, es[0]);
      StepLogs(sys, es[0], r);
      if LogOf(next, r) == [] {
        n, mid := OutcomeTells(next, es[1..], r);
        n := n + 1;
        assert es[..n] == [es[0]] + es[1..][..n - 1];
      } else {
        LoggedStays(next, es[1..], r);
      }
    }
  }

  /** A step adds to the log of the request that takes it, and of no other. */
  lemma StepLogs(sys: System, e: Event, r: Rid)
    requires SemsSound(sys) && Enabled(sys, e)
    ensures OfRequest(e) && e.r == r ==> LogOf(Step(sys, e), r) == LogOf(sys, r) + Logs(sys, e)
    ensures !(OfRequest(e) && e.r == r) ==> LogOf(Step(sys, e), r) == LogOf(sys, r)
    ensures LogOf(sys, r) == [] && LogOf(Step(sys, e), r) != [] ==>
      OfRequest(e) && e.r == r && |LogOf(Step(sys, e), r)| == 1 && Explains(sys, e, LogOf(Step(sys, e), r)[0])
  {
    hide SemModel.Step, SemModel.Inv, SemModel.Enabled, NextServers, NextRegistry, NextStage, Explains, Logs;
    if OfRequest(e) && e.r == r && Logs(sys, e) != [] {
      StepTells(sys, e, Logs(sys, e)[0]);
      assert Logs(sys, e) == [Logs(sys, e)[0]];
    }
  }

  lemma LoggedStays(sys: System, es: seq<Event>, r: Rid)
    requires Sound(sys) && Feasible(sys, es) && LogOf(sys, r) != []
    ensures LogOf(After(sys, es), r) == LogOf(sys, r)
  {
    hide SemsSound, StagesKnown, TicketsAgree, RegistryCounts, InFlightCounts;
    assert sys.requests[r].stage.Logged();
    OutcomeIsFinal(sys, es, r);
  }

  // ----- every request comes to its end --------------------------------------------------

  /** How far along a request is. */
  ghost function Rank(s: Stage): nat {
    match s
    case Entered => 1
    case Aimed(_, _) => 2
    case Registered(_, _) => 3
    case Parked(_, _, _) => 4
    case Lost(_, _) => 5
    case Slotted(_, _, _) => 5
    case Serving(_, _, _) => 6
    case Closing(_, _, _) => 7
    case Releasing(_, _, _) => 8
    case Leaving(_, _) => 9
    case Ended => 10
  }

  ghost function RankAt(sys: System, r: Rid): nat {
    if r in sys.requests then Rank(sys.requests[r].stage) else 0
  }

  ghost function Moves(es: seq<Event>, r: Rid): nat {
    if es == [] then 0 else (if OfRequest(es[0]) && es[0].r == r then 1 else 0) + Moves(es[1..], r)
  }

  lemma StepClimbs(sys: System, e: Event, r: Rid)
    requires SemsSound(sys) && Enabled(sys, e)
    ensures RankAt(Step(sys, e), r) >= RankAt(sys, r) + (if OfRequest(e) && e.r == r then 1 else 0)
  {
    hide SemModel.Step, SemModel.Inv, SemModel.Enabled, NextServers, NextRegistry, Logs;
  }

  /** No request takes more than ten steps of its own, however the others interleave. */
  lemma {:induction false} TenSteps(sys: System, es: seq<Event>, r: Rid)
    requires Feasible(sys, es)
    ensures RankAt(sys, r) + Moves(es, r) <= RankAt(After(sys, es), r) <= 10
    decreases |es|
  {
    if es != [] {
      StepClimbs(sys, es[0], r);
      TenSteps(Step(sys, es[0]), es[1..], r);
    }
  }

  /** And until it has ended it always has a step to take: a release always finds its
      slot held, and a parked request can always stop waiting. */
  lemma NeverStuck(sys: System, r: Rid) returns (e: Event)
    requires Sound(sys) && r in sys.requests && !sys.requests[r].stage.Ended?
    ensures OfRequest(e) && e.r == r && Enabled(sys, e)
  {
    assert At(sys, r);
    match sys.requests[r].stage
    case Entered => e := Refuse(r, 400);
    case Aimed(_, _) => e := Register(r);
    case Registered(_, _) => e := AcquireSlot(r);
    case Parked(_, sid, t) =>
      assert OwnerKnown(sys, r, sid, t) && TicketAgrees(sys, sid, t);
      e := StopWaiting(r);
    case Lost(_, _) => e := LogLost(r, true);
    case Slotted(_, _, _) => e := CheckUp(r);
    case Serving(_, _, _) => e := Dispatch(r, NoAddress);
    case Closing(_, _, _) => e := Uncount(r);
    case Releasing(_, sid, t) =>
      assert OwnerKnown(sys, r, sid, t) && TicketAgrees(sys, sid, t);
      e := ReleaseSlot(r);
    case Leaving(_, _) => e := Unregister(r);
  }
}
