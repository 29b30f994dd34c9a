/** What every interleaving of requests keeps: the registry, the in-flight counters
    and the slots held are at every moment exactly the requests in those stages,
    every request logs one outcome, and when all are done nothing is left over. */
module Conservation {
  import SemModel
  import opened Balancer
  import opened Outcomes
  import opened Lifecycle

  // ----- counting sets of requests ------------------------------------------------

  lemma OneChanged<T>(a: set<T>, b: set<T>, x: T)
    requires forall y :: y != x ==> (y in a <==> y in b)
    ensures |b| == |a| + (if x in b then 1 else 0) - (if x in a then 1 else 0)
  {
    assert a - {x} == b - {x};
    assert |a - {x}| == |a| - if x in a then 1 else 0;
    assert |b - {x}| == |b| - if x in b then 1 else 0;
  }

  /** The event is about request r alone. */
  ghost predicate OnlyMoves(sys: System, next: System, r: Rid) {
    && r in next.requests
    && (forall q :: q != r ==> (q in sys.requests <==> q in next.requests))
    && (forall q :: q != r && q in sys.requests ==> next.requests[q] == sys.requests[q])
  }

  ghost function Unit(b: bool): int {
    if b then 1 else 0
  }

  ghost predicate CountedAt(sys: System, r: Rid, id: string) {
    r in sys.requests && sys.requests[r].stage.Counted(id)
  }

  ghost predicate ServedAt(sys: System, r: Rid, sid: Sid) {
    r in sys.requests && sys.requests[r].stage.OnServer(sid)
  }

  lemma AdmittedMoves(sys: System, next: System, r: Rid, id: string)
    requires OnlyMoves(sys, next, r)
    ensures |AdmittedTo(next, id)| == |AdmittedTo(sys, id)| + Unit(CountedAt(next, r, id)) - Unit(CountedAt(sys, r, id))
  {
    OneChanged(AdmittedTo(sys, id), AdmittedTo(next, id), r);
  }

  lemma InFlightMoves(sys: System, next: System, r: Rid, sid: Sid)
    requires OnlyMoves(sys, next, r)
    ensures |InFlightOn(next, sid)| == |InFlightOn(sys, sid)| + Unit(ServedAt(next, r, sid)) - Unit(ServedAt(sys, r, sid))
  {
    OneChanged(InFlightOn(sys, sid), InFlightOn(next, sid), r);
  }

  // ----- one step -------------------------------------------------------------------

  lemma StepMovesOne(sys: System, e: Event)
    requires SemsSound(sys) && Enabled(sys, e)
    ensures OfRequest(e) ==> OnlyMoves(sys, Step(sys, e), e.r)
    ensures !OfRequest(e) ==> Step(sys, e).requests == sys.requests
    ensures forall sid :: sid in sys.servers ==> sid in Step(sys, e).servers
  {
    hide SemModel.Step, SemModel.Inv;
  }

  /** Whether the step runs the semaphore of a server, and with which event. */
  ghost predicate Turns(sys: System, e: Event, sid: Sid)
    requires Enabled(sys, e)
    ensures Turns(sys, e, sid) ==> sid in sys.servers
  {
    match e
    case AcquireSlot(r) => sys.requests[r].stage.sid == sid
    case TokenFirst(r) => sys.requests[r].stage.sid == sid
    case StopWaiting(r) => sys.requests[r].stage.sid == sid
    case ReleaseSlot(r) => sys.requests[r].stage.sid == sid
    case EditCapacity(s, _) => s == sid
    case _ => false
  }

  ghost function Turn(sys: System, e: Event): SemModel.Event
    requires Enabled(sys, e)
  {
    match e
    case TokenFirst(r) => SemModel.Receive(sys.requests[r].stage.ticket)
    case StopWaiting(r) => SemModel.Abandon(sys.requests[r].stage.ticket)
    case ReleaseSlot(r) => SemModel.Release(sys.requests[r].stage.ticket)
    case EditCapacity(_, c) => SemModel.SetCapacity(c)
    case _ => SemModel.Acquire
  }

  lemma StepRunsSem(sys: System, e: Event, sid: Sid)
    requires SemsSound(sys) && Enabled(sys, e) && sid in sys.servers && Turns(sys, e, sid)
    ensures SemModel.Enabled(sys.servers[sid].sem, Turn(sys, e)) && sid in Step(sys, e).servers
    ensures Step(sys, e).servers[sid].sem == SemAfter(sys, sid, Turn(sys, e))
    ensures Step(sys, e).servers[sid].owner == sys.servers[sid].owner + (if e.AcquireSlot? then [e.r] else [])
  {
    hide SemModel.Step, SemModel.Inv, NextRegistry, Logs, NextStage;
  }

  lemma StepSparesOne(sys: System, e: Event, sid: Sid)
    requires SemsSound(sys) && Enabled(sys, e) && sid in sys.servers
    ensures sid in Step(sys, e).servers
    ensures !Turns(sys, e, sid) ==>
      Step(sys, e).servers[sid].sem == sys.servers[sid].sem && Step(sys, e).servers[sid].owner == sys.servers[sid].owner
  {
    hide SemModel.Step, SemModel.Inv, SemModel.Enabled, SemAfter, NextRegistry, Logs, NextStage;
  }

  lemma StepStartsOne(sys: System, e: Event, sid: Sid)
    requires SemsSound(sys) && Enabled(sys, e) && sid !in sys.servers && sid in Step(sys, e).servers
    ensures e.StartServer? && sid == e.sid && Step(sys, e).servers[sid].sem == SemModel.Fresh(e.c) && Step(sys, e).servers[sid].owner == []
  {
    hide SemModel.Step, SemModel.Inv, SemModel.Enabled, SemAfter, NextRegistry, Logs, NextStage;
  }

  lemma StepSparesSem(sys: System, e: Event)
    requires SemsSound(sys) && Enabled(sys, e)
    ensures forall sid :: sid in sys.servers ==> sid in Step(sys, e).servers
    ensures forall sid :: sid in sys.servers && !Turns(sys, e, sid) ==>
      Step(sys, e).servers[sid].sem == sys.servers[sid].sem && Step(sys, e).servers[sid].owner == sys.servers[sid].owner
    ensures forall sid :: sid in Step(sys, e).servers && sid !in sys.servers ==>
      e.StartServer? && sid == e.sid && Step(sys, e).servers[sid].sem == SemModel.Fresh(e.c) && Step(sys, e).servers[sid].owner == []
  {
    hide SemModel.Step, SemModel.Inv, SemModel.Enabled, Enabled, Step, Turns, SemModel.Fresh;
    forall sid | sid in sys.servers
      ensures sid in Step(sys, e).servers
      ensures !Turns(sys, e, sid) ==>
        Step(sys, e).servers[sid].sem == sys.servers[sid].sem && Step(sys, e).servers[sid].owner == sys.servers[sid].owner {
      StepSparesOne(sys, e, sid);
    }
    forall sid | sid in Step(sys, e).servers && sid !in sys.servers
      ensures e.StartServer? && sid == e.sid && Step(sys, e).servers[sid].sem == SemModel.Fresh(e.c)
              && Step(sys, e).servers[sid].owner == [] {
      StepStartsOne(sys, e, sid);
    }
  }

  lemma StepTurns(sys: System, e: Event)
    requires SemsSound(sys) && Enabled(sys, e)
    ensures forall sid :: sid in sys.servers ==> sid in Step(sys, e).servers
    ensures forall sid :: sid in sys.servers && !Turns(sys, e, sid) ==>
      Step(sys, e).servers[sid].sem == sys.servers[sid].sem && Step(sys, e).servers[sid].owner == sys.servers[sid].owner
    ensures forall sid :: sid in sys.servers && Turns(sys, e, sid) ==>
      && SemModel.Enabled(sys.servers[sid].sem, Turn(sys, e))
      && Step(sys, e).servers[sid].sem == SemAfter(sys, sid, Turn(sys, e))
      && Step(sys, e).servers[sid].owner == sys.servers[sid].owner + (if e.AcquireSlot? then [e.r] else [])
    ensures forall sid :: sid in Step(sys, e).servers && sid !in sys.servers ==>
      e.StartServer? && sid == e.sid && Step(sys, e).servers[sid].sem == SemModel.Fresh(e.c) && Step(sys, e).servers[sid].owner == []
  {
    hide SemModel.Step, SemModel.Inv, SemModel.Enabled, Enabled, Step, Turns, Turn, SemAfter;
    StepSparesSem(sys, e);
    forall sid | sid in sys.servers && Turns(sys, e, sid)
      ensures SemModel.Enabled(sys.servers[sid].sem, Turn(sys, e))
      ensures Step(sys, e).servers[sid].sem == SemAfter(sys, sid, Turn(sys, e))
      ensures Step(sys, e).servers[sid].owner == sys.servers[sid].owner + (if e.AcquireSlot? then [e.r] else []) {
      StepRunsSem(sys, e, sid);
    }
  }

  lemma KeepsStages(sys: System, e: Event)
    requires SemsSound(sys) && Enabled(sys, e) && StagesKnown(sys)
    ensures StagesKnown(Step(sys, e))
  {
    hide SemModel.Step, SemModel.Inv;
    StepMovesOne(sys, e);
    var next := Step(sys, e);
    forall q | q in next.requests ensures At(next, q) {
      assert q in sys.requests ==> At(sys, q);
    }
  }

  /** A step logs exactly when it takes the request into a logged stage. */
  lemma LogsFollow(sys: System, e: Event)
    requires SemsSound(sys) && Enabled(sys, e) && OfRequest(e)
    ensures var before := e.r in sys.requests && sys.requests[e.r].stage.Logged();
      |Logs(sys, e)| == (if before then 0 else Unit(NextStage(sys, e).Logged())) && (before ==> NextStage(sys, e).Logged())
    ensures forall i :: 0 <= i < |Logs(sys, e)| ==> Sensible(Logs(sys, e)[i])
  {
    hide SemModel.Step, SemModel.Inv, SemModel.Enabled;
  }

  lemma KeepsLogs(sys: System, e: Event)
    requires SemsSound(sys) && Enabled(sys, e) && LoggedOnce(sys)
    ensures LoggedOnce(Step(sys, e))
  {
    hide SemModel.Step, SemModel.Inv, SemModel.Enabled, NextServers, NextRegistry, NextStage, Logs, Sensible, Enabled;
    if OfRequest(e) {
      LogsFollow(sys, e);
    }
  }

  lemma KeepsSems(sys: System, e: Event)
    requires SemsSound(sys) && Enabled(sys, e)
    ensures SemsSound(Step(sys, e))
  {
    hide SemModel.Step, SemModel.Inv, Step;
    StepTurns(sys, e);
    var next := Step(sys, e);
    forall sid | sid in next.servers ensures SemModel.Inv(next.servers[sid].sem) {
      if sid !in sys.servers {
        FreshIsSound(next.servers[sid].sem.capacity);
      } else if Turns(sys, e, sid) {
        SemModel.StepKeeps(sys.servers[sid].sem, Turn(sys, e));
      }
    }
  }

  lemma FreshIsSound(c: nat)
    ensures SemModel.Inv(SemModel.Fresh(c))
  {
  }

  /** The count of an id moves with the stage of the request that steps. */
  lemma RegistryStep(sys: System, e: Event, id: string)
    requires SemsSound(sys) && Enabled(sys, e) && OfRequest(e)
    requires forall x :: x in sys.registry ==> sys.registry[x] > 0
    requires CountOf(sys.registry, id) >= Unit(CountedAt(sys, e.r, id))
    ensures CountOf(Step(sys, e).registry, id)
         == CountOf(sys.registry, id) + Unit(CountedAt(Step(sys, e), e.r, id)) - Unit(CountedAt(sys, e.r, id))
  {
    hide SemModel.Step, SemModel.Inv, SemModel.Enabled, NextServers, Logs;
  }

  lemma RegistryStaysPositive(sys: System, e: Event)
    requires SemsSound(sys) && Enabled(sys, e) && forall x :: x in sys.registry ==> sys.registry[x] > 0
    ensures forall x :: x in Step(sys, e).registry ==> Step(sys, e).registry[x] > 0
    ensures !OfRequest(e) ==> Step(sys, e).registry == sys.registry
  {
    hide SemModel.Step, SemModel.Inv, SemModel.Enabled, NextServers, NextStage, Logs;
  }

  lemma AtLeastOne(sys: System, r: Rid, id: string)
    ensures |AdmittedTo(sys, id)| >= Unit(CountedAt(sys, r, id))
  {
    if CountedAt(sys, r, id) {
      assert r in AdmittedTo(sys, id);
    }
  }

  lemma KeepsRegistry(sys: System, e: Event)
    requires SemsSound(sys) && Enabled(sys, e) && RegistryCounts(sys)
    ensures RegistryCounts(Step(sys, e))
  {
    hide SemsSound, Enabled, Step, AdmittedTo, CountedAt, Unit, CountOf;
    StepMovesOne(sys, e);
    RegistryStaysPositive(sys, e);
    var next := Step(sys, e);
    forall id ensures CountOf(next.registry, id) == |AdmittedTo(next, id)| {
      if OfRequest(e) {
        AtLeastOne(sys, e.r, id);
        RegistryStep(sys, e, id);
        AdmittedMoves(sys, next, e.r, id);
      } else {
        SameAdmitted(sys, next, id);
      }
    }
  }

  lemma SameAdmitted(sys: System, next: System, id: string)
    requires next.requests == sys.requests
    ensures AdmittedTo(next, id) == AdmittedTo(sys, id)
  {
  }

  /** A server's counter moves with the stage of the request that steps. */
  lemma FlightStep(sys: System, e: Event, sid: Sid)
    requires SemsSound(sys) && Enabled(sys, e) && OfRequest(e) && sid in sys.servers
    ensures sid in Step(sys, e).servers
    ensures Step(sys, e).servers[sid].inFlight
         == sys.servers[sid].inFlight + Unit(ServedAt(Step(sys, e), e.r, sid)) - Unit(ServedAt(sys, e.r, sid))
  {
    hide SemModel.Step, SemModel.Inv, SemModel.Enabled, NextRegistry, Logs;
  }

  lemma OtherFlights(sys: System, e: Event, sid: Sid)
    requires SemsSound(sys) && Enabled(sys, e) && !OfRequest(e) && StagesKnown(sys) && sid in Step(sys, e).servers
    ensures InFlightOn(Step(sys, e), sid) == InFlightOn(sys, sid)
    ensures Step(sys, e).servers[sid].inFlight == if sid in sys.servers then sys.servers[sid].inFlight else |InFlightOn(sys, sid)|
  {
    hide SemModel.Step, SemModel.Inv, SemModel.Enabled, NextRegistry, Logs;
    if sid !in sys.servers {
      assert InFlightOn(sys, sid) == {};
    }
  }

  lemma KeepsInFlight(sys: System, e: Event)
    requires SemsSound(sys) && Enabled(sys, e) && InFlightCounts(sys) && StagesKnown(sys)
    ensures InFlightCounts(Step(sys, e))
  {
    hide SemModel.Step, SemModel.Inv, SemModel.Enabled, Step, InFlightOn, Unit, ServedAt;
    StepMovesOne(sys, e);
    StepTurns(sys, e);
    var next := Step(sys, e);
    forall sid | sid in next.servers ensures next.servers[sid].inFlight == |InFlightOn(next, sid)| {
      if OfRequest(e) {
        InFlightMoves(sys, next, e.r, sid);
        FlightStep(sys, e, sid);
      } else {
        OtherFlights(sys, e, sid);
      }
    }
  }

  // ----- tickets and stages --------------------------------------------------------------

  /** What one event does to the phase of ticket t, all told. */
  lemma PhaseMoves(s: SemModel.Sem, f: SemModel.Event, t: nat)
    requires SemModel.Inv(s) && SemModel.Enabled(s, f) && t < |s.phase|
    ensures t < |SemModel.Step(s, f).phase|
    ensures var p, q := s.phase[t], SemModel.Step(s, f).phase[t];
      if f == SemModel.Receive(t) then q.Holding?
      else if f == SemModel.Release(t) then q.Done?
      else if f == SemModel.Abandon(t) then q == if p.Offered? then SemModel.Holding else SemModel.GaveUp
      else p == q || (p.Queued? && q.Offered?)
  {
    hide SemModel.Step, SemModel.Inv;
    SemModel.StepPhase(s, f, t);
    SemModel.StepOwn(s, f);
  }

  lemma KeepsListed(sys: System, e: Event)
    requires SemsSound(sys) && Enabled(sys, e) && OwnersListed(sys)
    ensures OwnersListed(Step(sys, e))
  {
    hide SemModel.Step, SemModel.Inv, SemModel.Enabled, Step;
    StepTurns(sys, e);
    forall sid | sid in Step(sys, e).servers
      ensures |Step(sys, e).servers[sid].owner| == |Step(sys, e).servers[sid].sem.phase| {
      if sid in sys.servers && Turns(sys, e, sid) {
        SemModel.StepOwn(sys.servers[sid].sem, Turn(sys, e));
      }
    }
  }

  /** The step uses ticket t of the server: draws it, or moves its owner on. */
  ghost predicate Uses(sys: System, e: Event, sid: Sid, t: nat)
    requires Enabled(sys, e)
    ensures Uses(sys, e, sid, t) ==> OfRequest(e) && sid in sys.servers
  {
    Turns(sys, e, sid) && match e
      case AcquireSlot(r) => t == |sys.servers[sid].sem.phase|
      case TokenFirst(r) => t == sys.requests[r].stage.ticket
      case StopWaiting(r) => t == sys.requests[r].stage.ticket
      case ReleaseSlot(r) => t == sys.requests[r].stage.ticket
      case _ => false
  }

  ghost function StandsAt(sys: System, q: Rid, sid: Sid, t: nat): Standing {
    if q in sys.requests then Stands(sys.requests[q].stage, sid, t) else Without
  }

  /** The request that moves changes its standing with the ticket it uses, to what
      the phase of that ticket has become, and with no other. */
  lemma ActorStanding(sys: System, e: Event, sid: Sid, t: nat)
    requires SemsSound(sys) && Enabled(sys, e) && OfRequest(e) && sid in sys.servers
    ensures !Uses(sys, e, sid, t) ==> StandsAt(Step(sys, e), e.r, sid, t) == StandsAt(sys, e.r, sid, t)
    ensures Uses(sys, e, sid, t) ==>
      && sid in Step(sys, e).servers && t < |Step(sys, e).servers[sid].sem.phase|
      && StandsAt(Step(sys, e), e.r, sid, t) == Expected(Step(sys, e).servers[sid].sem.phase[t])
      && (e.AcquireSlot? || StandsAt(sys, e.r, sid, t) != Without)
  {
    hide SemModel.Step, SemModel.Inv, SemModel.Enabled, Enabled, Step, Turns, StandsAt, Expected, OfRequest;
    if Turns(sys, e, sid) {
      TurnStanding(sys, e, sid, t);
    } else {
      OtherStanding(sys, e, sid, t);
    }
  }

  lemma OtherStanding(sys: System, e: Event, sid: Sid, t: nat)
    requires SemsSound(sys) && Enabled(sys, e) && OfRequest(e) && sid in sys.servers && !Turns(sys, e, sid)
    ensures StandsAt(Step(sys, e), e.r, sid, t) == StandsAt(sys, e.r, sid, t)
  {
    hide SemModel.Step, SemModel.Inv, SemModel.Enabled, NextServers, NextRegistry, Logs, Grants;
  }

  lemma TurnStanding(sys: System, e: Event, sid: Sid, t: nat)
    requires SemsSound(sys) && Enabled(sys, e) && OfRequest(e) && sid in sys.servers && Turns(sys, e, sid)
    ensures !Uses(sys, e, sid, t) ==> StandsAt(Step(sys, e), e.r, sid, t) == StandsAt(sys, e.r, sid, t)
    ensures Uses(sys, e, sid, t) ==>
      && sid in Step(sys, e).servers && t < |Step(sys, e).servers[sid].sem.phase|
      && StandsAt(Step(sys, e), e.r, sid, t) == Expected(Step(sys, e).servers[sid].sem.phase[t])
      && (e.AcquireSlot? || StandsAt(sys, e.r, sid, t) != Without)
  {
    hide SemModel.Step, SemModel.Inv, NextServers, NextRegistry, Logs;
    StepRunsSem(sys, e, sid);
    SemModel.StepOwn(sys.servers[sid].sem, Turn(sys, e));
    match e
    case AcquireSlot(r) =>
    case TokenFirst(r) =>
    case StopWaiting(r) =>
    case ReleaseSlot(r) =>
  }

  /** A ticket the step does not use keeps its standing, though a grant may reach it. */
  lemma UnusedTicket(sys: System, e: Event, sid: Sid, t: nat)
    requires SemsSound(sys) && Enabled(sys, e) && sid in sys.servers && t < |sys.servers[sid].sem.phase|
    requires !Uses(sys, e, sid, t)
    ensures sid in Step(sys, e).servers && t < |Step(sys, e).servers[sid].sem.phase|
    ensures Expected(Step(sys, e).servers[sid].sem.phase[t]) == Expected(sys.servers[sid].sem.phase[t])
  {
    hide SemModel.Step, SemModel.Inv, SemModel.Enabled, Step;
    StepTurns(sys, e);
    if Turns(sys, e, sid) {
      PhaseMoves(sys.servers[sid].sem, Turn(sys, e), t);
    }
  }

  lemma KeepsOwner(sys: System, e: Event, q: Rid, sid: Sid, t: nat)
    requires SemsSound(sys) && Enabled(sys, e) && StagesKnown(sys) && TicketsAgree(sys)
    ensures OwnerKnown(Step(sys, e), q, sid, t)
  {
    hide SemModel.Step, SemModel.Inv, SemModel.Enabled, Step;
    StepTurns(sys, e);
    StepMovesOne(sys, e);
    assert OwnerKnown(sys, q, sid, t);
    assert q in sys.requests ==> At(sys, q);
    if sid in sys.servers {
      if OfRequest(e) {
        ActorStanding(sys, e, sid, t);
      }
    }
  }

  lemma KeepsUsedTicket(sys: System, e: Event, sid: Sid, t: nat)
    requires SemsSound(sys) && Enabled(sys, e) && TicketsAgree(sys)
    requires sid in sys.servers && Uses(sys, e, sid, t)
    ensures TicketAgrees(Step(sys, e), sid, t)
  {
    hide SemModel.Step, SemModel.Inv, SemModel.Enabled, Step, Expected, Stands;
    StepTurns(sys, e);
    StepMovesOne(sys, e);
    KeepsListed(sys, e);
    ActorStanding(sys, e, sid, t);
    assert OwnerKnown(sys, e.r, sid, t);
  }

  lemma KeepsTicket(sys: System, e: Event, sid: Sid, t: nat)
    requires SemsSound(sys) && Enabled(sys, e) && TicketsAgree(sys)
    requires sid in sys.servers && t < |sys.servers[sid].sem.phase| && !Uses(sys, e, sid, t)
    ensures TicketAgrees(Step(sys, e), sid, t)
  {
    hide SemModel.Step, SemModel.Inv, SemModel.Enabled, Enabled, Step, Expected, Stands, Uses;
    StepTurns(sys, e);
    StepMovesOne(sys, e);
    KeepsListed(sys, e);
    if OfRequest(e) {
      ActorStanding(sys, e, sid, t);
    }
    assert TicketAgrees(sys, sid, t);
    UnusedTicket(sys, e, sid, t);
  }

  lemma KeepsAnyTicket(sys: System, e: Event, sid: Sid, t: nat)
    requires SemsSound(sys) && Enabled(sys, e) && TicketsAgree(sys)
    requires sid in Step(sys, e).servers && t < |Step(sys, e).servers[sid].sem.phase|
    ensures TicketAgrees(Step(sys, e), sid, t)
  {
    hide SemModel.Step, SemModel.Inv, SemModel.Enabled, Step, TicketAgrees, OwnerKnown;
    StepTurns(sys, e);
    if Turns(sys, e, sid) {
      SemModel.StepOwn(sys.servers[sid].sem, Turn(sys, e));
    }
    if Uses(sys, e, sid, t) {
      KeepsUsedTicket(sys, e, sid, t);
    } else {
      KeepsTicket(sys, e, sid, t);
    }
  }

  lemma KeepsTickets(sys: System, e: Event)
    requires SemsSound(sys) && Enabled(sys, e) && StagesKnown(sys) && TicketsAgree(sys)
    ensures TicketsAgree(Step(sys, e))
  {
    hide Step, Enabled;
    var next := Step(sys, e);
    KeepsListed(sys, e);
    forall sid, t: nat | sid in next.servers && t < |next.servers[sid].sem.phase| ensures TicketAgrees(next, sid, t) {
      KeepsAnyTicket(sys, e, sid, t);
    }
    forall q, sid, t: nat ensures OwnerKnown(next, q, sid, t) {
      KeepsOwner(sys, e, q, sid, t);
    }
  }

  lemma StepKeepsSound(sys: System, e: Event)
    requires Sound(sys) && Enabled(sys, e)
    ensures Sound(Step(sys, e))
  {
    hide SemsSound, StagesKnown, TicketsAgree, RegistryCounts, InFlightCounts, LoggedOnce, Step, Enabled;
    KeepsSems(sys, e);
    KeepsStages(sys, e);
    KeepsTickets(sys, e);
    KeepsRegistry(sys, e);
    KeepsInFlight(sys, e);
    KeepsLogs(sys, e);
  }
}
