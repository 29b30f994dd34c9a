/** Requests on their way through the proxy, every interleaving of them: resolve,
    register, queue, hold a slot, dispatch, log one outcome, and undo it all in the
    order the deferred calls run. Each step is one indivisible action of one
    request, or a change of the environment. */
module Lifecycle {
  import opened SemModel
  import opened Balancer
  import opened Outcomes

  type Rid = nat
  type Sid = nat

  datatype Stage =
    | Entered
    | Aimed(id: string, sid: Sid)                   // resolved, not yet in the registry
    | Registered(id: string, sid: Sid)
    | Parked(id: string, sid: Sid, ticket: nat)     // in Wait
    | Lost(id: string, sid: Sid)                    // Wait said no
    | Slotted(id: string, sid: Sid, ticket: nat)    // holds a slot, up not yet checked
    | Serving(id: string, sid: Sid, ticket: nat)    // counted in flight on the server
    | Closing(id: string, sid: Sid, ticket: nat)    // logged; three deferred calls to go
    | Releasing(id: string, sid: Sid, ticket: nat)  // two to go
    | Leaving(id: string, sid: Sid)                 // one to go
    | Ended
  {
    predicate Counted(published: string) {
      !Entered? && !Aimed? && !Ended? && id == published
    }

    predicate OnServer(s: Sid) {
      (Serving? || Closing?) && sid == s
    }

    predicate HasTicket(s: Sid, t: nat) {
      (Parked? || Slotted? || Serving? || Closing? || Releasing?) && sid == s && ticket == t
    }

    predicate Logged() {
      Closing? || Releasing? || Leaving? || Ended?
    }
  }

  datatype Request = Request(stage: Stage, log: seq<Outcome>)

  /** `owner[t]` is the request that called Acquire t-th on this server. */
  datatype Server = Server(sem: Sem, inFlight: int, up: bool, owner: seq<Rid>)

  datatype System = System(registry: map<string, int>, servers: map<Sid, Server>, requests: map<Rid, Request>)

  datatype Event =
    | Arrive(r: Rid)
    | Refuse(r: Rid, http: int)
    | Aim(r: Rid, id: string, sid: Sid)
    | Register(r: Rid)
    | AcquireSlot(r: Rid)
    | TokenFirst(r: Rid)
    | StopWaiting(r: Rid)
    | LogLost(r: Rid, clientGone: bool)
    | CheckUp(r: Rid)
    | Dispatch(r: Rid, b: Branch)
    | Uncount(r: Rid)
    | ReleaseSlot(r: Rid)
    | Unregister(r: Rid)
    | EditCapacity(sid: Sid, c: nat)
    | SetHealth(sid: Sid, up: bool)
    | StartServer(sid: Sid, c: nat)

  predicate At(sys: System, r: Rid) {
    r in sys.requests && (var s := sys.requests[r].stage; !s.Entered? && !s.Ended? ==> s.sid in sys.servers)
  }

  ghost predicate Enabled(sys: System, e: Event) {
    match e
    case Arrive(r) => r !in sys.requests
    case Refuse(r, http) => At(sys, r) && sys.requests[r].stage.Entered? && http in {400, 404}
    case Aim(r, _, sid) => At(sys, r) && sys.requests[r].stage.Entered? && sid in sys.servers
    case Register(r) => At(sys, r) && sys.requests[r].stage.Aimed?
    case AcquireSlot(r) => At(sys, r) && sys.requests[r].stage.Registered?
    case TokenFirst(r) => At(sys, r) && sys.requests[r].stage.Parked?
      && SemModel.Enabled(sys.servers[sys.requests[r].stage.sid].sem, Receive(sys.requests[r].stage.ticket))
    case StopWaiting(r) => At(sys, r) && sys.requests[r].stage.Parked?
      && SemModel.Enabled(sys.servers[sys.requests[r].stage.sid].sem, Abandon(sys.requests[r].stage.ticket))
    case LogLost(r, _) => At(sys, r) && sys.requests[r].stage.Lost?
    case CheckUp(r) => At(sys, r) && sys.requests[r].stage.Slotted?
    case Dispatch(r, b) => At(sys, r) && sys.requests[r].stage.Serving? && Possible(b)
    case Uncount(r) => At(sys, r) && sys.requests[r].stage.Closing?
    case ReleaseSlot(r) => At(sys, r) && sys.requests[r].stage.Releasing?
      && SemModel.Enabled(sys.servers[sys.requests[r].stage.sid].sem, Release(sys.requests[r].stage.ticket))
    case Unregister(r) => At(sys, r) && sys.requests[r].stage.Leaving?
    case EditCapacity(sid, _) => sid in sys.servers
    case SetHealth(sid, _) => sid in sys.servers
    case StartServer(sid, _) => sid !in sys.servers
  }

  ghost predicate SemsSound(sys: System) {
    forall sid :: sid in sys.servers ==> Inv(sys.servers[sid].sem)
  }

  ghost function SemAfter(sys: System, sid: Sid, e: SemModel.Event): Sem
    requires sid in sys.servers && SemsSound(sys) && SemModel.Enabled(sys.servers[sid].sem, e)
  {
    SemModel.Step(sys.servers[sid].sem, e)
  }

  predicate OfRequest(e: Event) {
    !e.EditCapacity? && !e.SetHealth? && !e.StartServer?
  }

  /** The stage the request comes to. */
  ghost function NextStage(sys: System, e: Event): Stage
    requires SemsSound(sys) && Enabled(sys, e) && OfRequest(e)
  {
    if e.Arrive? then Entered
    else
      var s := sys.requests[e.r].stage;
      match e
      case Refuse(_, _) => Ended
      case Aim(_, id, sid) => Aimed(id, sid)
      case Register(_) => Registered(s.id, s.sid)
      case AcquireSlot(_) =>
        var t := |sys.servers[s.sid].sem.phase|;
        if Grants(SemAfter(sys, s.sid, Acquire), t) then Slotted(s.id, s.sid, t) else Parked(s.id, s.sid, t)
      case TokenFirst(_) => Slotted(s.id, s.sid, s.ticket)
      case StopWaiting(_) =>
        if sys.servers[s.sid].sem.phase[s.ticket].Offered? then Slotted(s.id, s.sid, s.ticket) else Lost(s.id, s.sid)
      case LogLost(_, _) => Leaving(s.id, s.sid)
      case CheckUp(_) =>
        if sys.servers[s.sid].up then Serving(s.id, s.sid, s.ticket) else Releasing(s.id, s.sid, s.ticket)
      case Dispatch(_, _) => Closing(s.id, s.sid, s.ticket)
      case Uncount(_) => Releasing(s.id, s.sid, s.ticket)
      case ReleaseSlot(_) => Leaving(s.id, s.sid)
      case Unregister(_) => Ended
  }

  ghost predicate Grants(sem: Sem, t: nat) {
    t < |sem.phase| && sem.phase[t].Holding?
  }

  /** The log lines the step writes. */
  ghost function Logs(sys: System, e: Event): seq<Outcome>
    requires Enabled(sys, e)
  {
    match e
    case Refuse(_, http) => [Rejected(http)]
    case LogLost(r, gone) => [LostOutcome(gone, sys.servers[sys.requests[r].stage.sid].up)]
    case CheckUp(r) => if sys.servers[sys.requests[r].stage.sid].up then [] else [DOWN]
    case Dispatch(_, b) => [OutcomeOf(b)]
    case _ => []
  }

  ghost function NextRegistry(sys: System, e: Event): map<string, int>
    requires Enabled(sys, e)
  {
    match e
    case Register(r) => Bumped(sys.registry, sys.requests[r].stage.id, 1)
    case Unregister(r) => Bumped(sys.registry, sys.requests[r].stage.id, -1)
    case _ => sys.registry
  }

  ghost function NextServers(sys: System, e: Event): map<Sid, Server>
    requires SemsSound(sys) && Enabled(sys, e)
  {
    match e
    case StartServer(sid, c) => sys.servers[sid := Server(Fresh(c), 0, false, [])]
    case SetHealth(sid, up) => sys.servers[sid := sys.servers[sid].(up := up)]
    case EditCapacity(sid, c) => sys.servers[sid := sys.servers[sid].(sem := SemAfter(sys, sid, SetCapacity(c)))]
    case AcquireSlot(r) =>
      var sid := sys.requests[r].stage.sid;
      sys.servers[sid := sys.servers[sid].(sem := SemAfter(sys, sid, Acquire), owner := sys.servers[sid].owner + [r])]
    case TokenFirst(r) => SemMoves(sys, r, Receive(sys.requests[r].stage.ticket))
    case StopWaiting(r) => SemMoves(sys, r, Abandon(sys.requests[r].stage.ticket))
    case ReleaseSlot(r) => SemMoves(sys, r, Release(sys.requests[r].stage.ticket))
    case CheckUp(r) => if sys.servers[sys.requests[r].stage.sid].up then FlightMoves(sys, r, 1) else sys.servers
    case Uncount(r) => FlightMoves(sys, r, -1)
    case _ => sys.servers
  }

  predicate Bound(sys: System, r: Rid) {
    At(sys, r) && !sys.requests[r].stage.Entered? && !sys.requests[r].stage.Ended?
  }

  ghost function SemMoves(sys: System, r: Rid, f: SemModel.Event): map<Sid, Server>
    requires SemsSound(sys) && Bound(sys, r) && SemModel.Enabled(sys.servers[sys.requests[r].stage.sid].sem, f)
  {
    var sid := sys.requests[r].stage.sid;
    sys.servers[sid := sys.servers[sid].(sem := SemAfter(sys, sid, f))]
  }

  function FlightMoves(sys: System, r: Rid, delta: int): map<Sid, Server>
    requires Bound(sys, r)
  {
    var sid := sys.requests[r].stage.sid;
    sys.servers[sid := sys.servers[sid].(inFlight := sys.servers[sid].inFlight + delta)]
  }

  function LogOf(sys: System, r: Rid): seq<Outcome> {
    if r in sys.requests then sys.requests[r].log else []
  }

  ghost function Step(sys: System, e: Event): System
    requires SemsSound(sys) && Enabled(sys, e)
  {
    System(NextRegistry(sys, e), NextServers(sys, e),
           if OfRequest(e) then sys.requests[e.r := Request(NextStage(sys, e), LogOf(sys, e.r) + Logs(sys, e))]
           else sys.requests)
  }

  // ----- what is counted ---------------------------------------------------------------

  /** Requests admitted to a published id and not yet unregistered. */
  ghost function AdmittedTo(sys: System, id: string): set<Rid> {
    set r | r in sys.requests && sys.requests[r].stage.Counted(id)
  }

  ghost function InFlightOn(sys: System, sid: Sid): set<Rid> {
    set r | r in sys.requests && sys.requests[r].stage.OnServer(sid)
  }

  /** Requests that hold a slot of the server, or have been handed one that they
      have yet to receive. */
  ghost function Holders(sys: System, sid: Sid): set<Rid>
    requires sid in sys.servers
  {
    set r | r in sys.requests && HoldsSlot(sys, r, sid)
  }

  ghost predicate HoldsSlot(sys: System, r: Rid, sid: Sid)
    requires r in sys.requests && sid in sys.servers
  {
    var s := sys.requests[r].stage;
    || ((s.Slotted? || s.Serving? || s.Closing? || s.Releasing?) && s.sid == sid)
    || (s.Parked? && s.sid == sid && s.ticket < |sys.servers[sid].sem.phase| && sys.servers[sid].sem.phase[s.ticket].Offered?)
  }

  ghost predicate RegistryCounts(sys: System) {
    && (forall id :: CountOf(sys.registry, id) == |AdmittedTo(sys, id)|)
    && (forall id :: id in sys.registry ==> sys.registry[id] > 0)
  }

  ghost predicate InFlightCounts(sys: System) {
    forall sid :: sid in sys.servers ==> sys.servers[sid].inFlight == |InFlightOn(sys, sid)|
  }

  ghost predicate LoggedOnce(sys: System) {
    forall r :: r in sys.requests ==>
      && |sys.requests[r].log| == (if sys.requests[r].stage.Logged() then 1 else 0)
      && forall i :: 0 <= i < |sys.requests[r].log| ==> Sensible(sys.requests[r].log[i])
  }

  ghost predicate StagesKnown(sys: System) {
    forall r :: r in sys.requests ==> At(sys, r)
  }

  /** Where a request stands with ticket t of a server, told from its stage ... */
  datatype Standing = Without | InLine | InHand

  ghost function Stands(s: Stage, sid: Sid, t: nat): Standing {
    if !s.HasTicket(sid, t) then Without else if s.Parked? then InLine else InHand
  }

  /** ... and told from the phase of the ticket. */
  ghost function Expected(p: Phase): Standing {
    match p
    case Queued => InLine
    case Offered => InLine
    case Holding => InHand
    case GaveUp => Without
    case Done => Without
  }

  ghost predicate OwnersListed(sys: System) {
    forall sid :: sid in sys.servers ==> |sys.servers[sid].owner| == |sys.servers[sid].sem.phase|
  }

  ghost predicate TicketAgrees(sys: System, sid: Sid, t: nat) {
    && sid in sys.servers && t < |sys.servers[sid].sem.phase| && t < |sys.servers[sid].owner|
    && sys.servers[sid].owner[t] in sys.requests
    && Stands(sys.requests[sys.servers[sid].owner[t]].stage, sid, t) == Expected(sys.servers[sid].sem.phase[t])
  }

  ghost predicate OwnerKnown(sys: System, q: Rid, sid: Sid, t: nat) {
    q in sys.requests && sid in sys.servers && sys.requests[q].stage.HasTicket(sid, t)
    ==> t < |sys.servers[sid].owner| && sys.servers[sid].owner[t] == q
  }

  /** The phases of the tickets and the stages of their owners say the same. */
  ghost predicate TicketsAgree(sys: System) {
    && OwnersListed(sys)
    && (forall sid, t: nat :: sid in sys.servers && t < |sys.servers[sid].sem.phase| ==> TicketAgrees(sys, sid, t))
    && (forall q, sid, t: nat :: OwnerKnown(sys, q, sid, t))
  }

  ghost predicate Sound(sys: System) {
    && SemsSound(sys) && StagesKnown(sys) && TicketsAgree(sys)
    && RegistryCounts(sys) && InFlightCounts(sys) && LoggedOnce(sys)
  }
}
