/** The FIFO semaphore as a state machine on values: every locked section of the
    Go code is one step. A ticket is the serial number of an Acquire call. The
    class in FairSemaphore.dfy refines this machine; what is proved here holds of
    every run of it, whatever the order of arrivals, wake-ups, give-ups, releases
    and capacity edits. */
module SemModel {

  /** Where an Acquire call stands. `Offered` is a grant sitting in the waiter's
      channel that its goroutine has not received yet: the slot is already held. */
  datatype Phase = Queued | Offered | Holding | GaveUp | Done

  /** `phase[t]` is the standing of ticket t; `grants` is the history of slots
      given out, oldest first. Both exist for the proofs only. */
  datatype Sem = Sem(capacity: nat, avail: nat, queue: seq<nat>, phase: seq<Phase>, grants: seq<nat>) {
    /** Slots held: received, or granted and waiting to be received. */
    ghost function Held(): nat {
      multiset(phase)[Offered] + multiset(phase)[Holding]
    }

    /** How far the held and free slots exceed the cap. */
    ghost function Surplus(): int {
      Held() + avail - capacity
    }

    ghost predicate Waiting(t: nat) {
      t < |phase| && phase[t].Queued?
    }

    ghost predicate WasGranted(t: nat) {
      t < |phase| && (phase[t].Offered? || phase[t].Holding? || phase[t].Done?)
    }
  }

  datatype Event =
    | Acquire
    | Receive(t: nat)
    | Abandon(t: nat)
    | Release(t: nat)
    | SetCapacity(c: nat)

  function Fresh(capacity: nat): Sem {
    Sem(capacity, capacity, [], [], [])
  }

  function GrantHead(s: Sem): Sem
    requires s.queue != [] && s.queue[0] < |s.phase|
  {
    s.(queue := s.queue[1..], phase := s.phase[s.queue[0] := Offered], grants := s.grants + [s.queue[0]])
  }

  ghost predicate QueueKnown(s: Sem) {
    forall i :: 0 <= i < |s.queue| ==> s.queue[i] < |s.phase|
  }

  /** Hand free slots to the queue, oldest first. */
  function Drain(s: Sem): Sem
    requires QueueKnown(s)
    decreases |s.queue|
  {
    if s.avail > 0 && s.queue != [] then Drain(GrantHead(s).(avail := s.avail - 1)) else s
  }

  function GrantAll(s: Sem): Sem
    requires QueueKnown(s)
    decreases |s.queue|
  {
    if s.queue != [] then GrantAll(GrantHead(s)) else s
  }

  function Without(q: seq<nat>, t: nat): seq<nat> {
    if q == [] then [] else if q[0] == t then q[1..] else [q[0]] + Without(q[1..], t)
  }

  ghost predicate Enabled(s: Sem, e: Event) {
    match e
    case Acquire => true
    case SetCapacity(_) => true
    case Receive(t) => t < |s.phase| && s.phase[t].Offered?
    case Abandon(t) => t < |s.phase| && (s.phase[t].Queued? || s.phase[t].Offered?)
    case Release(t) => t < |s.phase| && s.phase[t].Holding?
  }

  function Admit(s: Sem): Sem {
    s.(avail := if s.capacity == 0 || s.avail == 0 then s.avail else s.avail - 1,
       phase := s.phase + [Holding], grants := s.grants + [|s.phase|])
  }

  function Enqueue(s: Sem): Sem {
    s.(phase := s.phase + [Queued], queue := s.queue + [|s.phase|])
  }

  function AcquireStep(s: Sem): Sem
    requires QueueKnown(s)
  {
    if s.capacity == 0 then Admit(s)
    else if Drain(s).avail > 0 then Admit(Drain(s))
    else Enqueue(Drain(s))
  }

  function AbandonStep(s: Sem, t: nat): Sem
    requires t < |s.phase|
  {
    if s.phase[t].Offered? then s.(phase := s.phase[t := Holding])
    else s.(phase := s.phase[t := GaveUp], queue := Without(s.queue, t))
  }

  /** A slot comes back: to the longest waiter, else to the pool. */
  function HandBack(s: Sem): Sem
    requires QueueKnown(s)
  {
    if s.queue != [] then GrantHead(s)
    else s.(avail := if s.avail + 1 > s.capacity then s.capacity else s.avail + 1)
  }

  function ReleaseStep(s: Sem, t: nat): Sem
    requires QueueKnown(s) && t < |s.phase|
  {
    var r := s.(phase := s.phase[t := Done]);
    if s.capacity == 0 then r else HandBack(r)
  }

  /** The free slots right after the cap is edited, before the queue is served. */
  function Rescaled(s: Sem, c: nat): nat {
    if s.capacity == 0 then c else Clamp(s.avail + c - s.capacity, c)
  }

  function Clamp(a: int, top: nat): nat {
    if a < 0 then 0 else if a > top then top else a
  }

  function CapacityStep(s: Sem, c: nat): Sem
    requires QueueKnown(s)
  {
    if c == s.capacity then s
    else if c == 0 then GrantAll(s.(capacity := 0)).(avail := 0)
    else
      Drain(s.(capacity := c, avail := Rescaled(s, c)))
  }

  ghost function Step(s: Sem, e: Event): Sem
    requires QueueKnown(s) && Enabled(s, e)
  {
    match e
    case Acquire => AcquireStep(s)
    case Receive(t) => s.(phase := s.phase[t := Holding])
    case Abandon(t) => AbandonStep(s, t)
    case Release(t) => ReleaseStep(s, t)
    case SetCapacity(c) => CapacityStep(s, c)
  }

  ghost predicate Increasing(q: seq<nat>) {
    forall i, j :: 0 <= i < j < |q| ==> q[i] < q[j]
  }

  /** The queue and the grant history agree with the phases, and all that was
      granted is older than all that waits. */
  ghost predicate Ordered(s: Sem)
    ensures Ordered(s) ==> QueueKnown(s)
  {
    && Increasing(s.queue)
    && (forall i :: 0 <= i < |s.queue| ==> s.Waiting(s.queue[i]))
    && (forall t: nat :: s.Waiting(t) ==> t in s.queue)
    && Increasing(s.grants)
    && (forall i :: 0 <= i < |s.grants| ==> s.WasGranted(s.grants[i]))
    && (forall t: nat :: s.WasGranted(t) ==> t in s.grants)
    && (forall i, j :: 0 <= i < |s.grants| && 0 <= j < |s.queue| ==> s.grants[i] < s.queue[j])
  }

  /** No slot is lost, and none is free twice over. */
  ghost predicate Counted(s: Sem) {
    && (s.capacity == 0 ==> s.queue == [] && s.avail == 0)
    && (s.capacity > 0 ==> s.avail <= s.capacity && s.Surplus() >= 0)
  }

  /** The invariant: besides the above, nobody waits while a slot is free. */
  ghost predicate Inv(s: Sem) {
    && Ordered(s)
    && Counted(s)
    && (s.queue != [] ==> s.avail == 0)
  }

  // ----- single steps ------------------------------------------------------

  lemma GrantHeadHolds(s: Sem)
    requires s.queue != [] && s.Waiting(s.queue[0])
    ensures GrantHead(s).Held() == s.Held() + 1
  {
  }

  lemma GrantHeadQueue(s: Sem)
    requires Ordered(s) && s.queue != []
    ensures var r := GrantHead(s); forall t: nat :: r.Waiting(t) <==> t in r.queue
  {
    hide Sem.WasGranted;
    var h, r := s.queue[0], GrantHead(s);
    forall t: nat ensures r.Waiting(t) <==> t in r.queue {
      assert s.queue == [h] + r.queue;
      assert r.Waiting(t) <==> t != h && s.Waiting(t);
    }
  }

  lemma GrantHeadGrants(s: Sem)
    requires Ordered(s) && s.queue != []
    ensures var r := GrantHead(s); forall t: nat :: r.WasGranted(t) <==> t in r.grants
  {
    var h, r := s.queue[0], GrantHead(s);
    assert s.Waiting(h);
    forall t: nat ensures r.WasGranted(t) <==> t in r.grants {
      assert r.WasGranted(t) <==> t == h || s.WasGranted(t);
    }
  }

  lemma GrantHeadKeeps(s: Sem)
    requires Ordered(s) && s.queue != []
    ensures Ordered(GrantHead(s))
    ensures GrantHead(s).Held() == s.Held() + 1
  {
    hide Sem.Held, Sem.WasGranted, Sem.Waiting;
    var r := GrantHead(s);
    GrantHeadHolds(s);
    GrantHeadQueue(s);
    GrantHeadGrants(s);
    assert forall i :: 0 <= i < |r.queue| ==> r.queue[i] in r.queue;
    assert forall i :: 0 <= i < |r.grants| ==> r.grants[i] in r.grants;
  }

  /** d comes from s by handing the first k queued tickets a slot each. */
  ghost predicate Served(s: Sem, d: Sem, k: nat) {
    && k <= |s.queue| && d.queue == s.queue[k..] && d.grants == s.grants + s.queue[..k]
    && d.capacity == s.capacity && |d.phase| == |s.phase|
    && d.Held() == s.Held() + k
    && forall t: nat :: t < |s.phase| ==> d.phase[t] == s.phase[t] || (s.phase[t].Queued? && d.phase[t].Offered?)
  }

  lemma ServedMore(s: Sem, r: Sem, d: Sem, k: nat)
    requires Served(s, r, 1) && Served(r, d, k)
    ensures Served(s, d, k + 1)
  {
    assert s.queue[1..][k..] == s.queue[k + 1..];
    assert s.queue[..1] + s.queue[1..][..k] == s.queue[..k + 1];
    assert s.grants + s.queue[..1] + s.queue[1..][..k] == s.grants + (s.queue[..1] + s.queue[1..][..k]);
  }

  lemma GrantHeadServes(s: Sem, avail: nat)
    requires Ordered(s) && s.queue != []
    ensures Ordered(GrantHead(s).(avail := avail)) && Served(s, GrantHead(s).(avail := avail), 1)
  {
    GrantHeadKeeps(s);
    assert s.Waiting(s.queue[0]);
    assert [s.queue[0]] == s.queue[..1];
  }

  lemma {:induction false} DrainKeeps(s: Sem) returns (k: nat)
    requires Ordered(s)
    ensures Ordered(Drain(s)) && Served(s, Drain(s), k)
    ensures Drain(s).avail == s.avail - k
    ensures Drain(s).queue != [] ==> Drain(s).avail == 0
    decreases |s.queue|
  {
    hide Ordered, Sem.Held;
    if s.avail > 0 && s.queue != [] {
      var r := GrantHead(s).(avail := s.avail - 1);
      GrantHeadServes(s, s.avail - 1);
      k := DrainKeeps(r);
      ServedMore(s, r, Drain(s), k);
      k := k + 1;
    } else {
      k := 0;
    }
  }

  lemma {:induction false} GrantAllKeeps(s: Sem)
    requires Ordered(s)
    ensures Ordered(GrantAll(s)) && Served(s, GrantAll(s), |s.queue|)
    decreases |s.queue|
  {
    hide Ordered, Sem.Held;
    if s.queue != [] {
      var r := GrantHead(s);
      GrantHeadServes(s, s.avail);
      GrantAllKeeps(r);
      ServedMore(s, r, GrantAll(s), |r.queue|);
    }
  }

  lemma {:induction false} WithoutKeeps(q: seq<nat>, t: nat) returns (i: nat)
    requires Increasing(q) && t in q
    ensures i < |q| && q[i] == t && Without(q, t) == q[..i] + q[i + 1..]
  {
    if q[0] == t {
      i := 0;
    } else {
      var rest := q[1..];
      assert q == [q[0]] + rest;
      var at := WithoutKeeps(rest, t);
      i := at + 1;
      hide Without;
      Cut(q[0], rest, at);
    }
  }

  lemma Cut(head: nat, rest: seq<nat>, at: nat)
    requires at < |rest|
    ensures var q := [head] + rest;
      q[..at + 1] + q[at + 2..] == [head] + (rest[..at] + rest[at + 1..])
  {
  }

  lemma AdmitKeeps(s: Sem)
    requires Ordered(s) && s.queue == []
    ensures Ordered(Admit(s))
  {
    var n := |s.phase|;
    var r := Admit(s);
    assert forall t: nat :: t < n ==> r.Waiting(t) == s.Waiting(t) && r.WasGranted(t) == s.WasGranted(t);
    forall t: nat | r.WasGranted(t) ensures t in r.grants {
      assert t == n || s.WasGranted(t);
    }
    forall i | 0 <= i < |r.grants| ensures r.WasGranted(r.grants[i]) {
      assert i < |s.grants| ==> s.WasGranted(s.grants[i]);
    }
  }

  lemma EnqueueKeeps(s: Sem)
    requires Ordered(s)
    ensures Ordered(Enqueue(s))
  {
    hide Sem.Waiting, Sem.WasGranted;
    var n, r := |s.phase|, Enqueue(s);
    EnqueuedPhases(s);
    forall i | 0 <= i < |r.queue| ensures r.Waiting(r.queue[i]) && (i < |s.queue| ==> r.queue[i] < n) {
      assert i < |s.queue| ==> s.Waiting(s.queue[i]) && r.queue[i] == s.queue[i];
    }
    forall i | 0 <= i < |r.grants| ensures r.WasGranted(r.grants[i]) && r.grants[i] < n {
      assert s.WasGranted(s.grants[i]);
    }
  }

  lemma EnqueuedPhases(s: Sem)
    ensures var r, n := Enqueue(s), |s.phase|;
      && (forall t: nat :: r.Waiting(t) <==> t == n || s.Waiting(t))
      && (forall t: nat :: r.WasGranted(t) <==> s.WasGranted(t))
      && forall t: nat :: s.Waiting(t) || s.WasGranted(t) ==> t < n
  {
  }

  lemma InvIsOrdered(s: Sem)
    requires Inv(s)
    ensures Ordered(s) && QueueKnown(s) && Increasing(s.queue)
  {
  }

  lemma Settled(s: Sem)
    requires Inv(s)
    ensures Drain(s) == s
    ensures s.capacity == 0 ==> s.queue == []
    ensures s.avail > 0 ==> s.queue == []
  {
  }

  /** An Acquire is granted on the spot exactly when nobody waits and a slot is
      free (or slots are unlimited); otherwise it joins the end of the queue. */
  lemma AcquireKeeps(s: Sem)
    requires Inv(s)
    ensures AcquireStep(s) == if s.queue == [] && (s.capacity == 0 || s.avail > 0) then Admit(s) else Enqueue(s)
    ensures Inv(AcquireStep(s))
    ensures s.capacity > 0 ==> AcquireStep(s).Surplus() == s.Surplus()
  {
    Settled(s);
    if s.queue == [] && (s.capacity == 0 || s.avail > 0) {
      AdmitKeeps(s);
    } else {
      EnqueueKeeps(s);
    }
  }

  lemma RelabelKeeps(s: Sem, t: nat, p: Phase)
    requires Ordered(s) && t < |s.phase| && (s.phase[t].Offered? || s.phase[t].Holding?) && (p.Holding? || p.Done?)
    ensures Ordered(s.(phase := s.phase[t := p]))
  {
    var r := s.(phase := s.phase[t := p]);
    assert forall u: nat :: r.Waiting(u) == s.Waiting(u) && r.WasGranted(u) == s.WasGranted(u);
  }

  lemma WithoutMembers(q: seq<nat>, t: nat)
    requires Increasing(q) && t in q
    ensures Increasing(Without(q, t))
    ensures forall u :: u in Without(q, t) <==> u in q && u != t
  {
    hide Without, Increasing;
    var i := WithoutKeeps(q, t);
    CutKeepsOrder(q, i);
    CutMembers(q, i);
  }

  lemma CutKeepsOrder(q: seq<nat>, i: nat)
    requires Increasing(q) && i < |q|
    ensures Increasing(q[..i] + q[i + 1..])
  {
  }

  lemma CutMembers(q: seq<nat>, i: nat)
    requires Increasing(q) && i < |q|
    ensures forall u :: u in q[..i] + q[i + 1..] <==> u in q && u != q[i]
  {
    var r := q[..i] + q[i + 1..];
    forall u ensures u in r <==> u in q && u != q[i] {
      assert q == q[..i] + [q[i]] + q[i + 1..];
      assert u in q[..i] ==> u < q[i];
      assert u in q[i + 1..] ==> q[i] < u;
    }
  }

  lemma LeaveKeeps(s: Sem, t: nat)
    requires Ordered(s) && s.Waiting(t)
    ensures Ordered(s.(phase := s.phase[t := GaveUp], queue := Without(s.queue, t)))
  {
    hide Without, Sem.Waiting, Sem.WasGranted, Increasing;
    WithoutMembers(s.queue, t);
    LeftPhases(s, t, Without(s.queue, t));
    var r := s.(phase := s.phase[t := GaveUp], queue := Without(s.queue, t));
    forall j | 0 <= j < |r.queue| ensures r.Waiting(r.queue[j]) && forall i :: 0 <= i < |s.grants| ==> s.grants[i] < r.queue[j] {
      assert r.queue[j] in s.queue && r.queue[j] != t;
      var l :| 0 <= l < |s.queue| && s.queue[l] == r.queue[j];
    }
  }

  lemma LeftPhases(s: Sem, t: nat, queue: seq<nat>)
    requires s.Waiting(t)
    ensures var r := s.(phase := s.phase[t := GaveUp], queue := queue);
      forall u: nat :: r.WasGranted(u) == s.WasGranted(u) && (r.Waiting(u) <==> s.Waiting(u) && u != t)
  {
  }

  lemma AbandonKeeps(s: Sem, t: nat)
    requires Inv(s) && Enabled(s, Abandon(t))
    ensures Inv(AbandonStep(s, t))
    ensures AbandonStep(s, t).Held() == s.Held()
  {
    if s.phase[t].Offered? {
      RelabelKeeps(s, t, Holding);
    } else {
      LeaveKeeps(s, t);
      assert AbandonStep(s, t).queue != [] ==> s.queue != [];
    }
  }

  lemma ReleaseKeeps(s: Sem, t: nat)
    requires Inv(s) && Enabled(s, Release(t))
    ensures Inv(ReleaseStep(s, t))
    ensures s.capacity > 0 ==> ReleaseStep(s, t).Surplus()
                               == s.Surplus() - (if s.queue == [] && s.avail == s.capacity then 1 else 0)
  {
    var r := s.(phase := s.phase[t := Done]);
    RelabelKeeps(s, t, Done);
    if s.capacity > 0 && s.queue != [] {
      GrantHeadKeeps(r);
    }
  }

  lemma RescaleCounts(s: Sem, c: nat)
    requires Inv(s) && c > 0 && c != s.capacity
    ensures Rescaled(s, c) <= c && s.Held() + Rescaled(s, c) >= c
    ensures s.Held() + Rescaled(s, c) - c
            == if s.capacity == 0 then s.Held()
               else s.Surplus() + (if s.capacity - c > s.avail then s.capacity - c - s.avail else 0)
  {
  }

  lemma RecapKeeps(s: Sem, c: nat, avail: nat)
    requires Ordered(s)
    ensures Ordered(s.(capacity := c, avail := avail))
  {
  }

  lemma CapacityKeeps(s: Sem, c: nat)
    requires Inv(s)
    ensures Inv(CapacityStep(s, c))
    ensures CapacityStep(s, c).capacity == c
    ensures c > 0 ==> CapacityStep(s, c).Surplus()
                      == if s.capacity == 0 then s.Held()
                         else s.Surplus() + (if s.capacity - c > s.avail then s.capacity - c - s.avail else 0)
  {
    if c == s.capacity {
    } else if c == 0 {
      RecapKeeps(s, 0, s.avail);
      GrantAllKeeps(s.(capacity := 0));
      RecapKeeps(GrantAll(s.(capacity := 0)), 0, 0);
    } else {
      RescaleCounts(s, c);
      RecapKeeps(s, c, Rescaled(s, c));
      var k := DrainKeeps(s.(capacity := c, avail := Rescaled(s, c)));
    }
  }

  /** What a new cap gives out: slots to the first k waiters. */
  lemma CapacityServes(s: Sem, c: nat) returns (k: nat)
    requires Inv(s) && c != s.capacity
    ensures Served(s.(capacity := c), CapacityStep(s, c), k)
  {
    hide Ordered, Counted, Sem.Held;
    if c == 0 {
      k := |s.queue|;
      SameOrder(s, 0, s.avail);
      GrantAllKeeps(s.(capacity := 0));
      SameHeld(GrantAll(s.(capacity := 0)), 0, 0);
    } else {
      SameOrder(s, c, Rescaled(s, c));
      k := DrainKeeps(s.(capacity := c, avail := Rescaled(s, c)));
      SameHeld(s, c, Rescaled(s, c));
    }
    SameHeld(s, c, s.avail);
  }

  lemma SameHeld(s: Sem, capacity: nat, avail: nat)
    ensures s.(capacity := capacity, avail := avail).Held() == s.Held()
  {
  }

  /** Cap and free slots have no say in the order. */
  lemma SameOrder(s: Sem, capacity: nat, avail: nat)
    requires Ordered(s)
    ensures Ordered(s.(capacity := capacity, avail := avail))
  {
  }

  lemma StepKeeps(s: Sem, e: Event)
    requires Inv(s) && Enabled(s, e)
    ensures Inv(Step(s, e))
  {
    match e
    case Acquire => AcquireKeeps(s);
    case Receive(t) => RelabelKeeps(s, t, Holding);
    case Abandon(t) => AbandonKeeps(s, t);
    case Release(t) => ReleaseKeeps(s, t);
    case SetCapacity(c) => CapacityKeeps(s, c);
  }

  // ----- whole runs ---------------------------------------------------------

  ghost predicate Feasible(s: Sem, es: seq<Event>)
    decreases |es|
  {
    es == [] || (QueueKnown(s) && Enabled(s, es[0]) && Feasible(Step(s, es[0]), es[1..]))
  }

  ghost function After(s: Sem, es: seq<Event>): Sem
    requires Feasible(s, es)
    decreases |es|
  {
    if es == [] then s else After(Step(s, es[0]), es[1..])
  }

  lemma {:induction false} RunKeeps(s: Sem, es: seq<Event>)
    requires Inv(s) && Feasible(s, es)
    ensures Inv(After(s, es))
    decreases |es|
  {
    if es != [] {
      StepKeeps(s, es[0]);
      RunKeeps(Step(s, es[0]), es[1..]);
    }
  }

  /** In every run, with any cap changes to and from 0: no slot is ever lost, a
      request waits only while at least `capacity` slots are held, and when all
      holders are gone the whole capacity is free again and nobody waits. */
  lemma NoSlotLost(c: nat, es: seq<Event>)
    requires Feasible(Fresh(c), es)
    ensures var s := After(Fresh(c), es);
      && s.avail <= s.capacity
      && s.Held() + s.avail >= s.capacity
      && (s.queue != [] ==> s.avail == 0 && 0 < s.capacity <= s.Held())
      && (s.Held() == 0 ==> s.avail == s.capacity && s.queue == [])
  {
    RunKeeps(Fresh(c), es);
  }

  /** Along es, every cap change stays above zero and cuts no more than is free. */
  ghost predicate Gentle(s: Sem, es: seq<Event>)
    requires Feasible(s, es)
    decreases |es|
  {
    es != [] ==>
      && (es[0].SetCapacity? ==> es[0].c > 0 && s.capacity - es[0].c <= s.avail)
      && Gentle(Step(s, es[0]), es[1..])
  }

  lemma StepSurplus(s: Sem, e: Event)
    requires Inv(s) && Enabled(s, e) && s.capacity > 0 && !e.SetCapacity?
    ensures Step(s, e).capacity == s.capacity
    ensures Step(s, e).Surplus()
            == s.Surplus() - (if e.Release? && s.queue == [] && s.avail == s.capacity then 1 else 0)
  {
    match e
    case Acquire => AcquireKeeps(s);
    case Receive(t) =>
    case Abandon(t) => AbandonKeeps(s, t);
    case Release(t) => ReleaseKeeps(s, t);
  }

  /** With gentle cap changes the cap is exact at every moment: what is held and
      what is free add up to it, so never more than `capacity` slots are held. */
  lemma {:induction false} CapIsExact(s: Sem, es: seq<Event>)
    requires Inv(s) && Feasible(s, es) && Gentle(s, es)
    requires s.capacity > 0 && s.Held() + s.avail == s.capacity
    ensures After(s, es).Held() + After(s, es).avail == After(s, es).capacity
    ensures 0 < After(s, es).capacity && After(s, es).Held() <= After(s, es).capacity
    decreases |es|
  {
    if es != [] {
      StepKeeps(s, es[0]);
      if es[0].SetCapacity? {
        CapacityKeeps(s, es[0].c);
      } else {
        StepSurplus(s, es[0]);
      }
      CapIsExact(Step(s, es[0]), es[1..]);
    }
  }

  /** A cut is the only way to break an exact cap, and it breaks it exactly when
      it takes more than what is free. */
  lemma CutBreaksCap(s: Sem, c: nat)
    requires Inv(s) && s.capacity > 0 && c > 0 && s.Held() + s.avail == s.capacity
    ensures Step(s, SetCapacity(c)).Held() + Step(s, SetCapacity(c)).avail == c <==> s.capacity - c <= s.avail
  {
    CapacityKeeps(s, c);
  }

  /** Whatever broke the cap, the excess never grows while the cap stays put. */
  lemma {:induction false} SurplusNeverGrows(s: Sem, es: seq<Event>)
    requires Inv(s) && Feasible(s, es) && s.capacity > 0
    requires forall i :: 0 <= i < |es| ==> !es[i].SetCapacity?
    ensures After(s, es).capacity == s.capacity
    ensures 0 <= After(s, es).Surplus() <= s.Surplus()
    decreases |es|
  {
    if es != [] {
      StepKeeps(s, es[0]);
      StepSurplus(s, es[0]);
      SurplusNeverGrows(Step(s, es[0]), es[1..]);
    }
  }

  /** "Shrinking absorbs over-allocation in flight" is not what happens: the run
      2 held, cap cut to 1, one release, one arrival has two holders under a cap
      of one, and the newcomer did not even queue. A release absorbs excess only
      when it finds every slot of the new cap free (StepSurplus, ReleaseKeeps). */
  lemma ShrinkIsNotAbsorbed()
    ensures var es := [Acquire, Acquire, SetCapacity(1), Release(0), Acquire];
      && Feasible(Fresh(2), es)
      && After(Fresh(2), es).capacity == 1 && After(Fresh(2), es).Held() == 2 && After(Fresh(2), es).queue == []
  {
    var s1 := Sem(2, 1, [], [Holding], [0]);
    var s2 := Sem(2, 0, [], [Holding, Holding], [0, 1]);
    var s3 := Sem(1, 0, [], [Holding, Holding], [0, 1]);
    var s4 := Sem(1, 1, [], [Done, Holding], [0, 1]);
    var s5 := Sem(1, 0, [], [Done, Holding, Holding], [0, 1, 2]);
    RunCons(s4, Acquire, [], s5);
    RunCons(s3, Release(0), [Acquire], s4);
    RunCons(s2, SetCapacity(1), [Release(0), Acquire], s3);
    RunCons(s1, Acquire, [SetCapacity(1), Release(0), Acquire], s2);
    RunCons(Fresh(2), Acquire, [Acquire, SetCapacity(1), Release(0), Acquire], s1);
  }

  lemma RunCons(s: Sem, e: Event, es: seq<Event>, r: Sem)
    requires QueueKnown(s) && Enabled(s, e) && Step(s, e) == r && Feasible(r, es)
    ensures Feasible(s, [e] + es) && After(s, [e] + es) == After(r, es)
  {
    assert ([e] + es)[1..] == es;
  }

  // ----- order -----------------------------------------------------------------

  lemma LeaverAdvances(q: seq<nat>, u: nat, t: nat, i: nat) returns (j: nat)
    requires Increasing(q) && u in q && i < |q| && q[i] == t
    ensures t in Without(q, u) ==> j < |Without(q, u)| && Without(q, u)[j] == t && j <= i
  {
    hide Without, Increasing;
    WithoutMembers(q, u);
    var k := WithoutKeeps(q, u);
    j := if k < i then i - 1 else i;
  }

  lemma ServedAdvances(s: Sem, r: Sem, k: nat, t: nat, i: nat) returns (j: nat)
    requires Ordered(s) && Served(s, r, k) && i < |s.queue| && s.queue[i] == t
    ensures t in r.queue ==> j < |r.queue| && r.queue[j] == t && j + k == i
  {
    j := if k <= i then i - k else 0;
    if t in r.queue {
      var l :| 0 <= l < |r.queue| && r.queue[l] == t;
      assert s.queue[l + k] == t;
    }
  }

  lemma CapacityAdvances(s: Sem, c: nat, t: nat, i: nat) returns (j: nat)
    requires Inv(s) && i < |s.queue| && s.queue[i] == t
    ensures var q := CapacityStep(s, c).queue;
      t in q ==> j < |q| && q[j] == t && j <= i
  {
    hide Ordered, Counted, Served;
    j := i;
    if c != s.capacity {
      var k := CapacityServes(s, c);
      SameOrder(s, c, s.avail);
      j := ServedAdvances(s.(capacity := c), CapacityStep(s, c), k, t, i);
    }
  }

  lemma ReleaseAdvances(s: Sem, u: nat, t: nat, i: nat) returns (j: nat)
    requires Inv(s) && Enabled(s, Release(u)) && i < |s.queue| && s.queue[i] == t
    ensures var q := ReleaseStep(s, u).queue;
      t in q ==> j < |q| && q[j] == t && j < i
  {
    var r := s.(phase := s.phase[u := Done]);
    RelabelKeeps(s, u, Done);
    GrantHeadServes(r, r.avail);
    j := ServedAdvances(r, GrantHead(r), 1, t, i);
  }

  /** A ticket at place i of the queue never moves back, and every release moves
      it up or serves it. */
  lemma StepAdvances(s: Sem, e: Event, t: nat, i: nat) returns (j: nat)
    requires Inv(s) && Enabled(s, e) && i < |s.queue| && s.queue[i] == t
    ensures t in Step(s, e).queue ==>
      && j < |Step(s, e).queue| && Step(s, e).queue[j] == t && j <= i
      && (e.Release? ==> j < i)
  {
    j := i;
    match e
    case Acquire => AcquireKeeps(s);
    case Receive(u) =>
    case Release(u) => j := ReleaseAdvances(s, u, t, i);
    case Abandon(u) =>
      if s.phase[u].Queued? {
        assert s.Waiting(u);
        j := LeaverAdvances(s.queue, u, t, i);
      }
    case SetCapacity(c) => j := CapacityAdvances(s, c, t, i);
  }

  ghost function Releases(es: seq<Event>): nat {
    if es == [] then 0 else (if es[0].Release? then 1 else 0) + Releases(es[1..])
  }

  /** A phase only moves forward: what an event can turn a ticket into. */
  lemma StepPhase(s: Sem, e: Event, t: nat)
    requires Inv(s) && Enabled(s, e) && t < |s.phase|
    ensures t < |Step(s, e).phase|
    ensures var p, q := s.phase[t], Step(s, e).phase[t];
      || p == q
      || (p.Queued? && (q.Offered? || (q.GaveUp? && e == Abandon(t))))
      || (p.Offered? && q.Holding? && (e == Receive(t) || e == Abandon(t)))
      || (p.Holding? && q.Done? && e == Release(t))
  {
    match e
    case Acquire => AcquireKeeps(s);
    case Receive(u) =>
    case Abandon(u) =>
    case Release(u) =>
      if s.capacity > 0 && s.queue != [] {
        assert s.Waiting(s.queue[0]);
      }
    case SetCapacity(c) =>
      if c != s.capacity {
        ServedPhase(s, c, t);
      }
  }

  /** What an event does to the ticket it names, and how the tickets grow. */
  lemma StepOwn(s: Sem, e: Event)
    requires Inv(s) && Enabled(s, e)
    ensures |Step(s, e).phase| == |s.phase| + (if e.Acquire? then 1 else 0)
    ensures e.Acquire? ==> Step(s, e).phase[|s.phase|].Holding? || Step(s, e).phase[|s.phase|].Queued?
    ensures e.Receive? ==> Step(s, e).phase[e.t].Holding?
    ensures e.Abandon? ==> Step(s, e).phase[e.t] == if s.phase[e.t].Offered? then Holding else GaveUp
    ensures e.Release? ==> Step(s, e).phase[e.t].Done?
  {
    match e
    case Acquire => AcquireKeeps(s);
    case Receive(u) =>
    case Abandon(u) =>
    case Release(u) =>
      if s.capacity > 0 && s.queue != [] {
        assert s.Waiting(s.queue[0]);
      }
    case SetCapacity(c) =>
      if c != s.capacity {
        var k := CapacityServes(s, c);
      }
  }

  lemma ServedPhase(s: Sem, c: nat, t: nat)
    requires Inv(s) && c != s.capacity && t < |s.phase|
    ensures t < |CapacityStep(s, c).phase|
    ensures CapacityStep(s, c).phase[t] == s.phase[t] || (s.phase[t].Queued? && CapacityStep(s, c).phase[t].Offered?)
  {
    hide Ordered, Counted, Sem.Held;
    CapacityKeeps(s, c);
    var k := CapacityServes(s, c);
  }

  lemma {:induction false} HistoryGrows(s: Sem, es: seq<Event>)
    requires Inv(s) && Feasible(s, es)
    ensures s.grants <= After(s, es).grants
    decreases |es|
  {
    if es != [] {
      var e := es[0];
      StepKeeps(s, e);
      StepHistory(s, e);
      HistoryGrows(Step(s, e), es[1..]);
    }
  }

  lemma StepHistory(s: Sem, e: Event)
    requires Inv(s) && Enabled(s, e)
    ensures s.grants <= Step(s, e).grants
  {
    match e
    case Acquire => AcquireKeeps(s);
    case Receive(u) =>
    case Abandon(u) =>
    case Release(u) =>
    case SetCapacity(c) =>
      if c != s.capacity {
        var k := CapacityServes(s, c);
      }
  }

  /** First come, first served, over whole runs: slots are granted in strictly
      increasing ticket order, a grant is never taken back from the history, and
      every ticket granted is older than every ticket still waiting. */
  lemma FirstComeFirstServed(c: nat, es: seq<Event>, more: seq<Event>)
    requires Feasible(Fresh(c), es) && Feasible(After(Fresh(c), es), more)
    ensures var s, r := After(Fresh(c), es), After(After(Fresh(c), es), more);
      && Increasing(r.grants) && s.grants <= r.grants
      && (forall g, q :: g in r.grants && q in r.queue ==> g < q)
  {
    RunKeeps(Fresh(c), es);
    RunKeeps(After(Fresh(c), es), more);
    HistoryGrows(After(Fresh(c), es), more);
  }

  /** Bounded wait: with p tickets ahead, a ticket has left the queue (served or
      given up) by the (p+1)-th release, whatever else happens in between. */
  lemma {:induction false} BoundedWait(s: Sem, es: seq<Event>, t: nat, p: nat)
    requires Inv(s) && Feasible(s, es) && p < |s.queue| && s.queue[p] == t
    requires Releases(es) >= p + 1
    ensures t !in After(s, es).queue
    ensures t < |After(s, es).phase|
    ensures After(s, es).WasGranted(t) || After(s, es).phase[t].GaveUp?
    decreases |es|
  {
    var e := es[0];
    var r := Step(s, e);
    StepKeeps(s, e);
    assert s.Waiting(t);
    StepPhase(s, e, t);
    var j := StepAdvances(s, e, t, p);
    if t in r.queue {
      BoundedWait(r, es[1..], t, j);
    } else {
      SettledStays(r, es[1..], t);
    }
  }

  /** A ticket out of the queue stays out; one that gave up was never granted a
      slot and never will be; one that was granted never counts as given up. */
  lemma {:induction false} SettledStays(s: Sem, es: seq<Event>, t: nat)
    requires Inv(s) && Feasible(s, es) && t < |s.phase| && !s.Waiting(t)
    ensures t < |After(s, es).phase| && !After(s, es).Waiting(t) && t !in After(s, es).queue
    ensures s.phase[t].GaveUp? <==> After(s, es).phase[t].GaveUp?
    ensures s.phase[t].GaveUp? ==> t !in After(s, es).grants
    ensures !s.phase[t].GaveUp? ==> After(s, es).WasGranted(t)
    decreases |es|
  {
    if es != [] {
      StepKeeps(s, es[0]);
      StepPhase(s, es[0], t);
      SettledStays(Step(s, es[0]), es[1..], t);
    } else {
      assert t in s.queue ==> s.Waiting(t);
      assert t in s.grants ==> s.WasGranted(t);
    }
  }

  /** What the bool returned by abandon means, whichever way the race went: true
      is exactly one slot, granted once and now received; false is no grant ever,
      before or in any continuation. */
  lemma AbandonOutcome(s: Sem, t: nat, es: seq<Event>)
    requires Inv(s) && Enabled(s, Abandon(t)) && Feasible(Step(s, Abandon(t)), es)
    ensures var r := Step(s, Abandon(t));
      && (s.phase[t].Offered? ==> r.phase[t].Holding? && t in r.grants && r.Held() == s.Held())
      && (!s.phase[t].Offered? ==> r.phase[t].GaveUp? && t !in After(r, es).grants && r.Held() == s.Held())
    ensures Increasing(After(Step(s, Abandon(t)), es).grants)
  {
    var r := Step(s, Abandon(t));
    AbandonKeeps(s, t);
    RunKeeps(r, es);
    if s.phase[t].Offered? {
      assert r.WasGranted(t);
    } else {
      SettledStays(r, es, t);
    }
  }
}
