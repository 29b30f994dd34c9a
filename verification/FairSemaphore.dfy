/** The semaphore as the code keeps it: mutable waiters with a one-token channel
    and a cancelled flag, a queue of them, loops that drain and pop. Each method
    is one section under the mutex and is proved to be one step of SemModel. */
module FairSemaphore {
  import opened SemModel

  class SemWaiter {
    const sem: FairSem
    ghost const ticket: nat
    var tokens: nat // what the channel of size 1 buffers
    var cancelled: bool

    constructor (sem: FairSem, ghost ticket: nat)
      ensures this.sem == sem && this.ticket == ticket && tokens == 0 && !cancelled
    {
      this.sem, this.ticket, tokens, cancelled := sem, ticket, 0, false;
    }
  }

  ghost function Tickets(ws: seq<SemWaiter>): (ts: seq<nat>)
    ensures |ts| == |ws| && forall i :: 0 <= i < |ws| ==> ts[i] == ws[i].ticket
  {
    if ws == [] then [] else [ws[0].ticket] + Tickets(ws[1..])
  }

  lemma {:induction false} TicketsTail(ws: seq<SemWaiter>, i: nat)
    requires i <= |ws|
    ensures Tickets(ws[i..]) == Tickets(ws)[i..] && Tickets(ws[..i]) == Tickets(ws)[..i]
  {
  }

  class FairSem {
    var capacity: nat
    var avail: nat
    var waiters: seq<SemWaiter>
    ghost var phase: seq<Phase>
    ghost var grants: seq<nat>
    ghost var born: map<nat, SemWaiter> // every waiter ever made, by its ticket

    ghost function View(): Sem
      reads this
    {
      Sem(capacity, avail, Tickets(waiters), phase, grants)
    }

    /** Each waiter object carries exactly the state its ticket's phase says: one
        token when a grant waits to be received, none otherwise, and the flag when
        it gave up. Whoever queues has a waiter. */
    ghost predicate Linked()
      reads this, born.Values
    {
      && (forall t :: t in born ==>
            && t < |phase| && born[t].ticket == t && born[t].sem == this
            && born[t].tokens == (if phase[t].Offered? then 1 else 0)
            && born[t].cancelled == phase[t].GaveUp?)
      && (forall i :: 0 <= i < |waiters| ==> waiters[i].ticket in born && born[waiters[i].ticket] == waiters[i])
    }

    constructor (capacity: nat)
      ensures Linked() && Inv(View()) && View() == Fresh(capacity) && born == map[]
    {
      this.capacity, avail, waiters := capacity, 0, [];
      phase, grants, born := [], [], map[];
      if capacity > 0 {
        avail := capacity;
      }
    }

    /** The send is under the lock, so it must find the channel empty: the
        precondition is proved at every call. */
    method GrantLocked(w: SemWaiter)
      requires w.ticket < |phase| && w.tokens == 0
      modifies w`tokens, `phase, `grants
      ensures w.tokens == 1
      ensures phase == old(phase)[w.ticket := Offered] && grants == old(grants) + [w.ticket]
    {
      w.tokens := w.tokens + 1;
      phase := phase[w.ticket := Offered];
      grants := grants + [w.ticket];
    }

    method PopWaiterLocked() returns (w: SemWaiter?, ghost k: nat)
      modifies `waiters
      ensures k <= |old(waiters)| && forall i :: 0 <= i < k ==> old(waiters)[i].cancelled
      ensures w == null ==> k == |old(waiters)| && waiters == []
      ensures w != null ==> k < |old(waiters)| && w == old(waiters)[k] && !w.cancelled && waiters == old(waiters)[k + 1..]
    {
      k := 0;
      while |waiters| > 0
        invariant k <= |old(waiters)| && waiters == old(waiters)[k..]
        invariant forall i :: 0 <= i < k ==> old(waiters)[i].cancelled
        decreases |waiters|
      {
        w := waiters[0];
        waiters := waiters[1..];
        if !w.cancelled {
          return;
        }
        k := k + 1;
      }
      w := null;
    }

    /** Popping from an ordered semaphore yields the head of the queue. */
    method PopHead() returns (w: SemWaiter?)
      requires Linked() && Ordered(View())
      modifies `waiters
      ensures old(waiters) == [] ==> w == null && waiters == []
      ensures old(waiters) != [] ==> w == old(waiters)[0] && waiters == old(waiters)[1..]
      ensures old(waiters) != [] ==> w.ticket < |phase| && phase[w.ticket].Queued? && w.tokens == 0
    {
      ghost var s := View();
      if waiters != [] {
        assert s.Waiting(s.queue[0]);
      }
      ghost var k;
      w, k := PopWaiterLocked();
    }

    method GrantLinked(w: SemWaiter)
      requires Linked() && w.ticket in born && born[w.ticket] == w && phase[w.ticket].Queued?
      modifies w`tokens, `phase, `grants
      ensures Linked()
      ensures phase == old(phase)[w.ticket := Offered] && grants == old(grants) + [w.ticket]
    {
      GrantLocked(w);
    }

    /** Pop and hand the slot over: the whole of a release to a waiter, and one
        round of a drain (which takes the slot off `avail` under the same lock). */
    method GrantNext() returns (granted: bool)
      requires Linked() && Ordered(View())
      modifies this`waiters, this`phase, this`grants, born.Values
      ensures Linked() && Ordered(View())
      ensures granted <==> old(View()).queue != []
      ensures granted ==> View() == GrantHead(old(View()))
      ensures !granted ==> View() == old(View())
    {
      hide Ordered, Tickets;
      ghost var s := View();
      if waiters != [] {
        TicketsTail(waiters, 1);
        GrantHeadKeeps(s);
      }
      var w := PopHead();
      granted := w != null;
      if granted {
        GrantLinked(w);
      }
    }

    method DrainLocked()
      requires Linked() && Ordered(View())
      modifies this`avail, this`waiters, this`phase, this`grants, born.Values
      ensures Linked() && Ordered(View()) && View() == Drain(old(View()))
    {
      hide Ordered, Linked, Tickets;
      while avail > 0
        invariant Linked() && Ordered(View()) && Drain(View()) == Drain(old(View()))
        decreases avail
      {
        var granted := GrantNext();
        if !granted {
          return;
        }
        TakeOff();
      }
    }

    method TakeOff()
      requires Linked() && Ordered(View()) && avail > 0
      modifies `avail
      ensures Linked() && Ordered(View()) && View() == old(View()).(avail := old(avail) - 1)
    {
      avail := avail - 1;
    }

    /** The queue from place i on, when all before it have been granted. */
    ghost function Rest(i: nat): Sem
      reads this
      requires i <= |waiters|
    {
      Sem(capacity, avail, Tickets(waiters[i..]), phase, grants)
    }

    method GrantAt(i: nat)
      requires Linked() && i < |waiters| && Ordered(Rest(i))
      modifies this`phase, this`grants, born.Values
      ensures Linked() && Ordered(Rest(i + 1)) && Rest(i).queue != [] && Rest(i + 1) == GrantHead(old(Rest(i)))
    {
      ghost var r := Rest(i);
      var w := waiters[i];
      TicketsTail(waiters[i..], 1);
      assert waiters[i..][1..] == waiters[i + 1..];
      assert r.queue[0] == w.ticket && r.Waiting(r.queue[0]);
      GrantHeadKeeps(r);
      hide Ordered;
      if !w.cancelled {
        GrantLinked(w);
      }
    }

    /** Now unlimited: everyone queued walks in. */
    method GrantEveryone()
      requires Linked() && Ordered(View())
      modifies this`waiters, this`avail, this`phase, this`grants, born.Values
      ensures Linked() && View() == GrantAll(old(View())).(avail := 0)
    {
      hide Ordered;
      ghost var s := View();
      assert waiters[0..] == waiters;
      for i := 0 to |waiters|
        invariant waiters == old(waiters)
        invariant Linked() && Ordered(Rest(i)) && GrantAll(Rest(i)) == GrantAll(s)
      {
        GrantAt(i);
      }
      waiters := [];
      avail := 0;
    }

    method SetAvail(was: nat)
      requires Linked() && Ordered(View()) && capacity > 0
      modifies `avail
      ensures Linked() && Ordered(View())
      ensures View() == old(View()).(avail := if was == 0 then capacity else Clamp(old(avail) + capacity - was, capacity))
    {
      RecapKeeps(View(), capacity, if was == 0 then capacity else Clamp(avail + capacity - was, capacity));
      hide Ordered;
      var a: int := capacity;
      if was != 0 {
        a := avail + (capacity - was);
        if a < 0 {
          a := 0;
        }
        if a > capacity {
          a := capacity;
        }
      }
      avail := a;
    }

    method Recap(c: nat)
      requires Linked() && Ordered(View())
      modifies `capacity
      ensures Linked() && Ordered(View()) && View() == old(View()).(capacity := c)
    {
      hide Ordered;
      RecapKeeps(View(), c, avail);
      capacity := c;
    }

    method SetCapacity(c: nat)
      requires Linked() && Inv(View())
      modifies this, born.Values
      ensures Linked() && Inv(View()) && born == old(born)
      ensures View() == Step(old(View()), SemModel.SetCapacity(c))
    {
      hide Ordered, Counted, Linked, Drain, GrantAll, Tickets, Inv, QueueKnown;
      ghost var s := View();
      InvIsOrdered(s);
      StepKeeps(s, SemModel.SetCapacity(c));
      if c == capacity {
        return;
      }
      var was := capacity;
      Recap(c);
      if c == 0 {
        GrantEveryone();
        return;
      }
      SetAvail(was);
      DrainLocked();
    }

    method JoinQueue() returns (w: SemWaiter)
      requires Linked()
      modifies this`waiters, this`phase, this`born
      ensures Linked() && fresh(w) && w.ticket == |old(phase)| && w.sem == this && born == old(born)[w.ticket := w]
      ensures View() == Enqueue(old(View()))
    {
      hide Linked;
      w := new SemWaiter(this, |phase|);
      TicketsConcat(waiters, [w]);
      waiters := waiters + [w];
      phase := phase + [Queued];
      born := born[w.ticket := w];
      Joined(w);
    }

    twostate lemma Joined(new w: SemWaiter)
      requires old(Linked()) && forall t :: t in old(born) ==> unchanged(old(born)[t])
      requires w.ticket == |old(phase)| && w.sem == this && w.tokens == 0 && !w.cancelled
      requires waiters == old(waiters) + [w] && phase == old(phase) + [Queued] && born == old(born)[w.ticket := w]
      ensures Linked()
    {
    }

    method TakeFree()
      requires Linked() && (capacity > 0 ==> avail > 0)
      modifies `avail, `phase, `grants
      ensures Linked() && View() == Admit(old(View()))
    {
      if capacity > 0 {
        avail := avail - 1;
      }
      grants := grants + [|phase|];
      phase := phase + [Holding];
    }

    /** Acquire drains first, so nobody overtakes the queue; between calls there
        is nothing left to drain. */
    method Settle()
      requires Linked() && Inv(View())
      modifies this`avail, this`waiters, this`phase, this`grants, born.Values
      ensures Linked() && View() == old(View())
    {
      Settled(View());
      assert Ordered(View());
      hide Ordered, Counted, Linked, Tickets, Drain, Inv;
      if capacity > 0 {
        DrainLocked();
      }
    }

    /** Takes a slot when one is free, else queues. `w` is null exactly when the
        slot was granted on the spot, and then nobody was waiting; this call's
        ticket is the next serial number. */
    method Acquire() returns (w: SemWaiter?, immediate: bool)
      requires Linked() && Inv(View())
      modifies this, born.Values
      ensures Linked() && Inv(View())
      ensures View() == Step(old(View()), SemModel.Acquire)
      ensures immediate <==> w == null
      ensures immediate == (old(View()).queue == [] && (capacity == 0 || old(avail) > 0))
      ensures immediate ==> born == old(born)
      ensures !immediate ==> fresh(w) && w.sem == this && born == old(born)[|old(phase)| := w]
    {
      hide Ordered, Counted, Linked, Tickets, Drain, Inv, Admit, Enqueue, QueueKnown;
      InvIsOrdered(View());
      StepKeeps(View(), SemModel.Acquire);
      Settled(View());
      Settle();
      immediate := capacity == 0 || avail > 0;
      w := null;
      if immediate {
        TakeFree();
      } else {
        w := JoinQueue();
      }
    }

    method Restore()
      requires Linked() && waiters == []
      modifies `avail
      ensures Linked() && View() == HandBack(old(View()))
    {
      avail := avail + 1;
      if avail > capacity {
        avail := capacity;
      }
    }

    /** The ticket's holder is done with its slot (bookkeeping of the proof). */
    ghost method Finish(t: nat)
      requires Linked() && Ordered(View()) && t < |phase| && phase[t].Holding?
      modifies `phase
      ensures Linked() && Ordered(View()) && View() == old(View()).(phase := old(phase)[t := Done])
    {
      RelabelKeeps(View(), t, Done);
      hide Ordered;
      phase := phase[t := Done];
    }

    method GiveBack()
      requires Linked() && Ordered(View())
      modifies this`avail, this`waiters, this`phase, this`grants, born.Values
      ensures Linked() && View() == HandBack(old(View()))
    {
      assert QueueKnown(View());
      hide Ordered, Linked;
      var granted := GrantNext();
      if !granted {
        Restore();
      }
    }

    /** The holder of ticket t is done: the slot goes to the longest waiter or
        back to the pool. */
    method Release(ghost t: nat)
      requires Linked() && Inv(View()) && Enabled(View(), SemModel.Release(t))
      modifies this, born.Values
      ensures Linked() && Inv(View()) && born == old(born)
      ensures View() == Step(old(View()), SemModel.Release(t))
    {
      hide Ordered, Counted, Linked, Tickets, Inv, GrantHead, HandBack, QueueKnown;
      InvIsOrdered(View());
      StepKeeps(View(), SemModel.Release(t));
      Finish(t);
      if capacity != 0 {
        GiveBack();
      }
    }

    /** `<-w.ch`: the waiter receives the grant buffered for it. */
    method TakeToken(w: SemWaiter)
      requires Linked() && w.ticket in born && born[w.ticket] == w && w.tokens > 0
      modifies w`tokens, `phase
      ensures Linked() && View() == old(View()).(phase := old(phase)[w.ticket := Holding])
    {
      w.tokens := w.tokens - 1;
      phase := phase[w.ticket := Holding];
    }

    lemma ApartByTicket()
      requires Increasing(Tickets(waiters))
      ensures forall i, j :: 0 <= i < j < |waiters| ==> waiters[i].ticket != waiters[j].ticket
    {
      assert forall i :: 0 <= i < |waiters| ==> Tickets(waiters)[i] == waiters[i].ticket;
    }

    method LeaveQueue(w: SemWaiter)
      requires Linked() && w.ticket in born && born[w.ticket] == w
      requires forall i, j :: 0 <= i < j < |waiters| ==> waiters[i].ticket != waiters[j].ticket
      modifies `waiters
      ensures Linked() && Tickets(waiters) == Without(Tickets(old(waiters)), w.ticket)
    {
      hide Tickets, Without;
      ghost var ws := waiters;
      RemoveWaiter(w);
      forall i | 0 <= i < |waiters| ensures waiters[i].ticket in born && born[waiters[i].ticket] == waiters[i] {
        assert waiters[i] in waiters;
        var j :| 0 <= j < |ws| && ws[j] == waiters[i];
      }
    }

    method GiveUp(w: SemWaiter)
      requires Linked() && w.ticket in born && born[w.ticket] == w && phase[w.ticket].Queued?
      requires Increasing(Tickets(waiters))
      modifies w`cancelled, `phase, `waiters
      ensures Linked() && w.cancelled
      ensures View() == old(View()).(phase := old(phase)[w.ticket := Phase.GaveUp], queue := Without(old(View()).queue, w.ticket))
    {
      hide Increasing, Tickets, Without;
      ApartByTicket();
      LeaveQueue(w);
      w.cancelled := true;
      phase := phase[w.ticket := Phase.GaveUp];
    }

    /** `abandon` of waiter w: a grant already in the channel is kept. */
    method Abandon(w: SemWaiter) returns (kept: bool)
      requires Linked() && Inv(View()) && w.ticket in born && born[w.ticket] == w
      requires Enabled(View(), SemModel.Abandon(w.ticket))
      modifies this, born.Values
      ensures Linked() && Inv(View()) && born == old(born)
      ensures View() == Step(old(View()), SemModel.Abandon(w.ticket))
      ensures kept == old(phase)[w.ticket].Offered?
    {
      hide Ordered, Counted, Tickets, Inv, Increasing, QueueKnown;
      InvIsOrdered(View());
      StepKeeps(View(), SemModel.Abandon(w.ticket));
      kept := w.tokens > 0;
      if kept {
        TakeToken(w);
      } else {
        GiveUp(w);
      }
    }

    method RemoveWaiter(w: SemWaiter)
      requires forall i, j :: 0 <= i < j < |waiters| ==> waiters[i].ticket != waiters[j].ticket
      requires forall i :: 0 <= i < |waiters| && waiters[i].ticket == w.ticket ==> waiters[i] == w
      modifies `waiters
      ensures Tickets(waiters) == Without(Tickets(old(waiters)), w.ticket)
      ensures forall x :: x in waiters ==> x in old(waiters)
    {
      for i := 0 to |waiters|
        invariant waiters == old(waiters) && forall j :: 0 <= j < i ==> waiters[j] != w
      {
        if waiters[i] == w {
          WithoutAt(Tickets(waiters), w.ticket, i);
          TicketsTail(waiters, i);
          TicketsTail(waiters, i + 1);
          TicketsConcat(waiters[..i], waiters[i + 1..]);
          waiters := waiters[..i] + waiters[i + 1..];
          return;
        }
      }
      WithoutNone(Tickets(waiters), w.ticket);
    }

    /** `Wait`: the goroutine wakes because the token is there, or because its
        context ended or its timer fired, in which case it abandons. */
    method Wait(w: SemWaiter, tokenFirst: bool) returns (acquired: bool)
      requires Linked() && Inv(View()) && w.ticket in born && born[w.ticket] == w
      requires Enabled(View(), SemModel.Abandon(w.ticket))
      requires tokenFirst ==> w.tokens > 0
      modifies this, born.Values
      ensures Linked() && Inv(View()) && born == old(born)
      ensures View() == Step(old(View()), if tokenFirst then Receive(w.ticket) else SemModel.Abandon(w.ticket))
      ensures acquired == old(phase)[w.ticket].Offered?
    {
      if tokenFirst {
        StepKeeps(View(), Receive(w.ticket));
        hide Ordered, Counted, Tickets, Inv;
        TakeToken(w);
        acquired := true;
      } else {
        acquired := Abandon(w);
      }
    }
  }

  lemma {:induction false} WithoutAt(q: seq<nat>, t: nat, i: nat)
    requires i < |q| && q[i] == t && forall j :: 0 <= j < i ==> q[j] != t
    ensures Without(q, t) == q[..i] + q[i + 1..]
  {
    if i > 0 {
      WithoutAt(q[1..], t, i - 1);
      assert q[..i] == [q[0]] + q[1..][..i - 1] && q[i + 1..] == q[1..][i..];
    }
  }

  lemma {:induction false} WithoutNone(q: seq<nat>, t: nat)
    requires t !in q
    ensures Without(q, t) == q
  {
    if q != [] {
      assert q == [q[0]] + q[1..];
      WithoutNone(q[1..], t);
    }
  }

  lemma {:induction false} TicketsConcat(a: seq<SemWaiter>, b: seq<SemWaiter>)
    ensures Tickets(a + b) == Tickets(a) + Tickets(b)
  {
    if a == [] {
      assert a + b == b;
    } else {
      assert (a + b)[1..] == a[1..] + b;
      TicketsConcat(a[1..], b);
    }
  }
}
