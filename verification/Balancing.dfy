/** What the greedy pick guarantees over a run of admissions through one route,
    from idle, with the same members answering throughout and nothing finishing. */
module Balancing {
  import opened Wrappers
  import opened Fleet
  import opened Balancer

  /** One admission: the member it went to, and for each member how many
      admissions had been counted when this request read that member's count. */
  datatype Admission = Admission(member: nat, asOf: seq<nat>)

  type Run = seq<Admission>

  /** How many of the first r admissions went to member j. */
  ghost function Count(run: Run, j: nat, r: nat): nat
    requires r <= |run|
  {
    if r == 0 then 0 else Count(run, j, r - 1) + (if run[r - 1].member == j then 1 else 0)
  }

  /** The in-flight cost of n connections to a member. */
  function Carries(m: Member, n: int): real {
    m.cost * n as real
  }

  /** The idle route with n requests in flight to a member. */
  function Loaded(m: Member, n: nat): Member {
    m.(inFlight := n, load := Carries(m, n))
  }

  ghost predicate IdleRoute(ms: seq<Member>) {
    forall j :: 0 <= j < |ms| ==> ms[j].cost > 0.0
  }

  /** The route as admission r compiled it: each count as old as its read. */
  ghost function Seen(ms: seq<Member>, run: Run, r: nat): (s: seq<Member>)
    requires r < |run| && |run[r].asOf| == |ms| && forall j :: 0 <= j < |ms| ==> run[r].asOf[j] <= |run|
    ensures |s| == |ms| && forall j :: 0 <= j < |ms| ==> s[j] == Loaded(ms[j], Count(run, j, run[r].asOf[j]))
  {
    seq(|ms|, j requires 0 <= j < |ms| => Loaded(ms[j], Count(run, j, run[r].asOf[j])))
  }

  /** Resolving and registering are separate steps: between a request's reads and
      its own registration at most k - 1 other requests register. */
  ghost predicate AdmitsAt(ms: seq<Member>, k: nat, run: Run, r: nat)
    requires r < |run|
  {
    && |run[r].asOf| == |ms|
    && (forall j :: 0 <= j < |ms| ==> run[r].asOf[j] <= r < run[r].asOf[j] + k)
    && IsPick(Seen(ms, run, r), run[r].member)
  }

  ghost predicate Admits(ms: seq<Member>, k: nat, run: Run) {
    forall r :: 0 <= r < |run| ==> AdmitsAt(ms, k, run, r)
  }

  ghost function Load(ms: seq<Member>, run: Run, j: nat, r: nat): real
    requires j < |ms| && r <= |run|
  {
    Carries(ms[j], Count(run, j, r))
  }

  lemma CarriesMonotone(m: Member, a: int, b: int)
    requires m.cost > 0.0
    ensures a <= b ==> Carries(m, a) <= Carries(m, b)
    ensures Carries(m, a) < Carries(m, b) ==> a < b
  {
    if a <= b {
      assert m.cost * (b - a) as real >= 0.0;
      assert m.cost * (b - a) as real == m.cost * b as real - m.cost * a as real;
    }
    if a >= b {
      assert m.cost * (a - b) as real >= 0.0;
      assert m.cost * (a - b) as real == m.cost * a as real - m.cost * b as real;
    }
  }

  lemma CarriesAdd(m: Member, a: int, b: int)
    ensures Carries(m, a + b) == Carries(m, a) + Carries(m, b)
  {
    assert (a + b) as real == a as real + b as real;
  }

  lemma {:induction false} CountLag(run: Run, j: nat, a: nat, b: nat)
    requires a <= b <= |run|
    ensures Count(run, j, a) <= Count(run, j, b) <= Count(run, j, a) + (b - a)
  {
    if a < b {
      CountLag(run, j, a, b - 1);
    }
  }

  lemma LoadLag(ms: seq<Member>, run: Run, j: nat, a: nat, b: nat, k: nat)
    requires IdleRoute(ms) && j < |ms| && a <= b <= |run| && b <= a + k
    ensures Load(ms, run, j, a) <= Load(ms, run, j, b) <= Load(ms, run, j, a) + Carries(ms[j], k)
  {
    hide Carries;
    CountLag(run, j, a, b);
    CarriesMonotone(ms[j], Count(run, j, a), Count(run, j, b));
    CarriesMonotone(ms[j], Count(run, j, b), Count(run, j, a) + k);
    CarriesAdd(ms[j], Count(run, j, a), k);
  }

  lemma PickedAvailable(ms: seq<Member>, k: nat, run: Run, r: nat)
    requires Admits(ms, k, run) && r < |run|
    ensures run[r].member < |ms| && ms[run[r].member].Available()
  {
    assert AdmitsAt(ms, k, run, r);
  }

  /** The request saw its pick no heavier than any other available member. */
  lemma PickedSeenLight(ms: seq<Member>, k: nat, run: Run, r: nat, j: nat) returns (a: nat, b: nat)
    requires Admits(ms, k, run) && r < |run| && j < |ms| && ms[j].Available()
    ensures run[r].member < |ms| && ms[run[r].member].Available()
    ensures a <= r < a + k && b <= r
    ensures Load(ms, run, run[r].member, a) <= Load(ms, run, j, b)
  {
    hide Carries;
    assert AdmitsAt(ms, k, run, r);
    var s, p := Seen(ms, run, r), run[r].member;
    assert s[j].Available();
    a, b := run[r].asOf[p], run[r].asOf[j];
  }

  /** The admission that raised p saw it no heavier than any j, up to k counts ago. */
  lemma PickedWasLight(ms: seq<Member>, k: nat, run: Run, r: nat, j: nat)
    requires IdleRoute(ms) && Admits(ms, k, run) && r < |run| && j < |ms| && ms[j].Available()
    ensures run[r].member < |ms| && ms[run[r].member].Available()
    ensures Load(ms, run, run[r].member, r + 1) <= Load(ms, run, j, r) + Carries(ms[run[r].member], k)
  {
    var a, b := PickedSeenLight(ms, k, run, r, j);
    LoadLag(ms, run, run[r].member, a, r + 1, k);
    LoadLag(ms, run, j, b, r, r);
    hide *;
  }

  /** Spread: at every moment no member's in-flight cost exceeds another's by
      more than k of its own connections. */
  lemma {:induction false} SpreadBound(ms: seq<Member>, k: nat, run: Run, r: nat, i: nat, j: nat)
    requires IdleRoute(ms) && Admits(ms, k, run) && r <= |run|
    requires i < |ms| && j < |ms| && ms[i].Available() && ms[j].Available()
    ensures Load(ms, run, i, r) <= Load(ms, run, j, r) + Carries(ms[i], k)
  {
    hide Admits, Carries;
    if r > 0 {
      SpreadBound(ms, k, run, r - 1, i, j);
      LoadLag(ms, run, j, r - 1, r, 1);
      if run[r - 1].member == i {
        PickedWasLight(ms, k, run, r - 1, j);
      }
    } else {
      CarriesMonotone(ms[i], 0, k);
      CarriesAdd(ms[i], 0, 0);
      CarriesAdd(ms[j], 0, 0);
    }
  }

  lemma {:induction false} DarkStaysIdle(ms: seq<Member>, k: nat, run: Run, r: nat, j: nat)
    requires Admits(ms, k, run) && r <= |run| && j < |ms| && !ms[j].Available()
    ensures Count(run, j, r) == 0
  {
    if r > 0 {
      DarkStaysIdle(ms, k, run, r - 1, j);
      PickedAvailable(ms, k, run, r - 1);
    }
  }

  // ----- sums over the members -------------------------------------------------

  ghost function Sum(f: seq<real>): real {
    if f == [] then 0.0 else Sum(f[..|f| - 1]) + f[|f| - 1]
  }

  lemma {:induction false} SumLe(f: seq<real>, g: seq<real>)
    requires |f| == |g| && forall j :: 0 <= j < |f| ==> f[j] <= g[j]
    ensures Sum(f) <= Sum(g)
    ensures (exists j :: 0 <= j < |f| && f[j] < g[j]) ==> Sum(f) < Sum(g)
  {
    if f != [] {
      var n := |f| - 1;
      SumLe(f[..n], g[..n]);
      if j :| 0 <= j < |f| && f[j] < g[j] {
        assert j < n ==> f[..n][j] < g[..n][j];
      }
    }
  }

  lemma {:induction false} SumScale(a: real, f: seq<real>, h: seq<real>)
    requires |f| == |h| && forall j :: 0 <= j < |f| ==> h[j] == a * f[j]
    ensures Sum(h) == a * Sum(f)
  {
    if f != [] {
      var n := |f| - 1;
      SumScale(a, f[..n], h[..n]);
      assert a * Sum(f) == a * Sum(f[..n]) + a * f[n];
    }
  }

  lemma {:induction false} SumAdd(f: seq<real>, g: seq<real>, h: seq<real>)
    requires |f| == |g| == |h| && forall j :: 0 <= j < |f| ==> h[j] == f[j] + g[j]
    ensures Sum(h) == Sum(f) + Sum(g)
  {
    if f != [] {
      var n := |f| - 1;
      SumAdd(f[..n], g[..n], h[..n]);
    }
  }

  lemma {:induction false} SumUpdate(f: seq<real>, p: nat, x: real)
    requires p < |f|
    ensures Sum(f[p := x]) == Sum(f) - f[p] + x
  {
    var n := |f| - 1;
    if p < n {
      SumUpdate(f[..n], p, x);
      assert f[p := x][..n] == f[..n][p := x];
    } else {
      assert f[p := x][..n] == f[..n];
    }
  }

  lemma {:induction false} SumZero(f: seq<real>)
    requires forall j :: 0 <= j < |f| ==> f[j] == 0.0
    ensures Sum(f) == 0.0
  {
    if f != [] {
      SumZero(f[..|f| - 1]);
    }
  }

  ghost function Counts(ms: seq<Member>, run: Run, r: nat): (f: seq<real>)
    requires r <= |run|
    ensures |f| == |ms| && forall j :: 0 <= j < |ms| ==> f[j] == Count(run, j, r) as real
  {
    seq(|ms|, j requires 0 <= j < |ms| => Count(run, j, r) as real)
  }

  /** Nothing is admitted anywhere else: the members' counts add up to r. */
  lemma {:induction false} CountsAddUp(ms: seq<Member>, k: nat, run: Run, r: nat)
    requires Admits(ms, k, run) && r <= |run|
    ensures Sum(Counts(ms, run, r)) == r as real
  {
    if r == 0 {
      SumZero(Counts(ms, run, 0));
    } else {
      CountsAddUp(ms, k, run, r - 1);
      PickedAvailable(ms, k, run, r - 1);
      hide Admits;
      var p := run[r - 1].member;
      var f := Counts(ms, run, r - 1);
      SumUpdate(f, p, f[p] + 1.0);
      assert Counts(ms, run, r) == f[p := f[p] + 1.0];
    }
  }

  // ----- shares ------------------------------------------------------------------

  /** What a member's connections weigh in its share: 1/cost while it answers. */
  function Weight(m: Member): real {
    if m.Available() && m.cost > 0.0 then 1.0 / m.cost else 0.0
  }

  /** How many connections to m an in-flight cost of x pays for. */
  function PaidBy(x: real, m: Member): real {
    x * Weight(m)
  }

  ghost function Weights(ms: seq<Member>): (f: seq<real>)
    ensures |f| == |ms| && forall j :: 0 <= j < |ms| ==> f[j] == Weight(ms[j])
  {
    seq(|ms|, j requires 0 <= j < |ms| => Weight(ms[j]))
  }

  ghost function AllPaid(x: real, ms: seq<Member>): (f: seq<real>)
    ensures |f| == |ms| && forall j :: 0 <= j < |ms| ==> f[j] == PaidBy(x, ms[j])
  {
    seq(|ms|, j requires 0 <= j < |ms| => PaidBy(x, ms[j]))
  }

  ghost function OnePerAnswering(ms: seq<Member>, x: real): (f: seq<real>)
    ensures |f| == |ms| && forall j :: 0 <= j < |ms| ==> f[j] == (if ms[j].Available() then x else 0.0)
  {
    seq(|ms|, j requires 0 <= j < |ms| => if ms[j].Available() then x else 0.0)
  }

  /** How many members answer. */
  ghost function Answering(ms: seq<Member>): real {
    Sum(OnePerAnswering(ms, 1.0))
  }

  lemma PaidExactly(m: Member, n: int)
    requires m.cost > 0.0 && m.Available()
    ensures PaidBy(Carries(m, n), m) == n as real
  {
    assert m.cost * Weight(m) == 1.0;
    assert (m.cost * n as real) * Weight(m) == (m.cost * Weight(m)) * n as real;
  }

  lemma PaidMonotone(x: real, y: real, m: Member)
    requires x <= y
    ensures PaidBy(x, m) <= PaidBy(y, m)
  {
    assert Weight(m) >= 0.0 && (y - x) * Weight(m) >= 0.0;
    assert (y - x) * Weight(m) == y * Weight(m) - x * Weight(m);
  }

  lemma PaidAdd(x: real, y: real, m: Member)
    ensures PaidBy(x + y, m) == PaidBy(x, m) + PaidBy(y, m)
  {
  }

  function Times(x: real, y: real): real {
    x * y
  }

  lemma AllPaidTotal(x: real, ms: seq<Member>)
    ensures Sum(AllPaid(x, ms)) == Times(x, Sum(Weights(ms)))
  {
    SumScale(x, Weights(ms), AllPaid(x, ms));
  }

  /** Everyone else carries at least what i carries less k of its connections. */
  lemma OthersCarry(ms: seq<Member>, k: nat, run: Run, r: nat, i: nat, j: nat)
    requires IdleRoute(ms) && Admits(ms, k, run) && r <= |run|
    requires i < |ms| && ms[i].Available() && j < |ms|
    ensures Count(run, j, r) as real
            >= PaidBy(Carries(ms[i], Count(run, i, r) - k), ms[j]) + (if j == i then k as real else 0.0)
  {
    hide Admits, Carries, Count;
    if !ms[j].Available() {
      assert Weight(ms[j]) == 0.0;
    } else {
      hide PaidBy;
      var x := Carries(ms[i], Count(run, i, r) - k);
      if j == i {
        PaidExactly(ms[i], Count(run, i, r) - k);
      } else {
        SpreadBound(ms, k, run, r, i, j);
        CarriesAdd(ms[i], Count(run, i, r) - k, k);
        PaidMonotone(x, Load(ms, run, j, r), ms[j]);
        PaidExactly(ms[j], Count(run, j, r));
      }
    }
  }

  /** And at most what i carries plus k of their own. */
  lemma OthersCarryNoMore(ms: seq<Member>, k: nat, run: Run, r: nat, i: nat, j: nat)
    requires IdleRoute(ms) && Admits(ms, k, run) && r <= |run|
    requires i < |ms| && ms[i].Available() && j < |ms|
    ensures Count(run, j, r) as real
            <= PaidBy(Load(ms, run, i, r), ms[j]) + (if ms[j].Available() && j != i then k as real else 0.0)
  {
    hide Carries;
    if !ms[j].Available() {
      DarkStaysIdle(ms, k, run, r, j);
      assert Weight(ms[j]) == 0.0;
    } else {
      hide Admits, PaidBy, Count;
      if j == i {
        PaidExactly(ms[i], Count(run, i, r));
      } else {
        SpreadBound(ms, k, run, r, j, i);
        PaidMonotone(Load(ms, run, j, r), Load(ms, run, i, r) + Carries(ms[j], k), ms[j]);
        PaidAdd(Load(ms, run, i, r), Carries(ms[j], k), ms[j]);
        PaidExactly(ms[j], Count(run, j, r));
        PaidExactly(ms[j], k);
      }
    }
  }

  lemma WeightCounts(ms: seq<Member>, i: nat)
    requires IdleRoute(ms) && i < |ms| && ms[i].Available()
    ensures Sum(Weights(ms)) >= Weight(ms[i]) > 0.0 && ms[i].cost * Weight(ms[i]) == 1.0
  {
    var zero := seq(|ms|, j requires 0 <= j < |ms| => 0.0);
    SumZero(zero);
    SumUpdate(zero, i, Weight(ms[i]));
    SumLe(zero[i := Weight(ms[i])], Weights(ms));
  }

  /** What an in-flight cost of x pays for everywhere, and k more at i. */
  ghost function PaidAndMore(x: real, ms: seq<Member>, i: nat, k: nat): (f: seq<real>)
    requires i < |ms|
    ensures |f| == |ms|
  {
    AllPaid(x, ms)[i := AllPaid(x, ms)[i] + k as real]
  }

  lemma CountsAbove(ms: seq<Member>, k: nat, run: Run, i: nat)
    requires IdleRoute(ms) && Admits(ms, k, run) && i < |ms| && ms[i].Available()
    ensures forall j :: 0 <= j < |ms| ==>
      PaidAndMore(Carries(ms[i], Count(run, i, |run|) - k), ms, i, k)[j] <= Counts(ms, run, |run|)[j]
  {
    hide Admits, Carries, PaidBy, Count;
    forall j | 0 <= j < |ms|
      ensures PaidAndMore(Carries(ms[i], Count(run, i, |run|) - k), ms, i, k)[j] <= Counts(ms, run, |run|)[j]
    {
      OthersCarry(ms, k, run, |run|, i, j);
    }
  }

  lemma PaidAndMoreTotal(x: real, ms: seq<Member>, i: nat, k: nat)
    requires i < |ms|
    ensures Sum(PaidAndMore(x, ms, i, k)) == Times(x, Sum(Weights(ms))) + k as real
  {
    AllPaidTotal(x, ms);
    hide Times, PaidBy, Sum;
    SumUpdate(AllPaid(x, ms), i, AllPaid(x, ms)[i] + k as real);
  }

  lemma AtMostShare(ms: seq<Member>, k: nat, run: Run, i: nat)
    requires IdleRoute(ms) && Admits(ms, k, run) && i < |ms| && ms[i].Available()
    ensures Times(Carries(ms[i], Count(run, i, |run|) - k), Sum(Weights(ms))) <= |run| as real - k as real
  {
    hide *;
    CountsAbove(ms, k, run, i);
    CountsAddUp(ms, k, run, |run|);
    var x := Carries(ms[i], Count(run, i, |run|) - k);
    PaidAndMoreTotal(x, ms, i, k);
    SumLe(PaidAndMore(x, ms, i, k), Counts(ms, run, |run|));
  }

  /** What an in-flight cost of x pays for, and k more for everyone but i. */
  ghost function PaidAndOthers(x: real, ms: seq<Member>, i: nat, k: nat): (f: seq<real>)
    requires i < |ms|
    ensures |f| == |ms|
    ensures forall j :: 0 <= j < |ms| ==> f[j] == PaidBy(x, ms[j]) + (if ms[j].Available() && j != i then k as real else 0.0)
  {
    seq(|ms|, j requires 0 <= j < |ms| => PaidBy(x, ms[j]) + (if ms[j].Available() && j != i then k as real else 0.0))
  }

  lemma CountsBelow(ms: seq<Member>, k: nat, run: Run, i: nat)
    requires IdleRoute(ms) && Admits(ms, k, run) && i < |ms| && ms[i].Available()
    ensures forall j :: 0 <= j < |ms| ==> Counts(ms, run, |run|)[j] <= PaidAndOthers(Load(ms, run, i, |run|), ms, i, k)[j]
  {
    hide Admits, Carries, PaidBy, Count, Load;
    forall j | 0 <= j < |ms| ensures Counts(ms, run, |run|)[j] <= PaidAndOthers(Load(ms, run, i, |run|), ms, i, k)[j] {
      OthersCarryNoMore(ms, k, run, |run|, i, j);
    }
  }

  lemma PaidAndOthersTotal(x: real, ms: seq<Member>, i: nat, k: nat)
    requires i < |ms| && ms[i].Available()
    ensures Sum(PaidAndOthers(x, ms, i, k)) == Times(x, Sum(Weights(ms))) + Times(k as real, Answering(ms)) - k as real
  {
    var extra := OnePerAnswering(ms, k as real);
    SumScale(k as real, OnePerAnswering(ms, 1.0), extra);
    assert Sum(extra) == Times(k as real, Answering(ms));
    AllPaidTotal(x, ms);
    hide Times, PaidBy, Sum, Answering;
    SumUpdate(extra, i, 0.0);
    SumAdd(AllPaid(x, ms), extra[i := 0.0], PaidAndOthers(x, ms, i, k));
  }

  lemma AtLeastShare(ms: seq<Member>, k: nat, run: Run, i: nat)
    requires IdleRoute(ms) && Admits(ms, k, run) && i < |ms| && ms[i].Available()
    ensures |run| as real <= Times(Load(ms, run, i, |run|), Sum(Weights(ms))) + Times(k as real, Answering(ms)) - k as real
  {
    hide *;
    CountsBelow(ms, k, run, i);
    CountsAddUp(ms, k, run, |run|);
    PaidAndOthersTotal(Load(ms, run, i, |run|), ms, i, k);
    SumLe(Counts(ms, run, |run|), PaidAndOthers(Load(ms, run, i, |run|), ms, i, k));
  }

  /** c * w = 1 and (c * x) * W <= y give x <= y * (w / W). */
  lemma ShareArith(c: real, w: real, W: real, x: real, y: real)
    requires c > 0.0 && W > 0.0 && c * w == 1.0 && (c * x) * W <= y
    ensures x <= y * (w / W)
  {
    var s := w / W;
    assert s * W == w;
    assert w > 0.0 && s > 0.0;
    assert (y - (c * x) * W) * s >= 0.0;
    assert ((c * x) * W) * s == x * (c * (s * W));
  }

  lemma ShareArithNeg(c: real, w: real, W: real, x: real, y: real)
    requires c > 0.0 && W > 0.0 && c * w == 1.0 && y <= (c * x) * W
    ensures y * (w / W) <= x
  {
    assert (c * (0.0 - x)) * W == 0.0 - (c * x) * W;
    ShareArith(c, w, W, 0.0 - x, 0.0 - y);
    assert (0.0 - y) * (w / W) == 0.0 - y * (w / W);
  }

  /** i's share of the traffic: 1/cost_i over the sum of 1/cost_j of the members
      that answer. */
  ghost function Share(ms: seq<Member>, i: nat): real
    requires IdleRoute(ms) && i < |ms| && ms[i].Available()
  {
    WeightCounts(ms, i);
    Weight(ms[i]) / Sum(Weights(ms))
  }

  lemma FromAbove(m: Member, n: int, W: real, y: real)
    requires m.cost > 0.0 && m.Available() && W > 0.0 && Times(Carries(m, n), W) <= y
    ensures n as real <= Times(y, Weight(m) / W)
  {
    assert m.cost * Weight(m) == 1.0;
    ShareArith(m.cost, Weight(m), W, n as real, y);
  }

  lemma FromBelow(m: Member, n: int, W: real, y: real)
    requires m.cost > 0.0 && m.Available() && W > 0.0 && y <= Times(Carries(m, n), W)
    ensures Times(y, Weight(m) / W) <= n as real
  {
    assert m.cost * Weight(m) == 1.0;
    ShareArithNeg(m.cost, Weight(m), W, n as real, y);
  }

  /** Shares, from above: with N admitted, member i has at most
      (N - k) * share + k connections. For k = 1 that is below N * share + 1. */
  lemma ShareAtMost(ms: seq<Member>, k: nat, run: Run, i: nat)
    requires IdleRoute(ms) && Admits(ms, k, run) && i < |ms| && ms[i].Available()
    ensures Count(run, i, |run|) as real <= Times(|run| as real - k as real, Share(ms, i)) + k as real
  {
    WeightCounts(ms, i);
    AtMostShare(ms, k, run, i);
    hide Admits, Carries, Count, Sum, Weight, Times;
    FromAbove(ms[i], Count(run, i, |run|) - k, Sum(Weights(ms)), |run| as real - k as real);
  }

  /** And from below: at least (N - (m - 1) * k) * share, with m members answering. */
  lemma ShareAtLeast(ms: seq<Member>, k: nat, run: Run, i: nat)
    requires IdleRoute(ms) && Admits(ms, k, run) && i < |ms| && ms[i].Available()
    ensures Count(run, i, |run|) as real
            >= Times(|run| as real + k as real - Times(k as real, Answering(ms)), Share(ms, i))
  {
    WeightCounts(ms, i);
    AtLeastShare(ms, k, run, i);
    hide Admits, Carries, Count, Sum, Weight, Times, Answering;
    FromBelow(ms[i], Count(run, i, |run|), Sum(Weights(ms)), |run| as real + k as real - Times(k as real, Answering(ms)));
  }

  // ----- max-min optimality --------------------------------------------------------

  ghost predicate LeastLoad(ms: seq<Member>, counts: seq<nat>, l: real)
    requires |counts| == |ms|
  {
    && (exists j :: 0 <= j < |ms| && ms[j].Available() && Carries(ms[j], counts[j]) == l)
    && (forall j :: 0 <= j < |ms| && ms[j].Available() ==> l <= Carries(ms[j], counts[j]))
  }

  ghost function Final(ms: seq<Member>, run: Run): (c: seq<nat>)
    ensures |c| == |ms| && forall j :: 0 <= j < |ms| ==> c[j] == Count(run, j, |run|)
  {
    seq(|ms|, j requires 0 <= j < |ms| => Count(run, j, |run|))
  }

  function Reals(c: seq<nat>): (f: seq<real>)
    ensures |f| == |c| && forall j :: 0 <= j < |c| ==> f[j] == c[j] as real
  {
    seq(|c|, j requires 0 <= j < |c| => c[j] as real)
  }

  /** When requests are admitted one at a time, no other way to spread the same
      number of connections over the members that answer leaves the least loaded
      of them with more in-flight cost. */
  lemma MaxMinOptimal(ms: seq<Member>, run: Run, other: seq<nat>, l: real, l': real)
    requires IdleRoute(ms) && Admits(ms, 1, run)
    requires |other| == |ms| && forall j :: 0 <= j < |ms| && !ms[j].Available() ==> other[j] == 0
    requires Sum(Reals(other)) == |run| as real
    requires LeastLoad(ms, Final(ms, run), l) && LeastLoad(ms, other, l')
    ensures l' <= l
  {
    if l' > l {
      WouldNeedMore(ms, run, other, l, l');
    }
  }

  lemma BetterEverywhere(ms: seq<Member>, run: Run, other: seq<nat>, l: real, l': real, j: nat)
    requires IdleRoute(ms) && Admits(ms, 1, run) && j < |ms|
    requires |other| == |ms| && LeastLoad(ms, Final(ms, run), l) && LeastLoad(ms, other, l') && l < l'
    ensures Count(run, j, |run|) <= other[j]
  {
    hide Admits, Carries, Count;
    if ms[j].Available() {
      var n: int := Count(run, j, |run|);
      var low :| 0 <= low < |ms| && ms[low].Available() && Carries(ms[low], Final(ms, run)[low]) == l;
      SpreadBound(ms, 1, run, |run|, j, low);
      CarriesAdd(ms[j], n - 1, 1);
      CarriesMonotone(ms[j], n - 1, other[j]);
    } else {
      DarkStaysIdle(ms, 1, run, |run|, j);
    }
  }

  lemma WouldNeedMore(ms: seq<Member>, run: Run, other: seq<nat>, l: real, l': real)
    requires IdleRoute(ms) && Admits(ms, 1, run)
    requires |other| == |ms| && LeastLoad(ms, Final(ms, run), l) && LeastLoad(ms, other, l') && l < l'
    ensures Sum(Reals(other)) > |run| as real
  {
    hide Admits, Carries, Count, Sum;
    var low :| 0 <= low < |ms| && ms[low].Available() && Carries(ms[low], Final(ms, run)[low]) == l;
    CarriesMonotone(ms[low], Count(run, low, |run|), other[low]);
    forall j | 0 <= j < |ms| ensures Counts(ms, run, |run|)[j] <= Reals(other)[j] {
      BetterEverywhere(ms, run, other, l, l', j);
    }
    assert Counts(ms, run, |run|)[low] < Reals(other)[low];
    CountsAddUp(ms, 1, run, |run|);
    hide *;
    SumLe(Counts(ms, run, |run|), Reals(other));
  }
}
