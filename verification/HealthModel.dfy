/** One server's health as steps on a value: a probe round over its addresses, and
    an edit of the address list. A round's answers are a function of the address:
    the model list it reports, or nothing. */
module HealthModel {
  import opened Wrappers
  import opened Fleet

  type Answers = string -> Option<seq<string>>

  /** `strings.Join(addrs, ",")`. */
  function Join(addrs: seq<string>): string {
    if addrs == [] then ""
    else if |addrs| == 1 then addrs[0]
    else addrs[0] + "," + Join(addrs[1..])
  }

  function NewServer(addrs: seq<string>): ServerView {
    ServerView(false, 0, "", [], addrs)
  }

  /** An edited address list drops the election; anything else keeps it. */
  function EditStep(s: ServerView, addrs: seq<string>): ServerView {
    s.(addrs := addrs, active := if Join(s.addrs) != Join(addrs) then "" else s.active)
  }

  function Others(addrs: seq<string>, active: string): (r: seq<string>)
    ensures forall a :: a in r <==> a in addrs && a != active
  {
    if addrs == [] then []
    else
      var r := Others(addrs[..|addrs| - 1], active);
      var a := addrs[|addrs| - 1];
      if a != active then r + [a] else r
  }

  /** The active address first, then the others in list order. */
  function Candidates(s: ServerView): seq<string> {
    (if s.active != "" then [s.active] else []) + Others(s.addrs, s.active)
  }

  function FirstAnswering(candidates: seq<string>, answers: Answers): (r: Option<string>)
    ensures r.Some? ==> r.value in candidates && answers(r.value).Some?
    ensures r.None? ==> forall a :: a in candidates ==> answers(a).None?
  {
    if candidates == [] then None
    else if answers(candidates[0]).Some? then Some(candidates[0])
    else FirstAnswering(candidates[1..], answers)
  }

  function Elect(s: ServerView, answers: Answers): Option<string> {
    FirstAnswering(Candidates(s), answers)
  }

  function ProbeStep(s: ServerView, answers: Answers): ServerView {
    if s.addrs == [] then s
    else
      match Elect(s, answers)
      case Some(a) => s.(up := true, consecFail := 0, active := a, models := answers(a).value)
      case None => s.(active := "", consecFail := s.consecFail + 1, up := s.up && s.consecFail + 1 < 3)
  }

  // ----- what a probe reports -----------------------------------------------------------

  /** An entry of the list a server answers a probe with: its name field, by adapter, and
      its `model` field, where they are strings. */
  datatype Entry = Entry(name: Option<string>, model: Option<string>)

  function NameIn(e: Entry): Option<string> {
    if e.name.Some? && e.name.value != "" then e.name
    else if e.model.Some? && e.model.value != "" then e.model
    else None
  }

  /** Entries without a usable name are passed over, so no model is reported as "". */
  method ParseModels(entries: seq<Entry>) returns (models: seq<string>)
    ensures "" !in models && |models| <= |entries|
    ensures forall m :: m in models <==> exists i :: 0 <= i < |entries| && NameIn(entries[i]) == Some(m)
  {
    models := [];
    for i := 0 to |entries|
      invariant "" !in models && |models| <= i
      invariant forall m :: m in models <==> exists j :: 0 <= j < i && NameIn(entries[j]) == Some(m)
    {
      var e := entries[i];
      if e.name.Some? && e.name.value != "" {
        models := models + [e.name.value];
      } else if e.model.Some? && e.model.value != "" {
        models := models + [e.model.value];
      }
    }
  }

  /** Every address answers as ParseModels reads it. */
  ghost predicate Named(answers: Answers) {
    forall a :: answers(a).Some? ==> "" !in answers(a).value
  }

  lemma ProbeKeepsNamed(s: ServerView, answers: Answers)
    requires "" !in s.models && Named(answers)
    ensures "" !in ProbeStep(s, answers).models
  {
  }

  // ----- the election rule -----------------------------------------------------------

  lemma {:induction false} FirstAnsweringOthers(addrs: seq<string>, active: string, answers: Answers, i: nat)
    requires answers(active).None? || active !in addrs
    requires i < |addrs| && answers(addrs[i]).Some? && forall j :: 0 <= j < i ==> answers(addrs[j]).None?
    ensures FirstAnswering(Others(addrs, active), answers) == Some(addrs[i])
  {
    var n := |addrs| - 1;
    if i < n {
      FirstAnsweringOthers(addrs[..n], active, answers, i);
      FirstAnsweringPrefix(Others(addrs[..n], active), [addrs[n]], answers);
    } else {
      forall a | a in Others(addrs[..n], active) ensures answers(a).None? {
        assert a in addrs[..n];
      }
      FirstAnsweringNone(Others(addrs[..n], active), [addrs[n]], answers);
    }
  }

  lemma {:induction false} FirstAnsweringPrefix(a: seq<string>, b: seq<string>, answers: Answers)
    requires FirstAnswering(a, answers).Some?
    ensures FirstAnswering(a + b, answers) == FirstAnswering(a, answers)
  {
    assert (a + b)[0] == a[0];
    if answers(a[0]).None? {
      assert (a + b)[1..] == a[1..] + b;
      FirstAnsweringPrefix(a[1..], b, answers);
    }
  }

  lemma {:induction false} FirstAnsweringNone(a: seq<string>, b: seq<string>, answers: Answers)
    requires forall x :: x in a ==> answers(x).None?
    ensures FirstAnswering(a + b, answers) == FirstAnswering(b, answers)
  {
    if a == [] {
      assert a + b == b;
    } else {
      assert (a + b)[0] == a[0] && (a + b)[1..] == a[1..] + b;
      FirstAnsweringNone(a[1..], b, answers);
    }
  }

  /** Who is elected: the active address for as long as it answers, whatever comes
      before it in the list; else the first address of the list that answers. A
      round fails exactly when neither the active address nor any other answers. */
  lemma ElectionRule(s: ServerView, answers: Answers)
    ensures s.active != "" && answers(s.active).Some? ==> Elect(s, answers) == Some(s.active)
    ensures forall i ::
      && (s.active == "" || answers(s.active).None?) && (s.active != "" || "" !in s.addrs)
      && 0 <= i < |s.addrs| && answers(s.addrs[i]).Some? && (forall j :: 0 <= j < i ==> answers(s.addrs[j]).None?)
      ==> Elect(s, answers) == Some(s.addrs[i])
    ensures Elect(s, answers).None? <==>
      (s.active != "" ==> answers(s.active).None?) && forall a :: a in s.addrs && a != s.active ==> answers(a).None?
  {
    var head := if s.active != "" then [s.active] else [];
    forall i |
      && (s.active == "" || answers(s.active).None?) && (s.active != "" || "" !in s.addrs)
      && 0 <= i < |s.addrs| && answers(s.addrs[i]).Some? && (forall j :: 0 <= j < i ==> answers(s.addrs[j]).None?)
      ensures Elect(s, answers) == Some(s.addrs[i])
    {
      FirstAnsweringOthers(s.addrs, s.active, answers, i);
      FirstAnsweringNone(head, Others(s.addrs, s.active), answers);
    }
    assert s.active != "" ==> s.active in head && s.active in Candidates(s);
    assert forall a :: a in s.addrs && a != s.active ==> a in Others(s.addrs, s.active) && a in Candidates(s);
  }

  // ----- what counts as an address edit -------------------------------------------------

  /** `strings.Split(s, ",")`: what stands between the commas, never an empty list. */
  function Cut(s: string): (r: seq<string>)
    ensures r != []
  {
    if s == "" then [""]
    else
      var r := Cut(s[1..]);
      if s[0] == ',' then [""] + r else [[s[0]] + r[0]] + r[1..]
  }

  /** The addresses of a list, each cut at its commas. */
  function Pieces(addrs: seq<string>): seq<string> {
    if addrs == [] then [""]
    else if |addrs| == 1 then Cut(addrs[0])
    else Cut(addrs[0]) + Pieces(addrs[1..])
  }

  lemma {:induction false} CutGlued(x: string, y: string)
    ensures Cut(x + "," + y) == Cut(x) + Cut(y)
  {
    var s := x + "," + y;
    if x == "" {
      assert s[1..] == y;
    } else {
      assert s[1..] == x[1..] + "," + y;
      CutGlued(x[1..], y);
    }
  }

  lemma {:induction false} CutJoin(a: seq<string>)
    ensures Cut(Join(a)) == Pieces(a)
  {
    if |a| > 1 {
      CutJoin(a[1..]);
      CutGlued(a[0], Join(a[1..]));
    }
  }

  lemma {:induction false} JoinCut(s: string)
    ensures Join(Cut(s)) == s
  {
    if s != "" {
      JoinCut(s[1..]);
      var r := Cut(s[1..]);
      if s[0] == ',' {
        assert ([""] + r)[1..] == r;
      } else {
        assert ([[s[0]] + r[0]] + r[1..])[1..] == r[1..];
      }
    }
  }

  /** The comparison of joined lists is, for all lists, the comparison of their pieces. */
  lemma JoinsAgree(a: seq<string>, b: seq<string>)
    ensures Join(a) == Join(b) <==> Pieces(a) == Pieces(b)
  {
    CutJoin(a);
    CutJoin(b);
    JoinCut(Join(a));
    JoinCut(Join(b));
  }

  /** So an edit of the address list leaves the election standing if and only if the two
      lists have the same pieces, and drops it otherwise. */
  lemma EditMissed(s: ServerView, addrs: seq<string>)
    requires s.active != ""
    ensures EditStep(s, addrs).active == if Pieces(s.addrs) == Pieces(addrs) then s.active else ""
    ensures EditStep(s, addrs).addrs == addrs
  {
    JoinsAgree(s.addrs, addrs);
  }

  lemma {:induction false} CutPlain(s: string)
    requires ',' !in s
    ensures Cut(s) == [s]
  {
    if s != "" {
      assert s == [s[0]] + s[1..];
      CutPlain(s[1..]);
    }
  }

  lemma {:induction false} PiecesPlain(a: seq<string>)
    requires a != [] && forall x :: x in a ==> ',' !in x
    ensures Pieces(a) == a
  {
    CutPlain(a[0]);
    if |a| > 1 {
      PiecesPlain(a[1..]);
      assert a == [a[0]] + a[1..];
    }
  }

  /** Lists of addresses free of commas are their own pieces, so among them every edit of
      the list is seen. */
  lemma JoinInjective(a: seq<string>, b: seq<string>)
    requires a != [] && b != []
    requires forall x :: x in a || x in b ==> ',' !in x
    ensures Join(a) == Join(b) <==> a == b
  {
    JoinsAgree(a, b);
    PiecesPlain(a);
    PiecesPlain(b);
  }

  /** An edit that goes unseen: the two addresses of a server become one with a comma in
      it, and the first of them stays elected although the list no longer has it. */
  lemma CommaHidesEdit()
    ensures var s := EditStep(ServerView(true, 0, "a", [], ["a", "b"]), ["a,b"]);
      s.active == "a" && s.addrs == ["a,b"] && s.active !in s.addrs
  {
    assert Join(["a", "b"]) == "a" + "," + Join(["a", "b"][1..]);
    assert Join(["a,b"]) == "a,b";
  }

  // ----- traces -----------------------------------------------------------------------------

  datatype Event = Round(answers: Answers) | Edit(addrs: seq<string>)

  function Step(s: ServerView, e: Event): ServerView {
    match e
    case Round(answers) => ProbeStep(s, answers)
    case Edit(addrs) => EditStep(s, addrs)
  }

  ghost function Run(s: ServerView, tr: seq<Event>): ServerView {
    if tr == [] then s else Step(Run(s, tr[..|tr| - 1]), tr[|tr| - 1])
  }

  /** Event i is a round in which some address answered. */
  ghost predicate Answered(s: ServerView, tr: seq<Event>, i: nat)
    requires i < |tr|
  {
    var r := Run(s, tr[..i]);
    tr[i].Round? && r.addrs != [] && Elect(r, tr[i].answers).Some?
  }

  ghost predicate Failed(s: ServerView, tr: seq<Event>, i: nat)
    requires i < |tr|
  {
    var r := Run(s, tr[..i]);
    tr[i].Round? && r.addrs != [] && Elect(r, tr[i].answers).None?
  }

  /** Event i changes the (joined) address list. */
  ghost predicate Moved(s: ServerView, tr: seq<Event>, i: nat)
    requires i < |tr|
  {
    tr[i].Edit? && Join(Run(s, tr[..i]).addrs) != Join(tr[i].addrs)
  }

  ghost function FailuresAfter(s: ServerView, tr: seq<Event>, l: int): set<nat>
    requires -1 <= l < |tr|
  {
    set i: nat | i < |tr| && l < i && Failed(s, tr, i)
  }

  ghost predicate Unmoved(s: ServerView, tr: seq<Event>, l: int)
    requires -1 <= l < |tr|
  {
    forall i :: l < i < |tr| ==> !Moved(s, tr, i)
  }

  /** l is the last successful round, -1 if there was none. */
  ghost predicate LastSuccess(s: ServerView, tr: seq<Event>, l: int) {
    && -1 <= l < |tr|
    && (l >= 0 ==> Answered(s, tr, l))
    && (forall i :: l < i < |tr| ==> !Answered(s, tr, i))
  }

  ghost predicate RealAddresses(addrs: seq<string>, tr: seq<Event>) {
    "" !in addrs && forall i :: 0 <= i < |tr| && tr[i].Edit? ==> "" !in tr[i].addrs
  }

  lemma Prefixes(s: ServerView, tr: seq<Event>, i: nat)
    requires i + 1 < |tr|
    ensures var p := tr[..|tr| - 1];
      && Answered(s, tr, i) == Answered(s, p, i) && Failed(s, tr, i) == Failed(s, p, i)
      && Moved(s, tr, i) == Moved(s, p, i)
  {
    assert tr[..|tr| - 1][..i] == tr[..i];
  }

  lemma FailuresGrow(s: ServerView, tr: seq<Event>, l: int)
    requires tr != [] && -1 <= l < |tr| - 1
    ensures var n := |tr| - 1;
      FailuresAfter(s, tr, l) == FailuresAfter(s, tr[..n], l) + (if Failed(s, tr, n) then {n} else {})
    ensures |FailuresAfter(s, tr, l)| == |FailuresAfter(s, tr[..|tr| - 1], l)| + (if Failed(s, tr, |tr| - 1) then 1 else 0)
  {
    forall i: nat | i < |tr| - 1 ensures Failed(s, tr, i) == Failed(s, tr[..|tr| - 1], i) {
      Prefixes(s, tr, i);
    }
  }

  /** What the state says, in terms of the trace and its last successful round l. */
  ghost predicate Described(s0: ServerView, tr: seq<Event>, l: int)
    requires LastSuccess(s0, tr, l)
  {
    var s, fails := Run(s0, tr), |FailuresAfter(s0, tr, l)|;
    && s.consecFail == fails
    && (s.up <==> l >= 0 && fails < 3)
    && (s.active != "" <==> l >= 0 && fails == 0 && Unmoved(s0, tr, l))
    && (s.active != "" ==> Elect(Run(s0, tr[..l]), tr[l].answers) == Some(s.active))
    && s.models == (if l >= 0 then tr[l].answers(Elect(Run(s0, tr[..l]), tr[l].answers).value).value else [])
    && "" !in s.addrs
  }

  lemma SuccessDescribed(s0: ServerView, tr: seq<Event>)
    requires tr != [] && Answered(s0, tr, |tr| - 1) && "" !in Run(s0, tr[..|tr| - 1]).addrs
    ensures Described(s0, tr, |tr| - 1)
  {
    var n := |tr| - 1;
    var r := Run(s0, tr[..n]);
    var a := Elect(r, tr[n].answers).value;
    assert a in Candidates(r) && a != "";
    assert FailuresAfter(s0, tr, n) == {};
  }

  lemma UnmovedGrows(s: ServerView, tr: seq<Event>, l: int)
    requires tr != [] && -1 <= l < |tr| - 1
    ensures Unmoved(s, tr, l) <==> Unmoved(s, tr[..|tr| - 1], l) && !Moved(s, tr, |tr| - 1)
  {
    var p := tr[..|tr| - 1];
    hide Moved;
    if Unmoved(s, tr, l) {
      forall i | l < i < |p| ensures !Moved(s, p, i) {
        Prefixes(s, tr, i);
      }
    }
    if Unmoved(s, p, l) {
      forall i | l < i < |p| ensures !Moved(s, tr, i) {
        Prefixes(s, tr, i);
      }
    }
  }

  lemma NoSuccessStep(s: ServerView, e: Event)
    requires e.Round? && s.addrs != [] ==> Elect(s, e.answers).None?
    requires e.Edit? ==> "" !in e.addrs
    requires "" !in s.addrs
    ensures var failed := e.Round? && s.addrs != [];
      var moved := e.Edit? && Join(s.addrs) != Join(e.addrs);
      var r := Step(s, e);
      && r.consecFail == s.consecFail + (if failed then 1 else 0)
      && r.up == (s.up && (failed ==> s.consecFail + 1 < 3))
      && r.active == (if failed || moved then "" else s.active)
      && r.models == s.models && "" !in r.addrs
  {
    hide Join, Elect;
  }

  lemma OtherDescribed(s0: ServerView, tr: seq<Event>, l: int)
    requires tr != [] && RealAddresses(s0.addrs, tr) && LastSuccess(s0, tr, l) && l < |tr| - 1
    requires LastSuccess(s0, tr[..|tr| - 1], l) && Described(s0, tr[..|tr| - 1], l)
    ensures Described(s0, tr, l)
  {
    var n := |tr| - 1;
    hide Elect, Join, FailuresAfter, Unmoved, Step;
    FailuresGrow(s0, tr, l);
    UnmovedGrows(s0, tr, l);
    assert l >= 0 ==> tr[..l] == tr[..n][..l];
    assert !Answered(s0, tr, n);
    NoSuccessStep(Run(s0, tr[..n]), tr[n]);
    assert Run(s0, tr) == Step(Run(s0, tr[..n]), tr[n]);
    assert Failed(s0, tr, n) == (tr[n].Round? && Run(s0, tr[..n]).addrs != []);
    assert Moved(s0, tr, n) == (tr[n].Edit? && Join(Run(s0, tr[..n]).addrs) != Join(tr[n].addrs));
    hide Run, Moved, Failed, Answered, LastSuccess, RealAddresses;
  }

  /** Health over every sequence of probe rounds and edits, from a new server.
      With l the last successful round: consecFail counts the failed rounds since;
      up holds exactly when there was a success and fewer than three failures
      since; an address is active exactly when there was a success with no failure
      and no address edit since, and then it is the one elected by that round; the
      model list is the one that round reported, even once the server is down. */
  lemma {:induction false} HealthTrace(addrs: seq<string>, tr: seq<Event>, l: int)
    requires RealAddresses(addrs, tr) && LastSuccess(NewServer(addrs), tr, l)
    ensures Described(NewServer(addrs), tr, l)
  {
    var s0 := NewServer(addrs);
    if tr == [] {
      assert FailuresAfter(s0, tr, l) == {};
    } else {
      var n := |tr| - 1;
      forall i | 0 <= i < n ensures Answered(s0, tr, i) == Answered(s0, tr[..n], i) {
        Prefixes(s0, tr, i);
      }
      var l' := LastSuccessExists(s0, tr[..n]);
      HealthTrace(addrs, tr[..n], l');
      if l == n {
        SuccessDescribed(s0, tr);
      } else {
        assert l' == l;
        OtherDescribed(s0, tr, l);
      }
    }
  }

  lemma {:induction false} LastSuccessExists(s: ServerView, tr: seq<Event>) returns (l: int)
    ensures LastSuccess(s, tr, l)
  {
    if tr == [] {
      l := -1;
    } else {
      var n := |tr| - 1;
      l := LastSuccessExists(s, tr[..n]);
      hide Answered;
      forall i | 0 <= i < n ensures Answered(s, tr, i) == Answered(s, tr[..n], i) {
        Prefixes(s, tr, i);
      }
      if Answered(s, tr, n) {
        l := n;
      }
    }
  }
}
