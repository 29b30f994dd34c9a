/** The grouped usage summary: what the database sums per group and model, rolled up in
    one pass into groups, amounts and grand totals. */
module Summary {
  import opened Wrappers
  import opened ConfigTypes
  import Sorting
  import Strings
  import Rules
  import opened Names
  import opened PriceIndex

  datatype Row = Row(host: string, server: string, day: string, model: string,
                     tokensIn: int, tokensOut: int, cached: int, reasoning: int, estimated: bool)

  datatype GroupBy = ByModel | ByHost | ByServer | ByDay

  datatype Tally = Tally(requests: int, tokensIn: int, tokensOut: int, cached: int, reasoning: int, estimated: int, amount: real)

  const ZERO: Tally := Tally(0, 0, 0, 0, 0, 0, 0.0)

  function Plus(a: Tally, b: Tally): Tally {
    Tally(a.requests + b.requests, a.tokensIn + b.tokensIn, a.tokensOut + b.tokensOut, a.cached + b.cached,
          a.reasoning + b.reasoning, a.estimated + b.estimated, a.amount + b.amount)
  }

  ghost function SumOf<T>(s: seq<T>, f: T -> Tally): Tally {
    if s == [] then ZERO else Plus(SumOf(s[..|s| - 1], f), f(s[|s| - 1]))
  }

  /** A line of the query's answer: the key it is grouped by, and always the model. */
  datatype Pair = Pair(key: string, model: string)

  datatype Line = Line(pair: Pair, sums: Tally)

  function PairOf(g: GroupBy, r: Row): Pair {
    Pair(match g
         case ByModel => r.model
         case ByHost => r.host
         case ByServer => r.host + "/" + r.server
         case ByDay => r.day,
         r.model)
  }

  function Counts(r: Row): Tally {
    Tally(1, r.tokensIn, r.tokensOut, r.cached, r.reasoning, if r.estimated then 1 else 0, 0.0)
  }

  /** What a row of usage amounts to; nothing when no entry matches. */
  function AmountForRow(ix: Index, r: Row): Option<real> {
    var e := Lookup(ix, BaseModelOf(r.model));
    if e.Some? then Some(AmountTokens(r.tokensIn, r.tokensOut, r.cached, r.reasoning, e.value)) else None
  }

  function Amount(ix: Index, model: string, t: Tally): real {
    var e := Lookup(ix, BaseModelOf(model));
    if e.Some? then AmountTokens(t.tokensIn, t.tokensOut, t.cached, t.reasoning, e.value) else 0.0
  }

  function RowTally(ix: Index, r: Row): Tally {
    Counts(r).(amount := var a := AmountForRow(ix, r); if a.Some? then a.value else 0.0)
  }

  function LineTally(ix: Index, l: Line): Tally {
    l.sums.(amount := Amount(ix, l.pair.model, l.sums))
  }

  predicate Priced(ix: Index, model: string) {
    Lookup(ix, BaseModelOf(model)).Some?
  }

  /** The group a line goes to: by model, it is the price entry's name, so that aliases
      and originals share one group. */
  function FinalKey(ix: Index, g: GroupBy, p: Pair): string {
    if g != ByModel then p.key
    else
      var e := Lookup(ix, BaseModelOf(p.model));
      if e.Some? then e.value.model else BaseModelOf(p.model)
  }

  // ----- sums and their parts ----------------------------------------------------------------

  /** f where the projection is p, nothing elsewhere. */
  ghost function Where<T, K(!new)>(proj: T -> K, p: K, f: T -> Tally): T -> Tally {
    x => if proj(x) == p then f(x) else ZERO
  }

  ghost function PartSum<T, K(!new)>(s: seq<T>, proj: T -> K, f: T -> Tally): K -> Tally {
    p => SumOf(s, Where(proj, p, f))
  }

  lemma {:induction false} SumSame<T>(s: seq<T>, f: T -> Tally, h: T -> Tally)
    requires forall x :: x in s ==> f(x) == h(x)
    ensures SumOf(s, f) == SumOf(s, h)
  {
    if s != [] {
      SumSame(s[..|s| - 1], f, h);
    }
  }

  lemma {:induction false} SumPlus<T>(s: seq<T>, f: T -> Tally, a: T -> Tally, b: T -> Tally)
    requires forall x :: x in s ==> f(x) == Plus(a(x), b(x))
    ensures SumOf(s, f) == Plus(SumOf(s, a), SumOf(s, b))
  {
    if s != [] {
      SumPlus(s[..|s| - 1], f, a, b);
    }
  }

  lemma {:induction false} SumNothing<T>(s: seq<T>, f: T -> Tally)
    requires forall x :: x in s ==> f(x) == ZERO
    ensures SumOf(s, f) == ZERO
  {
    if s != [] {
      assert s[|s| - 1] in s;
      SumNothing(s[..|s| - 1], f);
    }
  }

  ghost predicate NoRepeats<K(!new)>(ks: seq<K>) {
    forall i, j :: 0 <= i < j < |ks| ==> ks[i] != ks[j]
  }

  lemma FrontAndLast<K(!new)>(ks: seq<K>, at: nat)
    requires at < |ks| && NoRepeats(ks)
    ensures NoRepeats(ks[..|ks| - 1]) && ks[|ks| - 1] !in ks[..|ks| - 1]
    ensures at < |ks| - 1 ==> ks[|ks| - 1] != ks[at] && ks[..|ks| - 1][at] == ks[at]
  {
  }

  lemma PlusZero(t: Tally)
    ensures Plus(t, ZERO) == t == Plus(ZERO, t)
  {
  }

  lemma {:induction false} SumOnce<K(!new)>(ks: seq<K>, f: K -> Tally, at: nat)
    requires at < |ks| && NoRepeats(ks)
    requires forall x :: x != ks[at] ==> f(x) == ZERO
    ensures SumOf(ks, f) == f(ks[at])
  {
    hide NoRepeats, Plus;
    var front, last := ks[..|ks| - 1], ks[|ks| - 1];
    FrontAndLast(ks, at);
    PlusZero(f(ks[at]));
    if at == |ks| - 1 {
      SumNothing(front, f);
    } else {
      SumOnce(front, f, at);
    }
  }

  /** Nothing is lost or counted twice: the parts, one for each key, sum up to the whole. */
  lemma {:induction false} PartsAddUp<T, K(!new)>(s: seq<T>, ks: seq<K>, proj: T -> K, f: T -> Tally)
    requires NoRepeats(ks)
    requires forall x :: x in s ==> proj(x) in ks
    ensures SumOf(ks, PartSum(s, proj, f)) == SumOf(s, f)
  {
    if s == [] {
      SumNothing(ks, PartSum(s, proj, f));
    } else {
      var n := |s| - 1;
      PartsAddUp(s[..n], ks, proj, f);
      var last := (k: K) => if proj(s[n]) == k then f(s[n]) else ZERO;
      SumPlus(ks, PartSum(s, proj, f), PartSum(s[..n], proj, f), last);
      var at :| 0 <= at < |ks| && ks[at] == proj(s[n]);
      SumOnce(ks, last, at);
    }
  }

  // ----- the query's answer ------------------------------------------------------------------

  function PairBy(g: GroupBy): Row -> Pair {
    (r: Row) => PairOf(g, r)
  }

  function KeyBy(ix: Index, g: GroupBy): Line -> string {
    (l: Line) => FinalKey(ix, g, l.pair)
  }

  function RowKeyBy(ix: Index, g: GroupBy): Row -> string {
    (r: Row) => FinalKey(ix, g, PairOf(g, r))
  }

  function LineBy(ix: Index): Line -> Tally {
    (l: Line) => LineTally(ix, l)
  }

  function RowBy(ix: Index): Row -> Tally {
    (r: Row) => RowTally(ix, r)
  }

  ghost function Pairs(lines: seq<Line>): (ps: seq<Pair>)
    ensures |ps| == |lines| && forall i :: 0 <= i < |ps| ==> ps[i] == lines[i].pair
  {
    seq(|lines|, i requires 0 <= i < |lines| => lines[i].pair)
  }

  /** One line for each pair of group key and model that occurs, with the sums over its rows. */
  ghost predicate IsAnswer(rows: seq<Row>, g: GroupBy, lines: seq<Line>) {
    && NoRepeats(Pairs(lines))
    && (forall r :: r in rows ==> PairOf(g, r) in Pairs(lines))
    && (forall i :: 0 <= i < |lines| ==> exists r :: r in rows && PairOf(g, r) == lines[i].pair)
    && (forall i :: 0 <= i < |lines| ==> lines[i].sums == SumOf(rows, Where(PairBy(g), lines[i].pair, Counts)))
  }

  // ----- amounts of sums and sums of amounts ---------------------------------------------------

  /** Input with its cached tokens, output with its reasoning tokens. */
  datatype Side = Input | Output {
    function Tokens(t: Tally): int {
      if Input? then t.tokensIn else t.tokensOut
    }

    function Part(t: Tally): int {
      if Input? then t.cached else t.reasoning
    }
  }

  ghost function SumsOf(rows: seq<Row>, g: GroupBy, p: Pair): Tally {
    SumOf(rows, Where(PairBy(g), p, Counts))
  }

  /** The plain tokens of the rows of a line, row by row; and how far parts exceed tokens. */
  ghost function Spared(rows: seq<Row>, g: GroupBy, p: Pair, s: Side): nat {
    if rows == [] then 0
    else
      var r := rows[|rows| - 1];
      Spared(rows[..|rows| - 1], g, p, s) + if PairOf(g, r) == p then Spare(s.Tokens(Counts(r)), s.Part(Counts(r))) else 0
  }

  ghost function Exceeded(rows: seq<Row>, g: GroupBy, p: Pair, s: Side): nat {
    if rows == [] then 0
    else
      var r := rows[|rows| - 1];
      Exceeded(rows[..|rows| - 1], g, p, s) + if PairOf(g, r) == p then Spare(s.Part(Counts(r)), s.Tokens(Counts(r))) else 0
  }

  /** The amounts of the rows of a line at one price entry. */
  ghost function RowsAmount(rows: seq<Row>, g: GroupBy, p: Pair, e: ModelPrice): real {
    if rows == [] then 0.0
    else
      var r := rows[|rows| - 1];
      RowsAmount(rows[..|rows| - 1], g, p, e)
      + if PairOf(g, r) == p then AmountTokens(r.tokensIn, r.tokensOut, r.cached, r.reasoning, e) else 0.0
  }

  /** No row of the line has more of the part than of the tokens while another has less:
      not of cached tokens and input, and not of reasoning tokens and output. */
  ghost predicate OneSided(rows: seq<Row>, g: GroupBy, p: Pair) {
    forall s: Side :: NoneOver(rows, g, p, s) || NoneUnder(rows, g, p, s)
  }

  ghost predicate NoneOver(rows: seq<Row>, g: GroupBy, p: Pair, s: Side) {
    forall i :: 0 <= i < |rows| && PairOf(g, rows[i]) == p ==> s.Part(Counts(rows[i])) <= s.Tokens(Counts(rows[i]))
  }

  ghost predicate NoneUnder(rows: seq<Row>, g: GroupBy, p: Pair, s: Side) {
    forall i :: 0 <= i < |rows| && PairOf(g, rows[i]) == p ==> s.Tokens(Counts(rows[i])) <= s.Part(Counts(rows[i]))
  }

  lemma NoneMore(rows: seq<Row>, g: GroupBy, p: Pair, s: Side)
    requires rows != []
    ensures var front, last := rows[..|rows| - 1], rows[|rows| - 1];
      && (NoneOver(rows, g, p, s) <==>
            NoneOver(front, g, p, s) && (PairOf(g, last) == p ==> s.Part(Counts(last)) <= s.Tokens(Counts(last))))
      && (NoneUnder(rows, g, p, s) <==>
            NoneUnder(front, g, p, s) && (PairOf(g, last) == p ==> s.Tokens(Counts(last)) <= s.Part(Counts(last))))
  {
    hide PairOf, Counts;
    assert forall i :: 0 <= i < |rows| - 1 ==> rows[..|rows| - 1][i] == rows[i];
  }

  lemma {:induction false} NothingOver(rows: seq<Row>, g: GroupBy, p: Pair, s: Side)
    ensures Exceeded(rows, g, p, s) == 0 <==> NoneOver(rows, g, p, s)
    ensures Spared(rows, g, p, s) == 0 <==> NoneUnder(rows, g, p, s)
  {
    if rows == [] {
      NoRows(g, p, s);
    } else {
      hide NoneOver, NoneUnder, PairOf, Counts, Side.Tokens, Side.Part;
      NothingOver(rows[..|rows| - 1], g, p, s);
      NoneMore(rows, g, p, s);
    }
  }

  lemma NoRows(g: GroupBy, p: Pair, s: Side)
    ensures NoneOver([], g, p, s) && NoneUnder([], g, p, s)
  {
  }

  lemma SumsMore(rows: seq<Row>, g: GroupBy, p: Pair)
    requires rows != []
    ensures SumsOf(rows, g, p) ==
      Plus(SumsOf(rows[..|rows| - 1], g, p), if PairOf(g, rows[|rows| - 1]) == p then Counts(rows[|rows| - 1]) else ZERO)
  {
  }

  /** Where the rows are that meet a condition. */
  ghost function Places(rows: seq<Row>, f: Row -> bool): set<nat> {
    set i: nat | i < |rows| && f(rows[i])
  }

  lemma PlacesMore(rows: seq<Row>, f: Row -> bool)
    requires rows != []
    ensures |Places(rows, f)| == |Places(rows[..|rows| - 1], f)| + if f(rows[|rows| - 1]) then 1 else 0
  {
    var n := |rows| - 1;
    var before := Places(rows[..n], f);
    forall i: nat ensures i in Places(rows, f) <==> i in before || (i == n && f(rows[n])) {
      assert i < n ==> rows[..n][i] == rows[i];
    }
    assert Places(rows, f) == before + if f(rows[n]) then {n} else {};
  }

  ghost function InLine(g: GroupBy, p: Pair): Row -> bool {
    (r: Row) => PairOf(g, r) == p
  }

  ghost function EstimatedIn(g: GroupBy, p: Pair): Row -> bool {
    (r: Row) => PairOf(g, r) == p && r.estimated
  }

  /** A line counts its rows, and among them those whose tokens were estimated. */
  lemma {:induction false} LineCountsRows(rows: seq<Row>, g: GroupBy, p: Pair)
    ensures SumsOf(rows, g, p).requests == |Places(rows, InLine(g, p))|
    ensures SumsOf(rows, g, p).estimated == |Places(rows, EstimatedIn(g, p))|
  {
    hide SumsOf, PairOf;
    if rows == [] {
      NoSums(g, p);
    } else {
      LineCountsRows(rows[..|rows| - 1], g, p);
      SumsMore(rows, g, p);
      PlacesMore(rows, InLine(g, p));
      PlacesMore(rows, EstimatedIn(g, p));
    }
  }

  lemma {:induction false} Balance(rows: seq<Row>, g: GroupBy, p: Pair, s: Side)
    ensures Spared(rows, g, p, s) - Exceeded(rows, g, p, s) == s.Tokens(SumsOf(rows, g, p)) - s.Part(SumsOf(rows, g, p))
  {
    if rows != [] {
      Balance(rows[..|rows| - 1], g, p, s);
      SumsMore(rows, g, p);
      hide SumsOf;
    }
  }

  /** What the sums take for parts beyond what the rows do. */
  ghost function Gap(rows: seq<Row>, g: GroupBy, p: Pair, s: Side): (gap: int)
    ensures gap >= 0
  {
    if Spared(rows, g, p, s) < Exceeded(rows, g, p, s) then Spared(rows, g, p, s) else Exceeded(rows, g, p, s)
  }

  lemma GapIs(rows: seq<Row>, g: GroupBy, p: Pair, s: Side)
    ensures Spare(s.Tokens(SumsOf(rows, g, p)), s.Part(SumsOf(rows, g, p))) == Spared(rows, g, p, s) - Gap(rows, g, p, s)
    ensures Gap(rows, g, p, s) == 0 <==> NoneOver(rows, g, p, s) || NoneUnder(rows, g, p, s)
  {
    hide Spared, Exceeded, SumsOf, NoneOver, NoneUnder;
    Balance(rows, g, p, s);
    NothingOver(rows, g, p, s);
  }

  lemma {:induction false} RowsBill(rows: seq<Row>, g: GroupBy, p: Pair, e: ModelPrice)
    requires e.input.Some? && e.output.Some?
    ensures var sums, si, so := SumsOf(rows, g, p), Spared(rows, g, p, Input), Spared(rows, g, p, Output);
      RowsAmount(rows, g, p, e) == Bill(si, sums.tokensIn - si, so, sums.tokensOut - so, e)
  {
    hide Bill, AmountTokens, SumsOf, PairOf, Spare;
    if rows == [] {
      NoBill(e);
      NoSums(g, p);
    } else {
      var n := |rows| - 1;
      var r := rows[n];
      RowsBill(rows[..n], g, p, e);
      SumsMore(rows, g, p);
      AmountIsBill(r.tokensIn, r.tokensOut, r.cached, r.reasoning, e);
      var sums, si, so := SumsOf(rows[..n], g, p), Spared(rows[..n], g, p, Input), Spared(rows[..n], g, p, Output);
      BillAdds(si, sums.tokensIn - si, so, sums.tokensOut - so, Spare(r.tokensIn, r.cached), r.tokensIn - Spare(r.tokensIn, r.cached),
               Spare(r.tokensOut, r.reasoning), r.tokensOut - Spare(r.tokensOut, r.reasoning), e);
    }
  }

  /** By how much the amounts of the rows of a line exceed the amount of their sums. */
  lemma LineGap(rows: seq<Row>, g: GroupBy, p: Pair, e: ModelPrice)
    requires e.input.Some? && e.output.Some?
    ensures var sums, gin, gout := SumsOf(rows, g, p), Gap(rows, g, p, Input), Gap(rows, g, p, Output);
      RowsAmount(rows, g, p, e)
      == AmountTokens(sums.tokensIn, sums.tokensOut, sums.cached, sums.reasoning, e) + Bill(gin, -gin, gout, -gout, e)
  {
    hide Bill, AmountTokens, SumsOf, Spared, Gap, RowsAmount, Spare;
    var sums := SumsOf(rows, g, p);
    var gin, gout := Gap(rows, g, p, Input), Gap(rows, g, p, Output);
    RowsBill(rows, g, p, e);
    GapIs(rows, g, p, Input);
    GapIs(rows, g, p, Output);
    AmountIsBill(sums.tokensIn, sums.tokensOut, sums.cached, sums.reasoning, e);
    var si, so := Spare(sums.tokensIn, sums.cached), Spare(sums.tokensOut, sums.reasoning);
    BillAdds(si, sums.tokensIn - si, so, sums.tokensOut - so, gin, -gin, gout, -gout, e);
  }

  lemma NoGap(rows: seq<Row>, g: GroupBy, p: Pair)
    ensures OneSided(rows, g, p) <==> Gap(rows, g, p, Input) == 0 && Gap(rows, g, p, Output) == 0
  {
    hide NoneOver, NoneUnder, Gap;
    GapIs(rows, g, p, Input);
    GapIs(rows, g, p, Output);
    if (NoneOver(rows, g, p, Input) || NoneUnder(rows, g, p, Input)) && (NoneOver(rows, g, p, Output) || NoneUnder(rows, g, p, Output)) {
      forall s: Side ensures NoneOver(rows, g, p, s) || NoneUnder(rows, g, p, s) {
        assert s == Input || s == Output;
      }
    }
  }

  /** The amount of a line, taken on its sums, is the sum of the amounts of its rows at
      every price if and only if the line is one-sided. */
  lemma LineAgreesIff(rows: seq<Row>, g: GroupBy, p: Pair)
    ensures var sums := SumsOf(rows, g, p);
      (forall e :: RowsAmount(rows, g, p, e) == AmountTokens(sums.tokensIn, sums.tokensOut, sums.cached, sums.reasoning, e))
      <==> OneSided(rows, g, p)
  {
    hide OneSided, Gap, AmountTokens, SumsOf;
    var sums := SumsOf(rows, g, p);
    NoGap(rows, g, p);
    if OneSided(rows, g, p) {
      forall e ensures RowsAmount(rows, g, p, e) == AmountTokens(sums.tokensIn, sums.tokensOut, sums.cached, sums.reasoning, e) {
        if e.input.Some? && e.output.Some? {
          LineGap(rows, g, p, e);
          NoBill(e);
        } else {
          NoPriceNoAmount(rows, g, p, e);
        }
      }
    } else {
      LineGap(rows, g, p, Telling(p.model));
      TellingBill(p.model, Gap(rows, g, p, Input), Gap(rows, g, p, Output));
    }
  }

  lemma {:induction false} NoPriceNoAmount(rows: seq<Row>, g: GroupBy, p: Pair, e: ModelPrice)
    requires e.input.None? || e.output.None?
    ensures RowsAmount(rows, g, p, e) == 0.0
    ensures forall t: Tally :: AmountTokens(t.tokensIn, t.tokensOut, t.cached, t.reasoning, e) == 0.0
  {
    if rows != [] {
      NoPriceNoAmount(rows[..|rows| - 1], g, p, e);
    }
  }

  /** Summing the rows of a line with their amounts sums their counts, and their amounts at
      the entry that prices the model, if one does. */
  lemma {:induction false} PricedSums(rows: seq<Row>, g: GroupBy, ix: Index, p: Pair)
    ensures SumOf(rows, Where(PairBy(g), p, RowBy(ix)))
         == SumsOf(rows, g, p).(amount :=
              var e := Lookup(ix, BaseModelOf(p.model)); if e.Some? then RowsAmount(rows, g, p, e.value) else 0.0)
    ensures SumsOf(rows, g, p).amount == 0.0
  {
    if rows != [] {
      var n := |rows| - 1;
      PricedSums(rows[..n], g, ix, p);
      SumsMore(rows, g, p);
      hide SumsOf, AmountTokens, BaseModelOf;
      assert PairOf(g, rows[n]) == p ==> rows[n].model == p.model;
    }
  }

  /** So the lines of an answer come to what their rows come to, one by one, whatever the
      prices, if and only if every one of them is one-sided. */
  ghost predicate AllOneSided(rows: seq<Row>, g: GroupBy) {
    forall p :: OneSided(rows, g, p)
  }

  lemma AmountOfSums(rows: seq<Row>, g: GroupBy, ix: Index, p: Pair)
    requires OneSided(rows, g, p)
    ensures SumsOf(rows, g, p).(amount := Amount(ix, p.model, SumsOf(rows, g, p))) == SumOf(rows, Where(PairBy(g), p, RowBy(ix)))
  {
    hide OneSided, SumsOf, SumOf, AmountTokens, RowsAmount, BaseModelOf;
    PricedSums(rows, g, ix, p);
    LineAgreesIff(rows, g, p);
  }

  /** Rows whose cached and reasoning tokens are part of their input and output are on one
      side in any grouping. */
  lemma PartsAreOneSided(rows: seq<Row>, g: GroupBy)
    requires forall i :: 0 <= i < |rows| ==> rows[i].cached <= rows[i].tokensIn && rows[i].reasoning <= rows[i].tokensOut
    ensures AllOneSided(rows, g)
  {
  }

  /** The lines by model take in those of any other grouping. */
  lemma ModelLinesAreWidest(rows: seq<Row>, g: GroupBy)
    requires AllOneSided(rows, ByModel)
    ensures AllOneSided(rows, g)
  {
    forall p ensures OneSided(rows, g, p) {
      assert OneSided(rows, ByModel, Pair(p.model, p.model));
      forall s: Side ensures NoneOver(rows, g, p, s) || NoneUnder(rows, g, p, s) {
        assert NoneOver(rows, ByModel, Pair(p.model, p.model), s) || NoneUnder(rows, ByModel, Pair(p.model, p.model), s);
      }
    }
  }

  lemma {:induction false} SumOverPairs(lines: seq<Line>, h: Line -> Tally, q: Pair -> Tally)
    requires forall i :: 0 <= i < |lines| ==> h(lines[i]) == q(lines[i].pair)
    ensures SumOf(lines, h) == SumOf(Pairs(lines), q)
  {
    if lines != [] {
      var n := |lines| - 1;
      SumOverPairs(lines[..n], h, q);
      assert Pairs(lines)[..n] == Pairs(lines[..n]);
    }
  }

  /** Summing lines that each sum their own rows is summing the rows. */
  lemma LinesToRows(rows: seq<Row>, g: GroupBy, lines: seq<Line>, f: Row -> Tally, h: Line -> Tally)
    requires NoRepeats(Pairs(lines)) && forall r :: r in rows ==> PairOf(g, r) in Pairs(lines)
    requires forall i :: 0 <= i < |lines| ==> h(lines[i]) == SumOf(rows, Where(PairBy(g), lines[i].pair, f))
    ensures SumOf(lines, h) == SumOf(rows, f)
  {
    hide SumOf, Where;
    SumOverPairs(lines, h, PartSum(rows, PairBy(g), f));
    PartsAddUp(rows, Pairs(lines), PairBy(g), f);
  }

  /** Each group's counts and amount are the sums over its rows, priced one by one. */
  lemma GroupIsItsRows(rows: seq<Row>, g: GroupBy, ix: Index, lines: seq<Line>, k: string)
    requires IsAnswer(rows, g, lines) && AllOneSided(rows, g)
    ensures SumOf(lines, Where(KeyBy(ix, g), k, LineBy(ix))) == SumOf(rows, Where(RowKeyBy(ix, g), k, RowBy(ix)))
  {
    hide SumOf, NoRepeats, FinalKey, Amount, RowTally, OneSided;
    var f, h := Where(RowKeyBy(ix, g), k, RowBy(ix)), Where(KeyBy(ix, g), k, LineBy(ix));
    forall i | 0 <= i < |lines| ensures h(lines[i]) == SumOf(rows, Where(PairBy(g), lines[i].pair, f)) {
      var p := lines[i].pair;
      if FinalKey(ix, g, p) == k {
        AmountOfSums(rows, g, ix, p);
        SumSame(rows, Where(PairBy(g), p, f), Where(PairBy(g), p, RowBy(ix)));
      } else {
        SumNothing(rows, Where(PairBy(g), p, f));
      }
    }
    LinesToRows(rows, g, lines, f, h);
  }

  /** So it is whenever the database holds only rows whose cached and reasoning tokens are
      part of their input and output. */
  lemma PartsSuffice(rows: seq<Row>, g: GroupBy, ix: Index, lines: seq<Line>, k: string)
    requires forall i :: 0 <= i < |rows| ==> rows[i].cached <= rows[i].tokensIn && rows[i].reasoning <= rows[i].tokensOut
    requires IsAnswer(rows, g, lines)
    ensures SumOf(lines, Where(KeyBy(ix, g), k, LineBy(ix))) == SumOf(rows, Where(RowKeyBy(ix, g), k, RowBy(ix)))
    ensures SumOf(lines, LineBy(ix)) == SumOf(rows, RowBy(ix))
  {
    hide SumOf, IsAnswer, AllOneSided;
    PartsAreOneSided(rows, g);
    GroupIsItsRows(rows, g, ix, lines, k);
    GrandIsAllRows(rows, g, ix, lines);
  }

  /** The grand sums are the sums over all rows, so they do not depend on the grouping. */
  lemma GrandIsAllRows(rows: seq<Row>, g: GroupBy, ix: Index, lines: seq<Line>)
    requires IsAnswer(rows, g, lines) && AllOneSided(rows, g)
    ensures SumOf(lines, LineBy(ix)) == SumOf(rows, RowBy(ix))
  {
    hide SumOf, NoRepeats, FinalKey, Amount, RowTally, OneSided, Where;
    forall i | 0 <= i < |lines| ensures LineBy(ix)(lines[i]) == SumOf(rows, Where(PairBy(g), lines[i].pair, RowBy(ix))) {
      AmountOfSums(rows, g, ix, lines[i].pair);
    }
    LinesToRows(rows, g, lines, RowBy(ix), LineBy(ix));
  }

  lemma SameGrandTotal(rows: seq<Row>, g1: GroupBy, g2: GroupBy, ix: Index, lines1: seq<Line>, lines2: seq<Line>)
    requires IsAnswer(rows, g1, lines1) && IsAnswer(rows, g2, lines2) && AllOneSided(rows, ByModel)
    ensures SumOf(lines1, LineBy(ix)) == SumOf(lines2, LineBy(ix))
  {
    hide SumOf, IsAnswer, AllOneSided;
    ModelLinesAreWidest(rows, g1);
    ModelLinesAreWidest(rows, g2);
    GrandIsAllRows(rows, g1, ix, lines1);
    GrandIsAllRows(rows, g2, ix, lines2);
  }

  /** What a line falls short of its rows by. */
  ghost function ShortBy(rows: seq<Row>, g: GroupBy, ix: Index): Line -> Tally {
    (l: Line) => ZERO.(amount := SumOf(rows, Where(PairBy(g), l.pair, RowBy(ix))).amount - LineTally(ix, l).amount)
  }

  ghost function RowsOf(rows: seq<Row>, g: GroupBy, ix: Index): Line -> Tally {
    (l: Line) => SumOf(rows, Where(PairBy(g), l.pair, RowBy(ix)))
  }

  /** A line of an answer has the counts of its rows, and its amount is short by its gaps. */
  lemma LineIsShort(rows: seq<Row>, g: GroupBy, ix: Index, lines: seq<Line>, i: nat)
    requires IsAnswer(rows, g, lines) && i < |lines|
    ensures RowsOf(rows, g, ix)(lines[i]) == Plus(LineTally(ix, lines[i]), ShortBy(rows, g, ix)(lines[i]))
    ensures var e := Lookup(ix, BaseModelOf(lines[i].pair.model));
      && (e.None? ==> ShortBy(rows, g, ix)(lines[i]).amount == 0.0)
      && (e == Some(Telling(BaseModelOf(lines[i].pair.model))) ==>
            ShortBy(rows, g, ix)(lines[i]).amount == (Gap(rows, g, lines[i].pair, Input) + Gap(rows, g, lines[i].pair, Output)) as real)
  {
    hide SumOf, AmountTokens, RowsAmount, Gap, Bill, BaseModelOf;
    var p := lines[i].pair;
    PricedSums(rows, g, ix, p);
    var name := BaseModelOf(p.model);
    if Lookup(ix, name) == Some(Telling(name)) {
      LineGap(rows, g, p, Telling(name));
      TellingBill(name, Gap(rows, g, p, Input), Gap(rows, g, p, Output));
    }
  }

  lemma {:induction false} SumSigns<T>(s: seq<T>, f: T -> Tally)
    requires forall i :: 0 <= i < |s| ==> f(s[i]).amount >= 0.0
    ensures SumOf(s, f).amount >= 0.0
    ensures SumOf(s, f).amount == 0.0 ==> forall i :: 0 <= i < |s| ==> f(s[i]).amount == 0.0
  {
    if s != [] {
      var n := |s| - 1;
      assert forall i :: 0 <= i < n ==> s[..n][i] == s[i];
      SumSigns(s[..n], f);
    }
  }

  /** The grand sums are the sums over the rows, with any price list. */
  ghost predicate GrandAgrees(rows: seq<Row>, lines: seq<Line>) {
    forall models, ix :: IsIndex(models, ix) ==> SumOf(lines, LineBy(ix)) == SumOf(rows, RowBy(ix))
  }

  /** The grand amount is what all rows amount to one by one, whatever the price list, if
      and only if every line of the answer is one-sided. */
  lemma GrandAgreesIff(rows: seq<Row>, g: GroupBy, lines: seq<Line>)
    requires IsAnswer(rows, g, lines)
    ensures GrandAgrees(rows, lines) <==> AllOneSided(rows, g)
  {
    hide SumOf, IsAnswer, OneSided, LineTally, RowTally, Where, IsIndex, TellingIndex, BaseModelOf;
    if AllOneSided(rows, g) {
      forall models, ix | IsIndex(models, ix) ensures SumOf(lines, LineBy(ix)) == SumOf(rows, RowBy(ix)) {
        GrandIsAllRows(rows, g, ix, lines);
      }
    }
    if GrandAgrees(rows, lines) {
      forall p ensures OneSided(rows, g, p) {
        if !OneSided(rows, g, p) {
          assert IsIndex([Telling(BaseModelOf(p.model))], TellingIndex(BaseModelOf(p.model)));
          TellingShows(rows, g, lines, p);
          assert false;
        }
      }
    }
  }

  /** At the telling price a line is short by its gaps, if it is that price's line at all. */
  lemma TellingShort(rows: seq<Row>, g: GroupBy, lines: seq<Line>, name: string, i: nat)
    requires IsAnswer(rows, g, lines) && i < |lines|
    ensures var short, base := ShortBy(rows, g, TellingIndex(name))(lines[i]).amount, BaseModelOf(lines[i].pair.model);
      && short >= 0.0
      && (base == name && (Gap(rows, g, lines[i].pair, Input) > 0 || Gap(rows, g, lines[i].pair, Output) > 0) ==> short > 0.0)
  {
    hide ShortBy, RowsOf, LineTally, BaseModelOf, Gap, IsAnswer;
    LineIsShort(rows, g, TellingIndex(name), lines, i);
  }

  /** Where a line is not one-sided, the telling price alone shows it in the grand amount. */
  lemma TellingShows(rows: seq<Row>, g: GroupBy, lines: seq<Line>, p: Pair)
    requires IsAnswer(rows, g, lines) && !OneSided(rows, g, p)
    ensures var ix := TellingIndex(BaseModelOf(p.model));
      SumOf(lines, LineBy(ix)).amount < SumOf(rows, RowBy(ix)).amount
  {
    hide SumOf, OneSided, LineTally, RowTally, Gap, BaseModelOf, ShortBy, RowsOf, IsAnswer, TellingIndex, IsIndex;
    var ix := TellingIndex(BaseModelOf(p.model));
    var at := LineOf(rows, g, lines, p);
    NoGap(rows, g, p);
    forall i | 0 <= i < |lines| ensures RowsOf(rows, g, ix)(lines[i]) == Plus(LineBy(ix)(lines[i]), ShortBy(rows, g, ix)(lines[i]))
                                  && ShortBy(rows, g, ix)(lines[i]).amount >= 0.0 {
      LineIsShort(rows, g, ix, lines, i);
      TellingShort(rows, g, lines, BaseModelOf(p.model), i);
    }
    TellingShort(rows, g, lines, BaseModelOf(p.model), at);
    SumPlus(lines, RowsOf(rows, g, ix), LineBy(ix), ShortBy(rows, g, ix));
    RowsOfLines(rows, g, ix, lines);
    SumSigns(lines, ShortBy(rows, g, ix));
  }

  lemma RowsOfLines(rows: seq<Row>, g: GroupBy, ix: Index, lines: seq<Line>)
    requires IsAnswer(rows, g, lines)
    ensures SumOf(lines, RowsOf(rows, g, ix)) == SumOf(rows, RowBy(ix))
  {
    hide SumOf, NoRepeats, RowTally, Where;
    LinesToRows(rows, g, lines, RowBy(ix), RowsOf(rows, g, ix));
  }

  /** A line that is not one-sided has rows, and so a place in the answer. */
  lemma LineOf(rows: seq<Row>, g: GroupBy, lines: seq<Line>, p: Pair) returns (at: nat)
    requires IsAnswer(rows, g, lines) && !OneSided(rows, g, p)
    ensures at < |lines| && lines[at].pair == p
  {
    hide SumOf, NoRepeats;
    var s: Side :| !(NoneOver(rows, g, p, s) || NoneUnder(rows, g, p, s));
    var i :| 0 <= i < |rows| && PairOf(g, rows[i]) == p;
    assert rows[i] in rows && p in Pairs(lines);
    at :| 0 <= at < |Pairs(lines)| && Pairs(lines)[at] == p;
  }

  // Two rows alike but for their tokens: one with a cached token and no input, one with an
  // input token and none cached. The database sums them to one token, and that cached.

  function CachedOnly(r: Row): Row {
    r.(tokensIn := 0, tokensOut := 0, cached := 1, reasoning := 0)
  }

  function InputOnly(r: Row): Row {
    r.(tokensIn := 1, tokensOut := 0, cached := 0, reasoning := 0)
  }

  function Both(g: GroupBy, r: Row): Line {
    Line(PairOf(g, r), Plus(Plus(ZERO, Counts(CachedOnly(r))), Counts(InputOnly(r))))
  }

  lemma NoSums(g: GroupBy, p: Pair)
    ensures SumsOf([], g, p) == ZERO
  {
  }

  lemma SumsOfTwo(a: Row, b: Row, g: GroupBy, p: Pair)
    requires PairOf(g, a) == p && PairOf(g, b) == p
    ensures SumsOf([a, b], g, p) == Plus(Plus(ZERO, Counts(a)), Counts(b))
  {
    hide SumsOf, Plus, Counts, PairOf;
    SumsMore([a, b], g, p);
    assert [a, b][..1] == [a];
    SumsMore([a], g, p);
    assert [a][..0] == [];
    NoSums(g, p);
  }

  lemma TheirPair(g: GroupBy, r: Row)
    ensures PairOf(g, CachedOnly(r)) == PairOf(g, r) == PairOf(g, InputOnly(r))
  {
  }

  lemma BothIsTheirAnswer(g: GroupBy, r: Row)
    ensures IsAnswer([CachedOnly(r), InputOnly(r)], g, [Both(g, r)])
  {
    hide SumsOf, SumOf, IsAnswer, Where, Plus, Counts, PairOf, CachedOnly, InputOnly;
    TheirPair(g, r);
    SumsOfTwo(CachedOnly(r), InputOnly(r), g, PairOf(g, r));
    OneLineAnswers([CachedOnly(r), InputOnly(r)], g, Both(g, r));
  }

  lemma OneLineAnswers(rows: seq<Row>, g: GroupBy, line: Line)
    requires rows != [] && (forall r :: r in rows ==> PairOf(g, r) == line.pair)
    requires line.sums == SumsOf(rows, g, line.pair)
    ensures IsAnswer(rows, g, [line])
  {
    hide SumOf, Where, PairBy;
    var lines := [line];
    assert lines[0] == line && Pairs(lines)[0] == line.pair && rows[0] in rows;
    assert line.pair in Pairs(lines);
    forall i | 0 <= i < |lines| ensures exists r :: r in rows && PairOf(g, r) == lines[i].pair {
      assert PairOf(g, rows[0]) == lines[i].pair;
    }
  }

  /** At the telling price the group is free, though one of its rows is not. */
  lemma PartsMatter(g: GroupBy, r: Row)
    ensures var rows, line := [CachedOnly(r), InputOnly(r)], Both(g, r);
      var ix := TellingIndex(BaseModelOf(line.pair.model));
      && IsAnswer(rows, g, [line]) && !OneSided(rows, g, line.pair)
      && SumOf([line], LineBy(ix)).amount < SumOf(rows, RowBy(ix)).amount
  {
    hide SumOf, BaseModelOf, IsAnswer, Plus, PairOf;
    var rows, line := [CachedOnly(r), InputOnly(r)], Both(g, r);
    BothIsTheirAnswer(g, r);
    TheirPair(g, r);
    assert rows[0] == CachedOnly(r) && rows[1] == InputOnly(r);
    assert !NoneOver(rows, g, line.pair, Input) && !NoneUnder(rows, g, line.pair, Input);
    TellingShows(rows, g, [line], line.pair);
  }

  // ----- the one pass over the answer ------------------------------------------------------------

  datatype Group = Group(tally: Tally, priced: bool, noPrice: bool, members: set<string>)

  datatype Listed = Listed(key: string, members: seq<string>, tally: Tally, priced: bool, noPrice: bool)

  datatype Report = Report(groups: seq<Listed>, grandAmount: real, grandPriced: bool, grandNoPrice: bool, noPriceNames: seq<string>)

  const NO_GROUP: Group := Group(ZERO, false, false, {})

  function AddLine(ix: Index, l: Line, o: Group): Group {
    Group(Plus(o.tally, LineTally(ix, l)), o.priced || Priced(ix, l.pair.model), o.noPrice || !Priced(ix, l.pair.model),
          o.members + {l.pair.model})
  }

  ghost predicate SomeLine(lines: seq<Line>, p: Line -> bool) {
    exists i :: 0 <= i < |lines| && p(lines[i])
  }

  ghost function InGroup(ix: Index, g: GroupBy, k: string): Line -> bool {
    (l: Line) => FinalKey(ix, g, l.pair) == k
  }

  ghost function InPricedGroup(ix: Index, g: GroupBy, k: string, priced: bool): Line -> bool {
    (l: Line) => FinalKey(ix, g, l.pair) == k && Priced(ix, l.pair.model) == priced
  }

  ghost function InGroupAs(ix: Index, g: GroupBy, k: string, model: string): Line -> bool {
    (l: Line) => FinalKey(ix, g, l.pair) == k && l.pair.model == model
  }

  ghost function Unpriced(ix: Index, base: string): Line -> bool {
    (l: Line) => !Priced(ix, l.pair.model) && BaseModelOf(l.pair.model) == base
  }

  ghost function IsPriced(ix: Index, priced: bool): Line -> bool {
    (l: Line) => Priced(ix, l.pair.model) == priced
  }

  /** The group k of the lines: their sums, whether some of them are priced and some are
      not, and the published ids behind it. */
  ghost predicate IsGroup(ix: Index, g: GroupBy, lines: seq<Line>, k: string, o: Group) {
    && o.tally == SumOf(lines, Where(KeyBy(ix, g), k, LineBy(ix)))
    && (o.priced <==> SomeLine(lines, InPricedGroup(ix, g, k, true)))
    && (o.noPrice <==> SomeLine(lines, InPricedGroup(ix, g, k, false)))
    && forall m :: m in o.members <==> SomeLine(lines, InGroupAs(ix, g, k, m))
  }

  lemma SomeLineMore(lines: seq<Line>, l: Line, p: Line -> bool)
    ensures SomeLine(lines + [l], p) <==> SomeLine(lines, p) || p(l)
  {
    var all := lines + [l];
    assert all[|lines|] == l && forall i :: 0 <= i < |lines| ==> all[i] == lines[i];
  }

  lemma SumMore(lines: seq<Line>, l: Line, f: Line -> Tally)
    ensures SumOf(lines + [l], f) == Plus(SumOf(lines, f), f(l))
  {
    assert (lines + [l])[..|lines|] == lines;
  }

  lemma GroupMore(ix: Index, g: GroupBy, lines: seq<Line>, l: Line, k: string, o: Group)
    requires IsGroup(ix, g, lines, k, o)
    ensures IsGroup(ix, g, lines + [l], k, if FinalKey(ix, g, l.pair) == k then AddLine(ix, l, o) else o)
  {
    hide SumOf, SomeLine, FinalKey, Priced, LineTally;
    SumMore(lines, l, Where(KeyBy(ix, g), k, LineBy(ix)));
    SomeLineMore(lines, l, InPricedGroup(ix, g, k, true));
    SomeLineMore(lines, l, InPricedGroup(ix, g, k, false));
    forall m ensures SomeLine(lines + [l], InGroupAs(ix, g, k, m)) <==> SomeLine(lines, InGroupAs(ix, g, k, m)) || InGroupAs(ix, g, k, m)(l) {
      SomeLineMore(lines, l, InGroupAs(ix, g, k, m));
    }
  }

  lemma NoLines(ix: Index, g: GroupBy, k: string)
    ensures IsGroup(ix, g, [], k, NO_GROUP)
  {
  }

  function GroupAt(byGroup: map<string, Group>, k: string): Group {
    if k in byGroup then byGroup[k] else NO_GROUP
  }

  ghost predicate GroupsSoFar(ix: Index, g: GroupBy, lines: seq<Line>, byGroup: map<string, Group>) {
    && (forall k :: IsGroup(ix, g, lines, k, GroupAt(byGroup, k)))
    && (forall k :: k in byGroup <==> SomeLine(lines, InGroup(ix, g, k)))
  }

  lemma GroupsMore(ix: Index, g: GroupBy, lines: seq<Line>, l: Line, byGroup: map<string, Group>)
    requires GroupsSoFar(ix, g, lines, byGroup)
    ensures var k := FinalKey(ix, g, l.pair);
      GroupsSoFar(ix, g, lines + [l], byGroup[k := AddLine(ix, l, GroupAt(byGroup, k))])
  {
    hide IsGroup, SomeLine, FinalKey, AddLine;
    var key := FinalKey(ix, g, l.pair);
    var after := byGroup[key := AddLine(ix, l, GroupAt(byGroup, key))];
    forall k ensures IsGroup(ix, g, lines + [l], k, GroupAt(after, k)) && (k in after <==> SomeLine(lines + [l], InGroup(ix, g, k))) {
      GroupMore(ix, g, lines, l, k, GroupAt(byGroup, k));
      SomeLineMore(lines, l, InGroup(ix, g, k));
    }
  }

  ghost predicate GrandSoFar(ix: Index, lines: seq<Line>, amount: real, priced: bool, noPrice: bool, names: set<string>) {
    && amount == SumOf(lines, LineBy(ix)).amount
    && (priced <==> SomeLine(lines, IsPriced(ix, true)))
    && (noPrice <==> SomeLine(lines, IsPriced(ix, false)))
    && forall b :: b in names <==> SomeLine(lines, Unpriced(ix, b))
  }

  lemma GrandMore(ix: Index, lines: seq<Line>, l: Line, amount: real, priced: bool, noPrice: bool, names: set<string>)
    requires GrandSoFar(ix, lines, amount, priced, noPrice, names)
    ensures var p := Priced(ix, l.pair.model);
      GrandSoFar(ix, lines + [l], if p then amount + Amount(ix, l.pair.model, l.sums) else amount, priced || p, noPrice || !p,
                 if p then names else names + {BaseModelOf(l.pair.model)})
  {
    hide SumOf, SomeLine, BaseModelOf, AmountTokens;
    SumMore(lines, l, LineBy(ix));
    SomeLineMore(lines, l, IsPriced(ix, true));
    SomeLineMore(lines, l, IsPriced(ix, false));
    forall b ensures SomeLine(lines + [l], Unpriced(ix, b)) <==> SomeLine(lines, Unpriced(ix, b)) || Unpriced(ix, b)(l) {
      SomeLineMore(lines, l, Unpriced(ix, b));
    }
  }

  ghost predicate ListsGroup(ix: Index, g: GroupBy, lines: seq<Line>, e: Listed) {
    exists members :: Sorting.Lists(e.members, members) && IsGroup(ix, g, lines, e.key, Group(e.tally, e.priced, e.noPrice, members))
  }

  ghost predicate KeysOf(groups: seq<Listed>, keys: seq<string>) {
    |groups| == |keys| && forall i :: 0 <= i < |groups| ==> groups[i].key == keys[i]
  }

  /** The groups in order of their keys, each with what its lines come to; and the grand
      totals over all lines. */
  method Summarise(ix: Index, g: GroupBy, lines: seq<Line>) returns (rep: Report, ghost keys: seq<string>)
    ensures KeysOf(rep.groups, keys) && Sorting.StrictlySorted(keys)
    ensures forall k :: k in keys <==> SomeLine(lines, InGroup(ix, g, k))
    ensures forall i :: 0 <= i < |rep.groups| ==> ListsGroup(ix, g, lines, rep.groups[i])
    ensures exists names :: Sorting.Lists(rep.noPriceNames, names)
                         && GrandSoFar(ix, lines, rep.grandAmount, rep.grandPriced, rep.grandNoPrice, names)
  {
    hide SumOf, IsGroup, GroupsSoFar, GrandSoFar, SomeLine, FinalKey, BaseModelOf, AmountTokens, ListsGroup;
    var byGroup: map<string, Group> := map[];
    var amount, priced, noPrice, names := 0.0, false, false, {};
    NothingYet(ix, g);
    for i := 0 to |lines|
      invariant GroupsSoFar(ix, g, lines[..i], byGroup)
      invariant GrandSoFar(ix, lines[..i], amount, priced, noPrice, names)
    {
      assert lines[..i + 1] == lines[..i] + [lines[i]];
      GroupsMore(ix, g, lines[..i], lines[i], byGroup);
      GrandMore(ix, lines[..i], lines[i], amount, priced, noPrice, names);
      var l := lines[i];
      if Priced(ix, l.pair.model) {
        amount := amount + Amount(ix, l.pair.model, l.sums);
        priced := true;
      } else {
        names := names + {BaseModelOf(l.pair.model)};
        noPrice := true;
      }
      var k := FinalKey(ix, g, l.pair);
      byGroup := byGroup[k := AddLine(ix, l, GroupAt(byGroup, k))];
    }
    assert lines[..|lines|] == lines;
    GroupsMeet(ix, g, lines, byGroup);
    var order := Sorting.ListSorted(byGroup.Keys);
    keys := order;
    var groups := [];
    for i := 0 to |order|
      invariant KeysOf(groups, order[..i])
      invariant forall j :: 0 <= j < i ==> ListsGroup(ix, g, lines, groups[j])
    {
      assert order[i] in byGroup;
      var o := byGroup[order[i]];
      var members := Sorting.ListSorted(o.members);
      var e := Listed(order[i], members, o.tally, o.priced, o.noPrice);
      ListsIt(ix, g, lines, e, o);
      groups := groups + [e];
    }
    var noPriceNames := Sorting.ListSorted(names);
    rep := Report(groups, amount, priced, noPrice, noPriceNames);
  }

  lemma NothingYet(ix: Index, g: GroupBy)
    ensures GroupsSoFar(ix, g, [], map[]) && GrandSoFar(ix, [], 0.0, false, false, {})
  {
    hide IsGroup;
    forall k ensures IsGroup(ix, g, [], k, NO_GROUP) {
      NoLines(ix, g, k);
    }
  }

  lemma GroupsMeet(ix: Index, g: GroupBy, lines: seq<Line>, byGroup: map<string, Group>)
    requires GroupsSoFar(ix, g, lines, byGroup)
    ensures forall k :: k in byGroup ==> IsGroup(ix, g, lines, k, byGroup[k])
    ensures forall k :: k in byGroup <==> SomeLine(lines, InGroup(ix, g, k))
  {
    hide IsGroup, SomeLine;
    forall k | k in byGroup ensures IsGroup(ix, g, lines, k, byGroup[k]) {
      assert GroupAt(byGroup, k) == byGroup[k];
    }
  }

  lemma ListsIt(ix: Index, g: GroupBy, lines: seq<Line>, e: Listed, o: Group)
    requires IsGroup(ix, g, lines, e.key, o) && Sorting.Lists(e.members, o.members)
    requires e.tally == o.tally && e.priced == o.priced && e.noPrice == o.noPrice
    ensures ListsGroup(ix, g, lines, e)
  {
    hide IsGroup;
    assert o == Group(e.tally, e.priced, e.noPrice, o.members);
  }

  // ----- what the groups are worth together ------------------------------------------------------------

  function TallyOf(): Listed -> Tally {
    (e: Listed) => e.tally
  }

  /** The groups' counts and amounts add up to those of all lines, and, when cached and
      reasoning tokens are parts of what they should be, of all rows. */
  lemma GroupsAddUp(rows: seq<Row>, ix: Index, g: GroupBy, lines: seq<Line>, groups: seq<Listed>, keys: seq<string>)
    requires KeysOf(groups, keys) && Sorting.StrictlySorted(keys)
    requires forall k :: k in keys <==> SomeLine(lines, InGroup(ix, g, k))
    requires forall i :: 0 <= i < |groups| ==> ListsGroup(ix, g, lines, groups[i])
    ensures SumOf(groups, TallyOf()) == SumOf(lines, LineBy(ix))
    ensures IsAnswer(rows, g, lines) && AllOneSided(rows, g) ==> SumOf(groups, TallyOf()) == SumOf(rows, RowBy(ix))
  {
    hide SumOf, FinalKey, LineTally, IsAnswer, AllOneSided;
    KeysApart(keys);
    forall l | l in lines ensures KeyBy(ix, g)(l) in keys {
      assert InGroup(ix, g, FinalKey(ix, g, l.pair))(l);
    }
    PartsAddUp(lines, keys, KeyBy(ix, g), LineBy(ix));
    SumOverKeys(groups, keys, TallyOf(), PartSum(lines, KeyBy(ix, g), LineBy(ix)));
    if IsAnswer(rows, g, lines) && AllOneSided(rows, g) {
      GrandIsAllRows(rows, g, ix, lines);
    }
  }

  lemma KeysApart(keys: seq<string>)
    requires Sorting.StrictlySorted(keys)
    ensures NoRepeats(keys)
  {
    forall i, j | 0 <= i < j < |keys| ensures keys[i] != keys[j] {
      Strings.BeforeAntisymmetric(keys[i], keys[j]);
    }
  }

  lemma {:induction false} SumOverKeys(groups: seq<Listed>, keys: seq<string>, h: Listed -> Tally, q: string -> Tally)
    requires KeysOf(groups, keys) && forall i :: 0 <= i < |groups| ==> h(groups[i]) == q(keys[i])
    ensures SumOf(groups, h) == SumOf(keys, q)
  {
    if groups != [] {
      SumOverKeys(groups[..|groups| - 1], keys[..|keys| - 1], h, q);
    }
  }

  /** Grouped by model, no group is both priced and unpriced: the name an entry's usage is
      grouped under has a price itself. */
  lemma NoGroupIsMixed(models: seq<ModelPrice>, ix: Index, lines: seq<Line>, e: Listed)
    requires IsIndex(models, ix) && ListsGroup(ix, ByModel, lines, e)
    ensures !(e.priced && e.noPrice)
  {
    hide SumOf, BaseModelOf;
    if e.priced && e.noPrice {
      var i :| 0 <= i < |lines| && InPricedGroup(ix, ByModel, e.key, true)(lines[i]);
      var j :| 0 <= j < |lines| && InPricedGroup(ix, ByModel, e.key, false)(lines[j]);
      ModelsAreIndexed(models, ix, BaseModelOf(lines[i].pair.model));
      assert false;
    }
  }

  /** And with names claimed only once, all that is priced in a group by model is priced by
      the one entry the group is named after. */
  lemma OnePricePerGroup(models: seq<ModelPrice>, ix: Index, p: Pair)
    requires IsIndex(models, ix) && Sorting.DistinctKeys(Rules.Self, Rules.Flat(Rules.Claims, models))
    requires Priced(ix, p.model)
    ensures Lookup(ix, FinalKey(ix, ByModel, p)) == Lookup(ix, BaseModelOf(p.model))
  {
    hide Scan, BaseModelOf, Rules.Claims, Rules.Flat;
    var i := ScanFinds(models, BaseModelOf(p.model));
    UniqueNamesFindTheEntry(models, ix, BaseModelOf(p.model), i);
  }

  // ----- published ids and their price ---------------------------------------------------------------

  /** With names claimed only once, usage of a model published under an id is priced by the
      entry that claims the model, and goes to the group named after that entry; if none
      does, it has no price and is grouped by the model. */
  lemma PublishedIsPriced(models: seq<ModelPrice>, ix: Index, r: Row, base: string, segment: string, host: string)
    requires IsIndex(models, ix) && Sorting.DistinctKeys(Rules.Self, Rules.Flat(Rules.Claims, models))
    requires base != "" && '-' !in segment && host != "" && '@' !in host && r.model == PublishID(base, segment, host)
    ensures forall i :: 0 <= i < |models| && base in Rules.Claims(models[i]) ==>
      && AmountForRow(ix, r) == Some(AmountTokens(r.tokensIn, r.tokensOut, r.cached, r.reasoning, models[i]))
      && FinalKey(ix, ByModel, PairOf(ByModel, r)) == models[i].model
    ensures (forall i :: 0 <= i < |models| ==> base !in Rules.Claims(models[i])) ==>
      AmountForRow(ix, r) == None && FinalKey(ix, ByModel, PairOf(ByModel, r)) == base && !Priced(ix, r.model)
  {
    hide Scan, BaseModelOf, PublishID, Rules.Claims, Rules.Flat, AmountTokens;
    BaseOfPublished(base, segment, host);
    var k := ScanFinds(models, base);
    forall i | 0 <= i < |models| && base in Rules.Claims(models[i]) ensures Lookup(ix, base) == Some(models[i]) {
      UniqueNamesFindTheEntry(models, ix, base, i);
    }
  }

  /** Which rows share a line: those of one model that agree in what is grouped by. */
  lemma SamePair(g: GroupBy, r: Row, q: Row)
    requires '/' !in r.host && '/' !in q.host
    ensures PairOf(g, r) == PairOf(g, q) <==>
      r.model == q.model && match g
        case ByModel => true
        case ByHost => r.host == q.host
        case ByServer => r.host == q.host && r.server == q.server
        case ByDay => r.day == q.day
  {
    if g == ByServer {
      PathSplits(r.host, r.server);
      PathSplits(q.host, q.server);
    }
  }

  ghost function FirstSlash(s: string): nat {
    if s == "" || s[0] == '/' then 0 else 1 + FirstSlash(s[1..])
  }

  lemma {:induction false} SlashAfter(host: string, rest: string)
    requires '/' !in host
    ensures FirstSlash(host + "/" + rest) == |host|
  {
    var path := host + "/" + rest;
    if host != "" {
      assert path[1..] == host[1..] + "/" + rest;
      SlashAfter(host[1..], rest);
    }
  }

  /** A path of host and server is cut at its first slash. */
  lemma PathSplits(host: string, server: string)
    requires '/' !in host
    ensures var path := host + "/" + server;
      FirstSlash(path) < |path| && host == path[..FirstSlash(path)] && server == path[FirstSlash(path) + 1..]
  {
    SlashAfter(host, server);
  }
}
