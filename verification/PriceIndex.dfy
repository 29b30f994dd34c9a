/** The price index, and what usage amounts to at a price. */
module PriceIndex {
  import opened Wrappers
  import opened ConfigTypes
  import opened Sorting
  import opened Rules
  import CanonicalForm

  type Index = map<string, ModelPrice>

  function Lookup(ix: Index, name: string): Option<ModelPrice> {
    if name in ix then Some(ix[name]) else None
  }

  /** A scan of the entries: the last one that claims the name. */
  function Scan(models: seq<ModelPrice>, name: string): Option<ModelPrice> {
    if models == [] then None
    else if name in Claims(models[|models| - 1]) then Some(models[|models| - 1])
    else Scan(models[..|models| - 1], name)
  }

  ghost predicate IsIndex(models: seq<ModelPrice>, ix: Index) {
    forall name :: Lookup(ix, name) == Scan(models, name)
  }

  method NewPriceIndex(p: Option<Prices>) returns (ix: Index, currency: string)
    ensures IsIndex(if p.Some? then p.value.models else [], ix)
    ensures currency == if p.Some? then p.value.currency else ""
  {
    hide Scan;
    ix, currency := map[], "";
    ScanOfNone();
    if p.None? {
      return;
    }
    currency := p.value.currency;
    var ms := p.value.models;
    assert ms[..0] == [];
    for i := 0 to |ms|
      invariant IsIndex(ms[..i], ix)
    {
      var e := ms[i];
      ix := Claim(ix[e.model := e], e);
      ScanMore(ms[..i], e);
      assert ms[..i + 1] == ms[..i] + [e];
    }
    assert ms[..|ms|] == ms;
  }

  method Claim(before: Index, e: ModelPrice) returns (ix: Index)
    ensures forall name :: Lookup(ix, name) == if name in e.aliases then Some(e) else Lookup(before, name)
  {
    ix := before;
    for j := 0 to |e.aliases|
      invariant forall name :: name in e.aliases[..j] ==> Lookup(ix, name) == Some(e)
      invariant forall name :: name !in e.aliases[..j] ==> Lookup(ix, name) == Lookup(before, name)
    {
      ghost var was := ix;
      ix := ix[e.aliases[j] := e];
      assert e.aliases[..j + 1] == e.aliases[..j] + [e.aliases[j]];
      assert forall name :: Lookup(ix, name) == if name == e.aliases[j] then Some(e) else Lookup(was, name);
    }
    assert e.aliases[..|e.aliases|] == e.aliases;
  }

  lemma ScanOfNone()
    ensures forall name :: Scan([], name) == None
  {
  }

  lemma ScanMore(models: seq<ModelPrice>, e: ModelPrice)
    ensures forall name :: Scan(models + [e], name) == if name == e.model || name in e.aliases then Some(e) else Scan(models, name)
  {
    assert (models + [e])[..|models|] == models;
  }

  /** What the scan, and so the index, finds: the last entry that claims the name, and
      nothing exactly when none does. */
  lemma {:induction false} ScanFinds(models: seq<ModelPrice>, name: string) returns (i: nat)
    ensures Scan(models, name).Some? ==>
      && i < |models| && Scan(models, name) == Some(models[i]) && name in Claims(models[i])
      && forall j :: i < j < |models| ==> name !in Claims(models[j])
    ensures Scan(models, name).None? ==> forall j :: 0 <= j < |models| ==> name !in Claims(models[j])
  {
    i := 0;
    if models != [] {
      var n := |models| - 1;
      if name in Claims(models[n]) {
        i := n;
      } else {
        i := ScanFinds(models[..n], name);
        assert forall j :: 0 <= j < n ==> models[j] == models[..n][j];
      }
    }
  }

  lemma ModelClaimed(e: ModelPrice)
    ensures e.model in Claims(e)
  {
    assert Claims(e)[0] == e.model;
  }

  /** When no name is claimed twice, the index finds the one entry that claims the name,
      under that name and under its own. */
  lemma UniqueNamesFindTheEntry(models: seq<ModelPrice>, ix: Index, name: string, i: nat)
    requires IsIndex(models, ix) && DistinctKeys(Self, Flat(Claims, models))
    requires i < |models| && name in Claims(models[i])
    ensures Lookup(ix, name) == Some(models[i]) == Lookup(ix, models[i].model)
  {
    hide Scan, Claims, Flat, DistinctKeys;
    var j := ScanFinds(models, name);
    ClaimedOnce(models, name, i, j);
    ModelClaimed(models[i]);
    var k := ScanFinds(models, models[i].model);
    ClaimedOnce(models, models[i].model, i, k);
  }

  lemma {:induction false} ClaimedOnce(models: seq<ModelPrice>, name: string, i: nat, j: nat)
    requires DistinctKeys(Self, Flat(Claims, models))
    requires i < |models| && j < |models| && name in Claims(models[i]) && name in Claims(models[j])
    ensures i == j
  {
    var n := |models| - 1;
    CanonicalForm.SplitDistinct(Flat(Claims, models[..n]), Claims(models[n]));
    if i < n && j < n {
      ClaimedOnce(models[..n], name, i, j);
    } else if i < n {
      ClaimInFlat(models[..n], name, i);
    } else if j < n {
      ClaimInFlat(models[..n], name, j);
    }
  }

  lemma {:induction false} ClaimInFlat(models: seq<ModelPrice>, name: string, i: nat)
    requires i < |models| && name in Claims(models[i])
    ensures name in Flat(Claims, models)
  {
    var n := |models| - 1;
    if i < n {
      ClaimInFlat(models[..n], name, i);
    }
  }

  /** Whatever the entries, the model of an entry that is found can be looked up itself. */
  lemma ModelsAreIndexed(models: seq<ModelPrice>, ix: Index, name: string)
    requires IsIndex(models, ix) && name in ix
    ensures ix[name].model in ix
  {
    hide Scan, Claims;
    var i := ScanFinds(models, name);
    ModelClaimed(models[i]);
    assert Lookup(ix, name) == Some(models[i]);
    var k := ScanFinds(models, models[i].model);
    assert Lookup(ix, models[i].model) == Scan(models, models[i].model);
  }

  // ----- amounts -----------------------------------------------------------------------------

  function Min(a: int, b: int): int {
    if a > b then b else a
  }

  function At(tokens: int, price: real): real {
    tokens as real * price
  }

  /** The amount for token counts at an entry, per million tokens: cached tokens are part
      of the input, reasoning tokens part of the output, and no more than all of it. */
  function AmountTokens(tin: int, tout: int, cached: int, reasoning: int, e: ModelPrice): real {
    if e.input.None? || e.output.None? then 0.0
    else
      var pIn, pOut := e.input.value, e.output.value;
      var pCached := if e.cachedInput.Some? then e.cachedInput.value else pIn;
      var pReasoning := if e.reasoningOutput.Some? then e.reasoningOutput.value else pOut;
      var c, r := Min(cached, tin), Min(reasoning, tout);
      (At(tin - c, pIn) + At(c, pCached) + At(tout - r, pOut) + At(r, pReasoning)) / 1000000.0
  }

  lemma AtAdds(a: int, b: int, price: real)
    ensures At(a + b, price) == At(a, price) + At(b, price)
  {
    var x, y := a as real, b as real;
    assert (a + b) as real == x + y;
    assert (x + y) * price == x * price + y * price;
  }

  /** How far the part falls short of the tokens it is part of. */
  function Spare(tokens: int, part: int): nat {
    if part < tokens then tokens - part else 0
  }

  /** The amount for tokens told apart: plain and cached input, plain and reasoning output. */
  function Bill(plain: int, cached: int, out: int, reasoning: int, e: ModelPrice): real
    requires e.input.Some? && e.output.Some?
  {
    var pCached := if e.cachedInput.Some? then e.cachedInput.value else e.input.value;
    var pReasoning := if e.reasoningOutput.Some? then e.reasoningOutput.value else e.output.value;
    (At(plain, e.input.value) + At(cached, pCached) + At(out, e.output.value) + At(reasoning, pReasoning)) / 1000000.0
  }

  lemma AmountIsBill(tin: int, tout: int, cached: int, reasoning: int, e: ModelPrice)
    requires e.input.Some? && e.output.Some?
    ensures AmountTokens(tin, tout, cached, reasoning, e)
         == Bill(Spare(tin, cached), tin - Spare(tin, cached), Spare(tout, reasoning), tout - Spare(tout, reasoning), e)
  {
    hide At;
  }

  lemma BillAdds(a: int, b: int, c: int, d: int, a': int, b': int, c': int, d': int, e: ModelPrice)
    requires e.input.Some? && e.output.Some?
    ensures Bill(a + a', b + b', c + c', d + d', e) == Bill(a, b, c, d, e) + Bill(a', b', c', d', e)
  {
    hide At;
    AtAdds(a, a', e.input.value);
    AtAdds(b, b', if e.cachedInput.Some? then e.cachedInput.value else e.input.value);
    AtAdds(c, c', e.output.value);
    AtAdds(d, d', if e.reasoningOutput.Some? then e.reasoningOutput.value else e.output.value);
  }

  /** As long as neither the input beyond the cached tokens nor the output beyond the
      reasoning tokens is positive on one side and negative on the other, the amount of a sum
      is the sum of the amounts, whatever the prices; and only then. */
  lemma AmountAdds(i1: int, o1: int, c1: int, r1: int, i2: int, o2: int, c2: int, r2: int)
    ensures (forall e :: AmountTokens(i1 + i2, o1 + o2, c1 + c2, r1 + r2, e)
                         == AmountTokens(i1, o1, c1, r1, e) + AmountTokens(i2, o2, c2, r2, e))
       <==> !Opposed(i1 - c1, i2 - c2) && !Opposed(o1 - r1, o2 - r2)
  {
    if !Opposed(i1 - c1, i2 - c2) && !Opposed(o1 - r1, o2 - r2) {
      forall e ensures AmountTokens(i1 + i2, o1 + o2, c1 + c2, r1 + r2, e)
                       == AmountTokens(i1, o1, c1, r1, e) + AmountTokens(i2, o2, c2, r2, e) {
        if e.input.Some? && e.output.Some? {
          PairGap(i1, o1, c1, r1, i2, o2, c2, r2, e);
          NoBill(e);
        }
      }
    } else {
      PairGap(i1, o1, c1, r1, i2, o2, c2, r2, Telling(""));
      TellingBill("", Spare(i1, c1) + Spare(i2, c2) - Spare(i1 + i2, c1 + c2), Spare(o1, r1) + Spare(o2, r2) - Spare(o1 + o2, r1 + r2));
    }
  }

  predicate Opposed(x: int, y: int) {
    x < 0 < y || y < 0 < x
  }

  /** How much the amounts of two parts exceed the amount of their sum: the tokens that the
      sum takes for cached or reasoning tokens, at the difference of the prices. */
  lemma PairGap(i1: int, o1: int, c1: int, r1: int, i2: int, o2: int, c2: int, r2: int, e: ModelPrice)
    requires e.input.Some? && e.output.Some?
    ensures var gin := Spare(i1, c1) + Spare(i2, c2) - Spare(i1 + i2, c1 + c2);
            var gout := Spare(o1, r1) + Spare(o2, r2) - Spare(o1 + o2, r1 + r2);
      && gin >= 0 && (gin == 0 <==> !Opposed(i1 - c1, i2 - c2))
      && gout >= 0 && (gout == 0 <==> !Opposed(o1 - r1, o2 - r2))
      && AmountTokens(i1, o1, c1, r1, e) + AmountTokens(i2, o2, c2, r2, e)
         == AmountTokens(i1 + i2, o1 + o2, c1 + c2, r1 + r2, e) + Bill(gin, -gin, gout, -gout, e)
  {
    hide AmountTokens, Bill;
    AmountIsBill(i1, o1, c1, r1, e);
    AmountIsBill(i2, o2, c2, r2, e);
    AmountIsBill(i1 + i2, o1 + o2, c1 + c2, r1 + r2, e);
    var p, q := Spare(i1 + i2, c1 + c2), Spare(o1 + o2, r1 + r2);
    var gin, gout := Spare(i1, c1) + Spare(i2, c2) - p, Spare(o1, r1) + Spare(o2, r2) - q;
    BillAdds(Spare(i1, c1), i1 - Spare(i1, c1), Spare(o1, r1), o1 - Spare(o1, r1),
             Spare(i2, c2), i2 - Spare(i2, c2), Spare(o2, r2), o2 - Spare(o2, r2), e);
    BillAdds(p, i1 + i2 - p, q, o1 + o2 - q, gin, -gin, gout, -gout, e);
  }

  lemma NoBill(e: ModelPrice)
    requires e.input.Some? && e.output.Some?
    ensures Bill(0, 0, 0, 0, e) == 0.0
  {
  }

  /** A price that tells plain tokens from the others: these are for free. */
  function Telling(name: string): ModelPrice {
    ModelPrice(name, [], Some(1000000.0), Some(1000000.0), Some(0.0), Some(0.0))
  }

  lemma TellingBill(name: string, gin: int, gout: int)
    ensures Bill(gin, -gin, gout, -gout, Telling(name)) == gin as real + gout as real
  {
  }

  /** The index of a price list with this one entry. */
  function TellingIndex(name: string): (ix: Index)
    ensures IsIndex([Telling(name)], ix)
  {
    map[name := Telling(name)]
  }

  /** What one token costs, by its kind: a cached or reasoning token its own price if it has
      one, else that of any input or output token. With AmountAdds this settles every amount. */
  lemma UnitPrices(e: ModelPrice)
    requires e.input.Some? && e.output.Some?
    ensures AmountTokens(0, 0, 0, 0, e) == 0.0
    ensures AmountTokens(1000000, 0, 0, 0, e) == e.input.value && AmountTokens(0, 1000000, 0, 0, e) == e.output.value
    ensures AmountTokens(1000000, 0, 1000000, 0, e) == if e.cachedInput.Some? then e.cachedInput.value else e.input.value
    ensures AmountTokens(0, 1000000, 0, 1000000, e) == if e.reasoningOutput.Some? then e.reasoningOutput.value else e.output.value
  {
  }

  /** Claiming more cached or reasoning tokens than there are counts as all of them. */
  lemma NoMoreThanAll(tin: int, tout: int, cached: int, reasoning: int, e: ModelPrice)
    ensures cached >= tin ==> AmountTokens(tin, tout, cached, reasoning, e) == AmountTokens(tin, tout, tin, reasoning, e)
    ensures reasoning >= tout ==> AmountTokens(tin, tout, cached, reasoning, e) == AmountTokens(tin, tout, cached, tout, e)
  {
    hide At;
  }
}
