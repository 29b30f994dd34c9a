/** What normalising an address comes to: which addresses are taken for the same. */
module AddressForm {
  import opened Strings
  import opened ConfigTypes
  import opened Rules
  import opened Sorting
  import Incremental

  predicate Dotted(s: string) {
    s != "" && s[|s| - 1] == '.'
  }

  /** x is what is left of a without the blanks around it and without one final dot. */
  ghost predicate IsCore(a: string, x: string) {
    exists pre, post, dot :: CoreIn(a, pre, x, dot, post)
  }

  ghost predicate CoreIn(a: string, pre: string, x: string, dot: string, post: string) {
    a == pre + (x + dot) + post && AllBlank(pre) && AllBlank(post) && Tight(x + dot) && (dot == "." || (dot == "" && !Dotted(x)))
  }

  /** Letter by letter the same, up to case. */
  ghost predicate SameLetters(x: string, y: string) {
    |x| == |y| && forall i :: 0 <= i < |x| ==> LowerChar(x[i]) == LowerChar(y[i])
  }

  /** Two spellings of one address. */
  ghost predicate SameAddress(a: string, b: string) {
    exists x, y :: IsCore(a, x) && IsCore(b, y) && SameLetters(x, y)
  }

  // ----- the normal form ------------------------------------------------------------------------

  /** Blanks around an address and one final dot never matter. */
  lemma NormalOfCore(a: string, x: string)
    requires IsCore(a, x)
    ensures NormalizeAddress(a) == ToLower(x)
  {
    hide TrimSpace, IsSpace, LOWER_BEYOND;
    var pre, post, dot :| CoreIn(a, pre, x, dot, post);
    Trimmed(pre, x + dot, post);
    var low := ToLower(x + dot);
    if dot == "." {
      assert low[..|x|] == ToLower(x);
    } else {
      assert x + dot == x;
      if x != "" {
        LowersToNoDot(x[|x| - 1]);
      }
    }
  }

  lemma LowersToNoDot(c: char)
    ensures LowerChar(c) == '.' <==> c == '.'
  {
  }

  /** Every address has a core. */
  lemma SomeCore(a: string) returns (x: string)
    ensures IsCore(a, x)
  {
    hide IsSpace;
    var pre := LeftCut(a);
    var post := RightCut(TrimLeft(a));
    var m := TrimSpace(a);
    assert m != "" ==> m[0] == TrimLeft(a)[0];
    assert a == pre + m + post;
    var dot := if Dotted(m) then "." else "";
    x := if Dotted(m) then m[..|m| - 1] else m;
    assert x + dot == m;
    assert CoreIn(a, pre, x, dot, post);
  }

  /** Two addresses are taken for the same exactly when what is left of them agrees letter
      by letter up to case. */
  lemma SameNormalForm(a: string, b: string)
    ensures NormalizeAddress(a) == NormalizeAddress(b) <==> SameAddress(a, b)
  {
    hide NormalizeAddress, IsCore, LowerChar;
    var x := SomeCore(a);
    var y := SomeCore(b);
    NormalOfCore(a, x);
    NormalOfCore(b, y);
    LowerAlike(x, y);
    if SameAddress(a, b) {
      var u, v :| IsCore(a, u) && IsCore(b, v) && SameLetters(u, v);
      NormalOfCore(a, u);
      NormalOfCore(b, v);
      LowerAlike(u, v);
    }
  }

  lemma LowerAlike(x: string, y: string)
    ensures ToLower(x) == ToLower(y) <==> SameLetters(x, y)
  {
    hide LowerChar;
    if ToLower(x) == ToLower(y) {
      forall i | 0 <= i < |x| ensures LowerChar(x[i]) == LowerChar(y[i]) {
        assert ToLower(x)[i] == ToLower(y)[i];
      }
    }
  }

  /** Case is that of the letters A to Z, as far as ASCII goes. */
  lemma SameLetter(c: char, d: char)
    requires c as int < 0x80 && d as int < 0x80
    ensures LowerChar(c) == LowerChar(d) <==>
      c == d || ('A' <= c <= 'Z' && d as int == c as int + 32) || ('A' <= d <= 'Z' && c as int == d as int + 32)
  {
  }

  /** An address in lower case, without blanks around it or a final dot, is its own normal
      form. */
  lemma OwnNormalForm(a: string)
    requires Tight(a) && !Dotted(a) && forall i :: 0 <= i < |a| ==> a[i] as int < 0x80 && !('A' <= a[i] <= 'Z')
    ensures NormalizeAddress(a) == a
  {
    hide IsSpace;
    assert a == "" + (a + "") + "";
    assert CoreIn(a, "", a, "", "");
    NormalOfCore(a, a);
    assert ToLower(a) == a;
  }

  // ----- one address, one host --------------------------------------------------------------------

  /** No address stands twice, in whatever spelling, on one host or on two. */
  ghost predicate NoSharedAddress(hs: seq<Host>) {
    forall i, p, j, q :: 0 <= i < |hs| && 0 <= p < |hs[i].addresses| && 0 <= j < |hs| && 0 <= q < |hs[j].addresses| && (i != j || p != q)
      ==> !SameAddress(hs[i].addresses[p], hs[j].addresses[q])
  }

  lemma {:induction false} FlatHas(hs: seq<Host>, i: nat, p: nat)
    requires i < |hs| && p < |hs[i].addresses|
    ensures hs[i].addresses[p] in Flat(Addresses, hs)
  {
    var n := |hs| - 1;
    if i < n {
      FlatHas(hs[..n], i, p);
    }
  }

  lemma {:induction false} ApartInFlat(hs: seq<Host>, i: nat, p: nat, j: nat, q: nat)
    requires DistinctKeys(NormalizeAddress, Flat(Addresses, hs))
    requires i < |hs| && p < |hs[i].addresses| && j < |hs| && q < |hs[j].addresses| && (i < j || (i == j && p < q))
    ensures NormalizeAddress(hs[i].addresses[p]) != NormalizeAddress(hs[j].addresses[q])
  {
    hide NormalizeAddress;
    var n := |hs| - 1;
    var front, last := Flat(Addresses, hs[..n]), hs[n].addresses;
    Incremental.DistinctAppend(NormalizeAddress, front, last);
    if j < n {
      ApartInFlat(hs[..n], i, p, j, q);
    } else if i < n {
      FlatHas(hs[..n], i, p);
      var k :| 0 <= k < |front| && front[k] == hs[i].addresses[p];
    }
  }

  lemma ProperHostsShareNone(hs: seq<Host>)
    requires HostsProper(hs)
    ensures NoSharedAddress(hs)
  {
    hide NormalizeAddress, SameAddress, HostProper, Flat;
    forall i, p, j, q | 0 <= i < |hs| && 0 <= p < |hs[i].addresses| && 0 <= j < |hs| && 0 <= q < |hs[j].addresses| && (i != j || p != q)
      ensures !SameAddress(hs[i].addresses[p], hs[j].addresses[q])
    {
      SameNormalForm(hs[i].addresses[p], hs[j].addresses[q]);
      if i < j || (i == j && p < q) {
        ApartInFlat(hs, i, p, j, q);
      } else {
        ApartInFlat(hs, j, q, i, p);
      }
    }
  }
}
