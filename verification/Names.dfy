/** Published model ids, `<base>-<server>@<host>`, and the shapes names and currencies may
    take. */
module Names {
  import opened Strings
  import opened Wrappers

  datatype Parts = Parts(base: string, segment: string, host: string)

  function PublishID(base: string, segment: string, host: string): string {
    base + "-" + segment + "@" + host
  }

  /** Right-anchored: the last '@' starts the host id, the last '-' before it the
      name segment. */
  function SplitPublishedID(id: string): Option<Parts> {
    var at := LastIndex(id, '@');
    if at < 0 || at == |id| - 1 then None
    else
      var head := id[..at];
      var dash := LastIndex(head, '-');
      if dash <= 0 then None else Some(Parts(head[..dash], head[dash + 1..], id[at + 1..]))
  }

  function BaseModelOf(id: string): string {
    match SplitPublishedID(id)
    case Some(p) => p.base
    case None => id
  }

  predicate Lower09(c: char) {
    'a' <= c <= 'z' || '0' <= c <= '9'
  }

  predicate Alnum(c: char) {
    Lower09(c) || 'A' <= c <= 'Z'
  }

  /** `^[a-z0-9][a-z0-9-]{0,31}$` */
  predicate IsID(s: string) {
    1 <= |s| <= 32 && Lower09(s[0]) && forall i :: 0 <= i < |s| ==> Lower09(s[i]) || s[i] == '-'
  }

  /** `^[A-Za-z0-9][A-Za-z0-9._:-]{0,63}$` */
  predicate IsRouteAlias(s: string) {
    1 <= |s| <= 64 && Alnum(s[0]) && forall i :: 0 <= i < |s| ==> Alnum(s[i]) || s[i] in "._:-"
  }

  /** `^[A-Za-z0-9][A-Za-z0-9.:/_-]*(?: [A-Za-z0-9.:/_-]+)*$`, at most 64 long. */
  predicate IsPriceAlias(s: string) {
    && 1 <= |s| <= 64 && Alnum(s[0])
    && (forall i :: 0 <= i < |s| ==> Alnum(s[i]) || s[i] in ".:/_- ")
    && (forall i :: 0 <= i < |s| && s[i] == ' ' ==> i + 1 < |s| && s[i + 1] != ' ')
  }

  /** The check on a currency: three bytes once trimmed, all letters once in upper case. */
  predicate IsIsoCurrency(s: string) {
    Bytes(TrimSpace(s)) == 3 && AllLetters(s)
  }

  predicate AllLetters(s: string) {
    var t := TrimSpace(s);
    forall i :: 0 <= i < |t| ==> 'A' <= UpperChar(t[i]) <= 'Z'
  }

  /** Every id that splits is the published id of its parts, and the parts are
      never ambiguous. */
  lemma SplitThenPublish(id: string)
    requires SplitPublishedID(id).Some?
    ensures var p := SplitPublishedID(id).value;
      && PublishID(p.base, p.segment, p.host) == id
      && p.base != "" && p.host != "" && '-' !in p.segment && '@' !in p.host
  {
    var at := LastIndex(id, '@');
    var head := id[..at];
    var dash := LastIndex(head, '-');
    assert id == head + ['@'] + id[at + 1..];
    assert head == head[..dash] + ['-'] + head[dash + 1..];
  }

  lemma PublishHasAt(base: string, segment: string, host: string)
    ensures '@' in PublishID(base, segment, host)
  {
    assert PublishID(base, segment, host)[|base| + 1 + |segment|] == '@';
  }

  lemma PublishAt(base: string, segment: string, host: string)
    requires '@' !in host
    ensures LastIndex(PublishID(base, segment, host), '@') == |base| + 1 + |segment|
  {
    var id := PublishID(base, segment, host);
    var k := |base| + 1 + |segment|;
    assert id[k + 1..] == host;
    LastIndexUnique(id, '@', k);
  }

  /** Splitting undoes publishing exactly when the base is not empty, the segment
      has no dash, and the host is not empty and has no '@'. Ids of servers may
      carry dashes, so publishing is not always undone. */
  lemma PublishThenSplit(base: string, segment: string, host: string)
    ensures SplitPublishedID(PublishID(base, segment, host)) == Some(Parts(base, segment, host))
       <==> base != "" && '-' !in segment && host != "" && '@' !in host
  {
    var id := PublishID(base, segment, host);
    if base != "" && '-' !in segment && host != "" && '@' !in host {
      PublishAt(base, segment, host);
      var head := base + "-" + segment;
      assert id == head + "@" + host;
      assert id[..|head|] == head && id[|head| + 1..] == host;
      assert head[|base| + 1..] == segment;
      LastIndexUnique(head, '-', |base|);
      assert head[..|base|] == base;
    } else if SplitPublishedID(id).Some? {
      SplitThenPublish(id);
    }
  }

  /** The base of a published id is the model it was published for, if the server id has no
      dash; of a server id with dashes all but the last piece goes to the model. A name
      without '@' is a base itself. */
  lemma BaseOfPublished(base: string, segment: string, host: string)
    requires base != "" && '-' !in segment && host != "" && '@' !in host
    ensures BaseModelOf(PublishID(base, segment, host)) == base
    ensures forall lead :: BaseModelOf(PublishID(base, lead + "-" + segment, host)) == base + "-" + lead
  {
    hide PublishID, SplitPublishedID;
    PublishThenSplit(base, segment, host);
    forall lead ensures BaseModelOf(PublishID(base, lead + "-" + segment, host)) == base + "-" + lead {
      DashMoves(base, lead, segment, host);
      PublishThenSplit(base + "-" + lead, segment, host);
    }
  }

  lemma DashMoves(base: string, lead: string, segment: string, host: string)
    ensures PublishID(base, lead + "-" + segment, host) == PublishID(base + "-" + lead, segment, host)
  {
    var dash, tail := "-", "@" + host;
    assert base + dash + (lead + dash + segment) == base + dash + lead + dash + segment;
  }

  lemma BaseOfPlain(id: string)
    requires '@' !in id
    ensures BaseModelOf(id) == id
  {
  }

  /** s ends in "-" + t. */
  predicate DashSuffix(s: string, t: string) {
    |s| > |t| && s[|s| - |t|..] == t && s[|s| - |t| - 1] == '-'
  }

  lemma SameHead(b1: string, s1: string, b2: string, s2: string, host: string)
    ensures PublishID(b1, s1, host) == PublishID(b2, s2, host) <==> b1 + "-" + s1 == b2 + "-" + s2
  {
    var x, y := b1 + "-" + s1, b2 + "-" + s2;
    assert PublishID(b1, s1, host) == x + ("@" + host) && PublishID(b2, s2, host) == y + ("@" + host);
    if x + ("@" + host) == y + ("@" + host) {
      assert |x| == |y|;
      assert (x + ("@" + host))[..|x|] == x && (y + ("@" + host))[..|y|] == y;
    }
  }

  lemma CollisionMeansSuffix(b1: string, s1: string, b2: string, s2: string, host: string)
    requires PublishID(b1, s1, host) == PublishID(b2, s2, host)
    ensures s1 == s2 || DashSuffix(s1, s2) || DashSuffix(s2, s1)
    ensures s1 == s2 ==> b1 == b2
  {
    SameHead(b1, s1, b2, s2, host);
    var x, y := b1 + "-" + s1, b2 + "-" + s2;
    assert x[|b1| + 1..] == s1 && y[|b2| + 1..] == s2 && x[..|b1|] == b1 && y[..|b2|] == b2;
    if |s1| >= |s2| {
      assert s1[|s1| - |s2|..] == x[|x| - |s2|..];
      assert |s1| > |s2| ==> s1[|s1| - |s2| - 1] == y[|b2|];
    } else {
      assert s2[|s2| - |s1|..] == y[|y| - |s1|..];
      assert s2[|s2| - |s1| - 1] == x[|b1|];
    }
  }

  ghost predicate Collide(s: string, t: string, host: string) {
    exists b1, b2 :: b1 != "" && b2 != "" && PublishID(b1, s, host) == PublishID(b2, t, host)
  }

  lemma SuffixCollides(s: string, t: string, host: string)
    requires DashSuffix(s, t)
    ensures Collide(s, t, host) && Collide(t, s, host)
  {
    var d := s[..|s| - |t| - 1];
    var b := "m-" + d;
    assert s == d + "-" + t;
    assert "m" + "-" + s == b + "-" + t;
    SameHead("m", s, b, t, host);
    assert "m" != "" && b != "" && PublishID("m", s, host) == PublishID(b, t, host);
  }

  /** Two servers of one host can publish the same id, for some model names,
      exactly when one server id is the other after a dash: unique server ids do
      not make published ids unique, dash-free ones do. */
  lemma ServersCollideIff(s: string, t: string, host: string)
    requires s != t
    ensures Collide(s, t, host) <==> DashSuffix(s, t) || DashSuffix(t, s)
  {
    if Collide(s, t, host) {
      var b1, b2 :| b1 != "" && b2 != "" && PublishID(b1, s, host) == PublishID(b2, t, host);
      CollisionMeansSuffix(b1, s, b2, t, host);
    }
    if DashSuffix(s, t) {
      SuffixCollides(s, t, host);
    }
    if DashSuffix(t, s) {
      SuffixCollides(t, s, host);
    }
  }

  lemma HostsSeparate(b1: string, s1: string, h1: string, b2: string, s2: string, h2: string)
    requires '@' !in h1 && '@' !in h2 && PublishID(b1, s1, h1) == PublishID(b2, s2, h2)
    ensures h1 == h2
  {
    PublishAt(b1, s1, h1);
    PublishAt(b2, s2, h2);
    var id := PublishID(b1, s1, h1);
    assert id[|b1| + 1 + |s1| + 1..] == h1 && id[|b2| + 1 + |s2| + 1..] == h2;
  }

  // ----- currencies -------------------------------------------------------------------------

  lemma {:induction false} TrimLeftUpper(s: string)
    ensures TrimLeft(ToUpper(s)) == ToUpper(TrimLeft(s))
  {
    if s != [] && IsSpace(s[0]) {
      assert ToUpper(s)[1..] == ToUpper(s[1..]);
      TrimLeftUpper(s[1..]);
    }
  }

  lemma {:induction false} TrimRightUpper(s: string)
    ensures TrimRight(ToUpper(s)) == ToUpper(TrimRight(s))
  {
    if s != [] && IsSpace(s[|s| - 1]) {
      assert ToUpper(s)[..|s| - 1] == ToUpper(s[..|s| - 1]);
      TrimRightUpper(s[..|s| - 1]);
    }
  }

  lemma TrimUpper(s: string)
    ensures TrimSpace(ToUpper(s)) == ToUpper(TrimSpace(s))
  {
    TrimLeftUpper(s);
    TrimRightUpper(TrimLeft(s));
  }

  lemma LettersUpper(s: string)
    ensures AllLetters(ToUpper(s)) <==> AllLetters(s)
  {
    TrimUpper(s);
    var t := TrimSpace(s);
    forall i | 0 <= i < |t| ensures UpperChar(ToUpper(t)[i]) == UpperChar(t[i]) {
    }
  }

  lemma {:induction false} PlainBytes(s: string)
    requires forall i :: 0 <= i < |s| ==> s[i] as int < 0x80
    ensures Bytes(s) == |s|
  {
    if s != "" {
      PlainBytes(s[..|s| - 1]);
    }
  }

  lemma {:induction false} BytesAtLeast(s: string)
    ensures Bytes(s) >= |s|
    ensures (exists i :: 0 <= i < |s| && s[i] as int >= 0x80) ==> Bytes(s) > |s|
  {
    if s != "" {
      var front := s[..|s| - 1];
      BytesAtLeast(front);
      if i :| 0 <= i < |s| && s[i] as int >= 0x80 {
        assert i < |front| ==> front[i] == s[i];
      }
    }
  }

  /** An accepted currency is stored in upper case, all its letters then within A to Z. It
      would be accepted again if and only if it was written without the two letters that
      lose a byte in upper case: three letters pass again, two do not. */
  lemma CurrencyStays(s: string)
    requires IsIsoCurrency(s)
    ensures ToUpper(ToUpper(s)) == ToUpper(s) && AllLetters(ToUpper(s))
    ensures Bytes(TrimSpace(ToUpper(s))) == |TrimSpace(s)| <= 3
    ensures IsIsoCurrency(ToUpper(s)) <==> forall i :: 0 <= i < |TrimSpace(s)| ==> TrimSpace(s)[i] != '\U{0131}' && TrimSpace(s)[i] != '\U{017F}'
  {
    var t := TrimSpace(s);
    TrimUpper(s);
    PlainBytes(ToUpper(t));
    BytesAtLeast(t);
    if forall i :: 0 <= i < |t| ==> t[i] != '\U{0131}' && t[i] != '\U{017F}' {
      PlainBytes(t);
    }
  }

  lemma BytesOfTwo(a: char, b: char)
    ensures Bytes([a, b]) == Width(a) + Width(b)
  {
    assert [a, b][..1] == [a] && [a][..0] == "";
    assert Bytes([a]) == Bytes("") + Width(a);
  }

  /** Letters of two bytes that are letters of one in upper case. */
  predicate Shrinks(c: char) {
    c == '\U{0131}' || c == '\U{017F}'
  }

  /** Which texts are currencies: with blanks around them or not, three letters from A to Z in
      either case, or two of which one shrinks. */
  lemma CurrencyIs(pre: string, m: string, post: string)
    requires AllBlank(pre) && AllBlank(post) && Tight(m)
    ensures IsIsoCurrency(pre + m + post) <==>
      && (forall i :: 0 <= i < |m| ==> 'A' <= m[i] <= 'Z' || 'a' <= m[i] <= 'z' || Shrinks(m[i]))
      && if |m| == 3 then forall i :: 0 <= i < 3 ==> !Shrinks(m[i]) else |m| == 2 && Shrinks(m[0]) != Shrinks(m[1])
  {
    hide TrimSpace, IsSpace, Bytes;
    Trimmed(pre, m, post);
    BytesAtLeast(m);
    if |m| <= 1 {
      BytesOfOne(m);
    } else if |m| == 2 {
      assert m == [m[0], m[1]];
      BytesOfTwo(m[0], m[1]);
    } else if forall i :: 0 <= i < |m| ==> m[i] as int < 0x80 {
      PlainBytes(m);
    }
  }

  lemma BytesOfOne(m: string)
    requires |m| <= 1
    ensures Bytes(m) == if m == "" then 0 else Width(m[0])
  {
    if m != "" {
      assert m[..0] == "";
    }
  }

  /** A dotless i and an a are a currency of three bytes, stored as two letters, which are
      none. */
  lemma CurrencyShrinks()
    ensures IsIsoCurrency("\U{0131}a") && ToUpper("\U{0131}a") == "IA" && !IsIsoCurrency("IA")
    ensures Bytes(TrimSpace("IA")) == 2
  {
    BytesOfTwo('\U{0131}', 'a');
    BytesOfTwo('I', 'A');
    assert TrimSpace("\U{0131}a") == "\U{0131}a" && TrimSpace("IA") == "IA";
  }
}
