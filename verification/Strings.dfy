/** The string operations the model needs. A string is a sequence of code points; where
    the code counts bytes, those of its UTF-8 form are counted here. */
module Strings {

  /** Bytes of the UTF-8 form. */
  function Width(c: char): nat {
    var p := c as int;
    if p < 0x80 then 1 else if p < 0x800 then 2 else if p < 0x1_0000 then 3 else 4
  }

  /** `len(s)`. */
  function Bytes(s: string): nat {
    if s == "" then 0 else Bytes(s[..|s| - 1]) + Width(s[|s| - 1])
  }

  /** Lexicographic order, Go's `<` on strings: UTF-8 keeps the order of code points. */
  predicate Less(a: string, b: string) {
    if b == [] then false
    else if a == [] then true
    else a[0] < b[0] || (a[0] == b[0] && Less(a[1..], b[1..]))
  }

  /** Up to some place a and b are alike, and there a has ended or has the lesser character. */
  ghost predicate Before(a: string, b: string) {
    exists k :: DifferAt(a, b, k)
  }

  ghost predicate DifferAt(a: string, b: string, k: nat) {
    k <= |a| && k < |b| && a[..k] == b[..k] && (k == |a| || a[k] < b[k])
  }

  /** The order by the first difference. */
  lemma {:induction false} LessIsBefore(a: string, b: string)
    ensures Less(a, b) <==> Before(a, b)
  {
    if b == [] {
    } else if a == [] || a[0] < b[0] {
      assert DifferAt(a, b, 0);
    } else if a[0] == b[0] {
      LessIsBefore(a[1..], b[1..]);
      if k: nat :| DifferAt(a[1..], b[1..], k) {
        assert a[..k + 1] == [a[0]] + a[1..][..k] && b[..k + 1] == [b[0]] + b[1..][..k];
        assert DifferAt(a, b, k + 1);
      }
      if k: nat :| DifferAt(a, b, k) {
        assert k > 0 && a[1..][..k - 1] == a[..k][1..] && b[1..][..k - 1] == b[..k][1..];
        assert DifferAt(a[1..], b[1..], k - 1);
      }
    } else {
      forall k: nat ensures !DifferAt(a, b, k) {
        if 0 < k <= |a| && k < |b| {
          assert a[..k][0] == a[0] && b[..k][0] == b[0];
        }
      }
    }
  }

  lemma BeforeTotal(a: string, b: string)
    ensures Before(a, b) || a == b || Before(b, a)
  {
    LessIsBefore(a, b);
    LessIsBefore(b, a);
    LessTotal(a, b);
  }

  lemma BeforeAntisymmetric(a: string, b: string)
    ensures !(Before(a, b) && Before(b, a))
    ensures !Before(a, a)
  {
    LessIsBefore(a, b);
    LessIsBefore(b, a);
    LessIsBefore(a, a);
    LessAntisymmetric(a, b);
  }

  lemma BeforeTransitive(a: string, b: string, c: string)
    requires Before(a, b) && Before(b, c)
    ensures Before(a, c)
  {
    LessIsBefore(a, b);
    LessIsBefore(b, c);
    LessIsBefore(a, c);
    LessTransitive(a, b, c);
  }

  lemma {:induction false} LessTotal(a: string, b: string)
    ensures Less(a, b) || a == b || Less(b, a)
  {
    if a != [] && b != [] && a[0] == b[0] {
      LessTotal(a[1..], b[1..]);
      assert a == [a[0]] + a[1..] && b == [b[0]] + b[1..];
    }
  }

  lemma {:induction false} LessAntisymmetric(a: string, b: string)
    ensures !(Less(a, b) && Less(b, a))
    ensures !Less(a, a)
  {
    if a != [] && b != [] {
      LessAntisymmetric(a[1..], b[1..]);
    } else if a != [] {
      LessAntisymmetric(a[1..], []);
    }
  }

  lemma {:induction false} LessTransitive(a: string, b: string, c: string)
    requires Less(a, b) && Less(b, c)
    ensures Less(a, c)
  {
    if a != [] && a[0] == b[0] && b[0] == c[0] {
      LessTransitive(a[1..], b[1..], c[1..]);
    }
  }

  /** `strings.LastIndexByte`. */
  function LastIndex(s: string, c: char): (r: int)
    ensures -1 <= r < |s|
    ensures r >= 0 ==> s[r] == c
    ensures forall i :: r < i < |s| ==> s[i] != c
  {
    if s == [] then -1
    else if s[|s| - 1] == c then |s| - 1
    else LastIndex(s[..|s| - 1], c)
  }

  lemma LastIndexUnique(s: string, c: char, k: nat)
    requires k < |s| && s[k] == c && c !in s[k + 1..]
    ensures LastIndex(s, c) == k
  {
    forall i | k < i < |s| ensures s[i] != c {
      assert s[i] == s[k + 1..][i - k - 1];
    }
  }

  type Lowering = f: char -> char | forall c: char :: c as int >= 0x80 ==> f(c) != '.'
    witness c => c

  /** The lower case of letters beyond ASCII. Nothing is said of it but that it makes no
      dots, so what is proved holds whatever it is. */
  const LOWER_BEYOND: Lowering

  function LowerChar(c: char): char {
    if 'A' <= c <= 'Z' then c - 'A' + 'a' else if c as int < 0x80 then c else LOWER_BEYOND(c)
  }

  /** The dotless i and the long s are the letters beyond ASCII whose upper case is in it;
      of the rest it matters only that theirs is not, so they stay as they are. */
  function UpperChar(c: char): char {
    if 'a' <= c <= 'z' then c - 'a' + 'A'
    else if c == '\U{0131}' then 'I'
    else if c == '\U{017F}' then 'S'
    else c
  }

  /** `strings.ToLower`. */
  function ToLower(s: string): (r: string)
    ensures |r| == |s| && forall i :: 0 <= i < |s| ==> r[i] == LowerChar(s[i])
  {
    seq(|s|, i requires 0 <= i < |s| => LowerChar(s[i]))
  }

  function ToUpper(s: string): (r: string)
    ensures |r| == |s| && forall i :: 0 <= i < |s| ==> r[i] == UpperChar(s[i])
  {
    seq(|s|, i requires 0 <= i < |s| => UpperChar(s[i]))
  }

  /** `unicode.IsSpace`. */
  predicate IsSpace(c: char) {
    var p := c as int;
    || 9 <= p <= 13 || p == 32 || p == 0x85 || p == 0xA0 || p == 0x1680 || 0x2000 <= p <= 0x200A
    || p == 0x2028 || p == 0x2029 || p == 0x202F || p == 0x205F || p == 0x3000
  }

  function TrimLeft(s: string): string {
    if s != [] && IsSpace(s[0]) then TrimLeft(s[1..]) else s
  }

  function TrimRight(s: string): string {
    if s != [] && IsSpace(s[|s| - 1]) then TrimRight(s[..|s| - 1]) else s
  }

  /** `strings.TrimSpace`. */
  function TrimSpace(s: string): string {
    TrimRight(TrimLeft(s))
  }

  // ----- trimming ----------------------------------------------------------------------------

  lemma {:induction false} LeftTrimmed(pre: string, m: string)
    requires AllBlank(pre) && (m != "" ==> !IsSpace(m[0]))
    ensures TrimLeft(pre + m) == m
  {
    if pre != "" {
      assert (pre + m)[1..] == pre[1..] + m;
      LeftTrimmed(pre[1..], m);
    } else {
      assert pre + m == m;
    }
  }

  lemma {:induction false} RightTrimmed(m: string, post: string)
    requires AllBlank(post) && (m != "" ==> !IsSpace(m[|m| - 1]))
    ensures TrimRight(m + post) == m
  {
    if post != "" {
      var n := |post| - 1;
      assert (m + post)[..|m| + n] == m + post[..n];
      RightTrimmed(m, post[..n]);
    } else {
      assert m + post == m;
    }
  }

  lemma {:induction false} AllBlankTrimmed(s: string)
    requires AllBlank(s)
    ensures TrimLeft(s) == ""
  {
    if s != "" {
      AllBlankTrimmed(s[1..]);
    }
  }

  lemma Trimmed(pre: string, m: string, post: string)
    requires AllBlank(pre) && AllBlank(post) && Tight(m)
    ensures TrimSpace(pre + m + post) == m
  {
    if m == "" {
      assert pre + m + post == pre + post;
      AllBlankTrimmed(pre + post);
    } else {
      assert pre + m + post == pre + (m + post);
      LeftTrimmed(pre, m + post);
      RightTrimmed(m, post);
    }
  }

  lemma {:induction false} LeftCut(s: string) returns (pre: string)
    ensures AllBlank(pre) && s == pre + TrimLeft(s) && (TrimLeft(s) != "" ==> !IsSpace(TrimLeft(s)[0]))
  {
    if s != "" && IsSpace(s[0]) {
      pre := LeftCut(s[1..]);
      pre := [s[0]] + pre;
    } else {
      pre := "";
    }
  }

  lemma {:induction false} RightCut(s: string) returns (post: string)
    ensures AllBlank(post) && s == TrimRight(s) + post && (TrimRight(s) != "" ==> !IsSpace(TrimRight(s)[|TrimRight(s)| - 1]))
  {
    if s != "" && IsSpace(s[|s| - 1]) {
      post := RightCut(s[..|s| - 1]);
      post := post + [s[|s| - 1]];
    } else {
      post := "";
    }
  }

  predicate AllBlank(s: string) {
    forall i :: 0 <= i < |s| ==> IsSpace(s[i])
  }

  predicate Tight(s: string) {
    s != "" ==> !IsSpace(s[0]) && !IsSpace(s[|s| - 1])
  }

  /** The blanks, one by one. */
  lemma SpacesAre(c: char)
    ensures IsSpace(c) <==>
      c in {' ', '\t', '\n', '\U{000B}', '\U{000C}', '\r', '\U{0085}', '\U{00A0}', '\U{1680}', '\U{2000}', '\U{2001}', '\U{2002}',
            '\U{2003}', '\U{2004}', '\U{2005}', '\U{2006}', '\U{2007}', '\U{2008}', '\U{2009}', '\U{200A}', '\U{2028}', '\U{2029}',
            '\U{202F}', '\U{205F}', '\U{3000}'}
  {
  }

  lemma NothingLeft(s: string)
    ensures TrimSpace(s) == "" <==> AllBlank(s)
  {
    hide IsSpace;
    if AllBlank(s) {
      Trimmed(s, "", "");
      assert s + "" + "" == s;
    }
    var pre := LeftCut(s);
    var post := RightCut(TrimLeft(s));
    assert TrimSpace(s) == "" ==> s == pre + post;
  }
}
