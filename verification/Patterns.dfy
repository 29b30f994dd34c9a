/** The shapes of ids and aliases, as the regular expressions they are given by. */
module Patterns {
  import opened Names

  datatype Pattern =
    | OneOf(chars: set<char>)
    | UpTo(chars: set<char>, most: nat)
    | Then(first: Pattern, second: Pattern)
    | Many(part: Pattern)

  ghost predicate Matches(p: Pattern, s: string)
    decreases p, |s|
  {
    match p
    case OneOf(cs) => |s| == 1 && s[0] in cs
    case UpTo(cs, most) => |s| <= most && forall i :: 0 <= i < |s| ==> s[i] in cs
    case Then(a, b) => exists k :: 0 <= k <= |s| && Matches(a, s[..k]) && Matches(b, s[k..])
    case Many(a) => s == "" || exists k :: 0 < k <= |s| && Matches(a, s[..k]) && Matches(p, s[k..])
  }

  const LOWER: set<char> := set c: char | 'a' <= c <= 'z'
  const UPPER: set<char> := set c: char | 'A' <= c <= 'Z'
  const DIGIT: set<char> := set c: char | '0' <= c <= '9'
  const ALNUM: set<char> := UPPER + LOWER + DIGIT

  /** `[a-z0-9][a-z0-9-]{0,31}` */
  const ID: Pattern := Then(OneOf(LOWER + DIGIT), UpTo(LOWER + DIGIT + {'-'}, 31))

  /** `[A-Za-z0-9][A-Za-z0-9._:-]{0,63}` */
  const ROUTE_ALIAS: Pattern := Then(OneOf(ALNUM), UpTo(ALNUM + {'.', '_', ':', '-'}, 63))

  const WORD: set<char> := ALNUM + {'.', ':', '/', '_', '-'}

  /** A blank and a word of one character or more. */
  const NEXT_WORD: Pattern := Then(OneOf({' '}), Then(OneOf(WORD), Many(OneOf(WORD))))

  /** `[A-Za-z0-9][A-Za-z0-9.:/_-]*(?: [A-Za-z0-9.:/_-]+)*` */
  const PRICE_ALIAS: Pattern := Then(OneOf(ALNUM), Then(Many(OneOf(WORD)), Many(NEXT_WORD)))

  lemma HeadThen(cs: set<char>, p: Pattern, s: string)
    ensures Matches(Then(OneOf(cs), p), s) <==> s != "" && s[0] in cs && Matches(p, s[1..])
  {
    if s != "" && s[0] in cs && Matches(p, s[1..]) {
      assert s[..1] == [s[0]];
      assert Matches(OneOf(cs), s[..1]);
    }
    if Matches(Then(OneOf(cs), p), s) {
      var k :| 0 <= k <= |s| && Matches(OneOf(cs), s[..k]) && Matches(p, s[k..]);
      assert k == 1 && s[..k][0] == s[0];
    }
  }

  lemma IDIsItsPattern(s: string)
    ensures IsID(s) <==> Matches(ID, s)
  {
    HeadThen(LOWER + DIGIT, UpTo(LOWER + DIGIT + {'-'}, 31), s);
    assert s != "" ==> s == [s[0]] + s[1..];
  }

  lemma RouteAliasIsItsPattern(s: string)
    ensures IsRouteAlias(s) <==> Matches(ROUTE_ALIAS, s)
  {
    HeadThen(ALNUM, UpTo(ALNUM + {'.', '_', ':', '-'}, 63), s);
    assert s != "" ==> s == [s[0]] + s[1..];
  }

  lemma {:induction false} RunOf(cs: set<char>, s: string)
    ensures Matches(Many(OneOf(cs)), s) <==> forall i :: 0 <= i < |s| ==> s[i] in cs
  {
    if s != "" {
      RunOf(cs, s[1..]);
      assert s == [s[0]] + s[1..] && s[..1] == [s[0]];
      if forall i :: 0 <= i < |s| ==> s[i] in cs {
        assert Matches(OneOf(cs), s[..1]) && Matches(Many(OneOf(cs)), s[1..]);
      }
      if k :| 0 < k <= |s| && Matches(OneOf(cs), s[..k]) && Matches(Many(OneOf(cs)), s[k..]) {
        assert k == 1 && s[..k][0] == s[0];
      }
    }
  }

  /** Words with single blanks between them, ending in a word. */
  predicate Spaced(s: string) {
    && (forall i :: 0 <= i < |s| ==> s[i] in WORD || s[i] == ' ')
    && (forall i :: 0 <= i < |s| && s[i] == ' ' ==> i + 1 < |s| && s[i + 1] != ' ')
  }

  lemma NextWordIs(s: string)
    ensures Matches(NEXT_WORD, s) <==> |s| >= 2 && s[0] == ' ' && forall i :: 1 <= i < |s| ==> s[i] in WORD
  {
    hide WORD;
    HeadThen({' '}, Then(OneOf(WORD), Many(OneOf(WORD))), s);
    if s != "" {
      HeadThen(WORD, Many(OneOf(WORD)), s[1..]);
      if |s| >= 2 {
        RunOf(WORD, s[1..][1..]);
        assert s[1..][1..] == s[2..] && s[1..][0] == s[1];
      }
    }
  }

  lemma {:induction false} NextWordsAreSpaced(s: string)
    requires Matches(Many(NEXT_WORD), s)
    ensures Spaced(s) && (s != "" ==> s[0] == ' ')
  {
    hide WORD, NEXT_WORD;
    if s != "" {
      var k :| 0 < k <= |s| && Matches(NEXT_WORD, s[..k]) && Matches(Many(NEXT_WORD), s[k..]);
      NextWordIs(s[..k]);
      NextWordsAreSpaced(s[k..]);
      BlankIsNoWord();
      assert s == s[..k] + s[k..];
    }
  }

  lemma BlankIsNoWord()
    ensures ' ' !in WORD
  {
  }

  /** Where the first run of word characters ends. */
  lemma {:induction false} SpacedSplits(s: string) returns (k: nat)
    requires Spaced(s)
    ensures k <= |s| && Matches(Many(OneOf(WORD)), s[..k]) && Matches(Many(NEXT_WORD), s[k..])
  {
    hide WORD, NEXT_WORD;
    k := 0;
    if s != "" {
      BlankIsNoWord();
      var j := SpacedSplits(s[1..]);
      RunOf(WORD, s[1..][..j]);
      if s[0] != ' ' {
        k := j + 1;
        assert s[..k] == [s[0]] + s[1..][..j] && s[k..] == s[1..][j..];
        RunOf(WORD, s[..k]);
      } else {
        if j == 0 {
          NextWordsAreSpaced(s[1..]);
        }
        var word := s[..j + 1];
        assert word == [s[0]] + s[1..][..j] && s[j + 1..] == s[1..][j..];
        NextWordIs(word);
        assert Matches(NEXT_WORD, s[..j + 1]) && Matches(Many(NEXT_WORD), s[j + 1..]);
        RunOf(WORD, s[..0]);
        assert s[0..] == s;
      }
    } else {
      RunOf(WORD, s[..0]);
    }
  }

  lemma RestIsSpaced(s: string)
    ensures Matches(Then(Many(OneOf(WORD)), Many(NEXT_WORD)), s) <==> Spaced(s)
  {
    hide WORD, NEXT_WORD;
    BlankIsNoWord();
    if Spaced(s) {
      var k := SpacedSplits(s);
    }
    if k :| 0 <= k <= |s| && Matches(Many(OneOf(WORD)), s[..k]) && Matches(Many(NEXT_WORD), s[k..]) {
      RunOf(WORD, s[..k]);
      NextWordsAreSpaced(s[k..]);
      assert s == s[..k] + s[k..];
    }
  }

  /** And at most 64 characters in all. */
  lemma PriceAliasIsItsPattern(s: string)
    ensures IsPriceAlias(s) <==> Matches(PRICE_ALIAS, s) && |s| <= 64
  {
    hide Matches, Spaced, IsPriceAlias, ALNUM, WORD, NEXT_WORD;
    HeadThen(ALNUM, Then(Many(OneOf(WORD)), Many(NEXT_WORD)), s);
    if s != "" {
      RestIsSpaced(s[1..]);
    }
    AliasIsSpaced(s);
  }

  lemma AliasIsSpaced(s: string)
    ensures IsPriceAlias(s) <==> 1 <= |s| <= 64 && s[0] in ALNUM && Spaced(s[1..])
  {
    assert s != "" ==> forall i :: 1 <= i < |s| ==> s[i] == s[1..][i - 1];
    assert s != "" ==> forall i :: 0 <= i < |s| - 1 ==> s[1..][i] == s[i + 1];
  }
}
