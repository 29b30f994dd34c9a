/** `sort.SliceStable` by a string key and `sort.Strings`, as functions. */
module Sorting {
  import opened Strings

  function Insert<T>(key: T -> string, x: T, s: seq<T>): seq<T> {
    if s == [] || !Less(key(s[0]), key(x)) then [x] + s else [s[0]] + Insert(key, x, s[1..])
  }

  /** The stable sort: among equal keys the original order stays. */
  function SortBy<T>(key: T -> string, s: seq<T>): seq<T> {
    if s == [] then [] else Insert(key, s[0], SortBy(key, s[1..]))
  }

  ghost predicate Sorted<T>(key: T -> string, s: seq<T>) {
    forall i, j :: 0 <= i < j < |s| ==> !Before(key(s[j]), key(s[i]))
  }

  ghost predicate DistinctKeys<T, K>(key: T -> K, s: seq<T>) {
    forall i, j :: 0 <= i < j < |s| ==> key(s[i]) != key(s[j])
  }

  ghost predicate StrictlySorted(s: seq<string>) {
    forall i, j :: 0 <= i < j < |s| ==> Before(s[i], s[j])
  }

  lemma {:induction false} InsertSorted<T>(key: T -> string, x: T, s: seq<T>)
    requires Sorted(key, s)
    ensures Sorted(key, Insert(key, x, s))
    ensures multiset(Insert(key, x, s)) == multiset(s) + multiset{x}
  {
    hide Before;
    if s != [] {
      LessIsBefore(key(s[0]), key(x));
    }
    if s == [] {
    } else if !Before(key(s[0]), key(x)) {
      forall j | 0 <= j < |s| ensures !Before(key(s[j]), key(x)) {
        if Before(key(s[j]), key(x)) {
          BeforeTotal(key(s[0]), key(x));
          if j > 0 {
            BeforeTotal(key(s[0]), key(s[j]));
            if key(x) != key(s[0]) {
              BeforeTransitive(key(s[j]), key(x), key(s[0]));
            }
          }
        }
      }
    } else {
      InsertSorted(key, x, s[1..]);
      var r := Insert(key, x, s[1..]);
      assert s == [s[0]] + s[1..];
      forall j | 0 <= j < |r| ensures !Before(key(r[j]), key(s[0])) {
        assert r[j] in multiset(r);
        if r[j] == x {
          BeforeAntisymmetric(key(s[0]), key(x));
        } else {
          assert r[j] in s[1..];
        }
      }
    }
  }

  lemma {:induction false} SortBySorted<T>(key: T -> string, s: seq<T>)
    ensures Sorted(key, SortBy(key, s))
    ensures multiset(SortBy(key, s)) == multiset(s)
    ensures |SortBy(key, s)| == |s|
  {
    if s != [] {
      SortBySorted(key, s[1..]);
      InsertSorted(key, s[0], SortBy(key, s[1..]));
      assert s == [s[0]] + s[1..];
    }
    assert |multiset(SortBy(key, s))| == |multiset(s)|;
  }

  /** The elements with one key, in their order. */
  ghost function Those<T>(key: T -> string, k: string, s: seq<T>): seq<T> {
    if s == [] then [] else (if key(s[0]) == k then [s[0]] else []) + Those(key, k, s[1..])
  }

  lemma {:induction false} InsertFirst<T>(key: T -> string, x: T, s: seq<T>, k: string)
    ensures Those(key, k, Insert(key, x, s)) == (if key(x) == k then [x] else []) + Those(key, k, s)
  {
    var r := Insert(key, x, s);
    if s == [] || !Less(key(s[0]), key(x)) {
      assert r == [x] + s && r[1..] == s;
    } else {
      LessAntisymmetric(key(x), key(x));
      InsertFirst(key, x, s[1..], k);
      assert r[1..] == Insert(key, x, s[1..]);
    }
  }

  /** The sort is stable. */
  lemma {:induction false} SortStable<T>(key: T -> string, s: seq<T>, k: string)
    ensures Those(key, k, SortBy(key, s)) == Those(key, k, s)
  {
    if s != [] {
      SortStable(key, s[1..], k);
      InsertFirst(key, s[0], SortBy(key, s[1..]), k);
    }
  }

  lemma {:induction false} SortedIsFixed<T>(key: T -> string, s: seq<T>)
    requires Sorted(key, s)
    ensures SortBy(key, s) == s
  {
    if s != [] {
      assert Sorted(key, s[1..]);
      SortedIsFixed(key, s[1..]);
      if |s| > 1 {
        LessIsBefore(key(s[1]), key(s[0]));
      }
    }
  }

  lemma CountOne<T, K>(key: T -> K, a: seq<T>, k: nat)
    requires DistinctKeys(key, a) && k < |a|
    ensures multiset(a)[a[k]] == 1
  {
    assert a == a[..k] + [a[k]] + a[k + 1..];
    assert a[k] !in a[..k] && a[k] !in a[k + 1..];
  }

  lemma CountTwo<T>(b: seq<T>, i: nat, j: nat)
    requires i < j < |b| && b[i] == b[j]
    ensures multiset(b)[b[i]] >= 2
  {
    assert b == b[..i] + [b[i]] + b[i + 1..j] + [b[j]] + b[j + 1..];
  }

  lemma DistinctPermuted<T, K>(key: T -> K, a: seq<T>, b: seq<T>)
    requires multiset(a) == multiset(b) && DistinctKeys(key, a)
    ensures DistinctKeys(key, b)
  {
    forall i, j | 0 <= i < j < |b| ensures key(b[i]) != key(b[j]) {
      if key(b[i]) == key(b[j]) {
        assert b[i] in multiset(a) && b[j] in multiset(a);
        var k :| 0 <= k < |a| && a[k] == b[i];
        var l :| 0 <= l < |a| && a[l] == b[j];
        assert k == l;
        CountOne(key, a, k);
        CountTwo(b, i, j);
        assert false;
      }
    }
  }

  lemma HeadIsLeast<T>(key: T -> string, a: seq<T>, x: T)
    requires Sorted(key, a) && x in a
    ensures !Before(key(x), key(a[0]))
  {
    var j :| 0 <= j < |a| && a[j] == x;
    BeforeAntisymmetric(key(x), key(x));
  }

  lemma HeadsAgree<T>(key: T -> string, a: seq<T>, b: seq<T>)
    requires multiset(a) == multiset(b) && DistinctKeys(key, a) && a != []
    requires Sorted(key, a) && Sorted(key, b)
    ensures b != [] && a[0] == b[0]
  {
    assert |multiset(a)| == |multiset(b)|;
    assert a[0] in multiset(b) && b[0] in multiset(a);
    HeadIsLeast(key, a, b[0]);
    HeadIsLeast(key, b, a[0]);
    BeforeTotal(key(a[0]), key(b[0]));
    var j :| 0 <= j < |a| && a[j] == b[0];
  }

  lemma TailBag<T>(a: seq<T>)
    requires a != []
    ensures multiset(a[1..]) == multiset(a) - multiset{a[0]}
  {
    assert a == [a[0]] + a[1..];
  }

  /** With distinct keys, the sorted order depends on nothing but the elements. */
  lemma {:induction false} SortedUnique<T>(key: T -> string, a: seq<T>, b: seq<T>)
    requires multiset(a) == multiset(b) && DistinctKeys(key, a)
    requires Sorted(key, a) && Sorted(key, b)
    ensures a == b
  {
    assert |multiset(a)| == |multiset(b)|;
    if a != [] {
      HeadsAgree(key, a, b);
      TailBag(a);
      TailBag(b);
      SortedUnique(key, a[1..], b[1..]);
      assert a == [a[0]] + a[1..] && b == [b[0]] + b[1..];
    }
  }

  lemma SortPermuted<T>(key: T -> string, a: seq<T>, b: seq<T>)
    requires multiset(a) == multiset(b) && DistinctKeys(key, a)
    ensures SortBy(key, a) == SortBy(key, b)
  {
    SortBySorted(key, a);
    SortBySorted(key, b);
    DistinctPermuted(key, a, SortBy(key, a));
    SortedUnique(key, SortBy(key, a), SortBy(key, b));
  }

  lemma SortedDistinctIsStrict(s: seq<string>)
    requires Sorted(x => x, s) && DistinctKeys(x => x, s)
    ensures StrictlySorted(s)
  {
    forall i, j | 0 <= i < j < |s| ensures Before(s[i], s[j]) {
      BeforeTotal(s[i], s[j]);
      assert (x => x)(s[i]) == s[i] && (x => x)(s[j]) == s[j];
    }
  }

  lemma SortKeepsDistinct(ids: seq<string>)
    requires forall i, j :: 0 <= i < j < |ids| ==> ids[i] != ids[j]
    ensures StrictlySorted(SortBy(x => x, ids))
    ensures forall x :: x in SortBy(x => x, ids) <==> x in ids
  {
    var key := (x: string) => x;
    assert DistinctKeys(key, ids);
    SortBySorted(key, ids);
    DistinctPermuted(key, ids, SortBy(key, ids));
    SortedDistinctIsStrict(SortBy(key, ids));
    forall x ensures x in SortBy(key, ids) <==> x in ids {
      assert x in multiset(SortBy(key, ids)) <==> x in multiset(ids);
    }
  }

  /** ids is the set, sorted. */
  ghost predicate Lists(ids: seq<string>, keys: set<string>) {
    StrictlySorted(ids) && forall id :: id in ids <==> id in keys
  }

  /** The keys of a map in whatever order it yields them, then `sort.Strings`. */
  method ListSorted(keys: set<string>) returns (ids: seq<string>)
    ensures Lists(ids, keys)
  {
    ids := [];
    var todo := keys;
    while todo != {}
      invariant todo <= keys
      invariant forall id :: id in ids <==> id in keys && id !in todo
      invariant forall i, j :: 0 <= i < j < |ids| ==> ids[i] != ids[j]
      decreases |todo|
    {
      var id :| id in todo;
      todo := todo - {id};
      ids := ids + [id];
    }
    SortKeepsDistinct(ids);
    ids := SortBy(x => x, ids);
  }

  lemma {:induction false} StrictlySortedUnique(a: seq<string>, b: seq<string>)
    requires StrictlySorted(a) && StrictlySorted(b)
    requires forall x :: x in a <==> x in b
    ensures a == b
  {
    assert |a| > 0 ==> a[0] in a;
    assert |b| > 0 ==> b[0] in b;
    if a != [] {
      StrictHead(a, b[0]);
      StrictHead(b, a[0]);
      BeforeAntisymmetric(a[0], b[0]);
      forall x ensures x in a[1..] <==> x in b[1..] {
        BeforeAntisymmetric(a[0], a[0]);
        assert x in a <==> x == a[0] || x in a[1..];
        assert x in b <==> x == b[0] || x in b[1..];
      }
      StrictlySortedUnique(a[1..], b[1..]);
      assert a == [a[0]] + a[1..] && b == [b[0]] + b[1..];
    }
  }

  lemma StrictHead(a: seq<string>, x: string)
    requires StrictlySorted(a) && x in a
    ensures x == a[0] || Before(a[0], x)
  {
  }
}
