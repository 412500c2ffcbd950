/** Option and Result, used by every module of the model. */
module Wrappers {
  datatype Option<+T> = None | Some(value: T)

  datatype Result<+T, +E> = Ok(value: T) | Err(error: E)
}

/**
  Lexicographic sort keys. Every `sorted(..., key=...)` and every multi-column
  `order_by` of the source is a sort by a tuple; a tuple is written here as a
  sequence of integers compared lexicographically, a shorter key first.
*/
module Ordering {
  type Key = seq<int>

  predicate Less(a: Key, b: Key) {
    b != [] && (a == [] || a[0] < b[0] || (a[0] == b[0] && Less(a[1..], b[1..])))
  }

  lemma {:induction false} LessTransitive(a: Key, b: Key, c: Key)
    requires Less(a, b) && Less(b, c)
    ensures Less(a, c)
  {
    if a != [] && a[0] == b[0] == c[0] {
      LessTransitive(a[1..], b[1..], c[1..]);
    }
  }

  lemma {:induction false} LessTotal(a: Key, b: Key)
    ensures a == b || Less(a, b) || Less(b, a)
    ensures !(Less(a, b) && Less(b, a))
    ensures !Less(a, a)
  {
    if a != [] && b != [] {
      LessTotal(a[1..], b[1..]);
      if a[0] == b[0] && a[1..] == b[1..] {
        assert a == [a[0]] + a[1..] == [b[0]] + b[1..] == b;
      }
    }
    if a != [] { LessTotal(a[1..], a[1..]); }
  }

  /** The first field that differs decides. */
  lemma {:induction false} LessByField(x: int, a: Key, y: int, b: Key)
    ensures Less([x] + a, [y] + b) <==> x < y || (x == y && Less(a, b))
  {
    assert ([x] + a)[1..] == a && ([y] + b)[1..] == b;
  }

  /** A text field inside a key: its code points, closed by a mark below all of them. */
  function TextKey(text: string): Key {
    if text == "" then [-1] else [text[0] as int] + TextKey(text[1..])
  }

  function Insert<T>(x: T, xs: seq<T>, key: T -> Key): seq<T> {
    if xs == [] || !Less(key(xs[0]), key(x)) then [x] + xs
    else [xs[0]] + Insert(x, xs[1..], key)
  }

  function SortBy<T>(xs: seq<T>, key: T -> Key): seq<T> {
    if xs == [] then [] else Insert(xs[0], SortBy(xs[1..], key), key)
  }

  ghost predicate Sorted<T>(xs: seq<T>, key: T -> Key) {
    forall i, j :: 0 <= i < j < |xs| ==> !Less(key(xs[j]), key(xs[i]))
  }

  /** No two positions share a key. */
  ghost predicate DistinctKeys<T>(xs: seq<T>, key: T -> Key) {
    forall i, j :: 0 <= i < j < |xs| ==> key(xs[i]) != key(xs[j])
  }

  lemma {:induction false} InsertKeeps<T>(x: T, xs: seq<T>, key: T -> Key)
    requires Sorted(xs, key)
    ensures multiset(Insert(x, xs, key)) == multiset{x} + multiset(xs)
    ensures Sorted(Insert(x, xs, key), key)
  {
    var r := Insert(x, xs, key);
    if xs == [] {
    } else if !Less(key(xs[0]), key(x)) {
      forall j | 1 <= j < |r| ensures !Less(key(r[j]), key(x)) {
        if Less(key(xs[j-1]), key(x)) {
          LessTotal(key(xs[0]), key(x));
          LessTotal(key(xs[j-1]), key(xs[0]));
          if Less(key(xs[j-1]), key(x)) && Less(key(x), key(xs[0])) {
            LessTransitive(key(xs[j-1]), key(x), key(xs[0]));
          }
        }
      }
    } else {
      var rest := Insert(x, xs[1..], key);
      InsertKeeps(x, xs[1..], key);
      assert xs == [xs[0]] + xs[1..];
      forall j | 1 <= j < |r| ensures !Less(key(r[j]), key(xs[0])) {
        assert r[j] in multiset(rest);
        LessTotal(key(x), key(xs[0]));
        if r[j] != x {
          assert r[j] in multiset(xs[1..]);
          var k :| 0 <= k < |xs[1..]| && xs[1..][k] == r[j];
          assert xs[k+1] == r[j];
        }
      }
    }
  }

  lemma {:induction false} SortByCorrect<T>(xs: seq<T>, key: T -> Key)
    ensures multiset(SortBy(xs, key)) == multiset(xs)
    ensures Sorted(SortBy(xs, key), key)
    ensures |SortBy(xs, key)| == |xs|
    ensures forall x :: x in SortBy(xs, key) <==> x in xs
  {
    if xs != [] {
      SortByCorrect(xs[1..], key);
      InsertKeeps(xs[0], SortBy(xs[1..], key), key);
      assert xs == [xs[0]] + xs[1..];
    }
    assert |multiset(SortBy(xs, key))| == |multiset(xs)|;
    forall x ensures x in SortBy(xs, key) <==> x in xs {
      assert x in SortBy(xs, key) <==> x in multiset(SortBy(xs, key));
      assert x in xs <==> x in multiset(xs);
    }
  }

  /** Equal keys mean equal elements. */
  ghost predicate Injective<T>(xs: seq<T>, key: T -> Key) {
    forall x, y :: x in xs && y in xs && key(x) == key(y) ==> x == y
  }

  lemma {:induction false} DistinctKeysInjective<T>(xs: seq<T>, key: T -> Key)
    requires DistinctKeys(xs, key)
    ensures Injective(xs, key)
  {
    forall x, y | x in xs && y in xs && key(x) == key(y) ensures x == y {
      var i :| 0 <= i < |xs| && xs[i] == x;
      var j :| 0 <= j < |xs| && xs[j] == y;
    }
  }

  lemma {:induction false} SameElements<T>(a: seq<T>, b: seq<T>)
    requires multiset(a) == multiset(b)
    ensures |a| == |b|
    ensures forall x :: x in a <==> x in b
  {
    assert |multiset(a)| == |multiset(b)|;
    forall x ensures x in a <==> x in b {
      assert x in a <==> x in multiset(a);
      assert x in b <==> x in multiset(b);
    }
  }

  lemma {:induction false} SortedHead<T>(a: seq<T>, key: T -> Key, x: T)
    requires Sorted(a, key) && x in a
    ensures !Less(key(x), key(a[0]))
  {
    var i :| 0 <= i < |a| && a[i] == x;
    LessTotal(key(x), key(x));
  }

  lemma {:induction false} InjectiveOnSameElements<T>(a: seq<T>, b: seq<T>, key: T -> Key)
    requires Injective(a, key)
    requires forall x :: x in b ==> x in a
    ensures Injective(b, key)
  {}

  lemma {:induction false} TailElements<T>(a: seq<T>, b: seq<T>)
    requires a != [] && b != [] && a[0] == b[0] && multiset(a) == multiset(b)
    ensures multiset(a[1..]) == multiset(b[1..])
  {
    assert a == [a[0]] + a[1..] && b == [b[0]] + b[1..];
    assert multiset(a[1..]) == multiset(a) - multiset{a[0]};
    assert multiset(b[1..]) == multiset(b) - multiset{b[0]};
  }

  lemma {:induction false} HeadsAgree<T>(a: seq<T>, b: seq<T>, key: T -> Key)
    requires a != [] && b != [] && a[0] in b && b[0] in a
    requires Sorted(a, key) && Sorted(b, key) && Injective(a, key)
    ensures a[0] == b[0]
  {
    SortedHead(a, key, b[0]);
    SortedHead(b, key, a[0]);
    LessTotal(key(a[0]), key(b[0]));
  }

  /** Two sorted arrangements of the same elements under distinct keys are one sequence. */
  lemma {:induction false} SortedUnique<T>(a: seq<T>, b: seq<T>, key: T -> Key)
    requires multiset(a) == multiset(b)
    requires Sorted(a, key) && Sorted(b, key) && Injective(a, key)
    ensures a == b
  {
    assert |a| == |b| && (a != [] ==> a[0] in b && b[0] in a) by { SameElements(a, b); }
    if a != [] {
      HeadsAgree(a, b, key);
      TailElements(a, b);
      InjectiveOnSameElements(a, a[1..], key);
      SortedUnique(a[1..], b[1..], key);
      assert a == [a[0]] + a[1..] && b == [b[0]] + b[1..];
    }
  }

  /** The order in which rows arrive does not matter to a sort by distinct keys. */
  lemma {:induction false} SortByPermutation<T>(a: seq<T>, b: seq<T>, key: T -> Key)
    requires multiset(a) == multiset(b) && Injective(a, key)
    ensures SortBy(a, key) == SortBy(b, key)
  {
    var sa, sb := SortBy(a, key), SortBy(b, key);
    assert multiset(sa) == multiset(a) && Sorted(sa, key) && forall x :: x in sa ==> x in a by {
      SortByCorrect(a, key);
    }
    assert multiset(sb) == multiset(b) && Sorted(sb, key) by {
      SortByCorrect(b, key);
    }
    InjectiveOnSameElements(a, sa, key);
    SortedUnique(sa, sb, key);
  }

  lemma {:induction false} SingleCountsDistinct<T>(s: seq<T>, i: nat, j: nat)
    requires i < j < |s| && multiset(s)[s[i]] <= 1
    ensures s[i] != s[j]
  {
    assert s == s[..j] + s[j..];
    assert s[i] in s[..j] && s[j] in s[j..];
  }

  // ---- Text fields --------------------------------------------------------------------

  /** Text a is a proper beginning of b, or smaller at the first character that differs. */
  ghost predicate TextBefore(a: string, b: string) {
    exists i: nat :: i <= |a| && i < |b| && a[..i] == b[..i] && (i == |a| || a[i] < b[i])
  }

  lemma {:induction false} TextBeforeTail(a: string, b: string)
    requires a != [] && b != [] && a[0] == b[0]
    ensures TextBefore(a, b) <==> TextBefore(a[1..], b[1..])
  {
    if i: nat :| i <= |a| && i < |b| && a[..i] == b[..i] && (i == |a| || a[i] < b[i]) {
      assert i > 0;
      assert a[1..][..i - 1] == a[..i][1..] && b[1..][..i - 1] == b[..i][1..];
    }
    var p, q := a[1..], b[1..];
    if i: nat :| i <= |p| && i < |q| && p[..i] == q[..i] && (i == |p| || p[i] < q[i]) {
      assert a[..i + 1] == [a[0]] + p[..i] && b[..i + 1] == [b[0]] + q[..i];
      assert i + 1 <= |a| && i + 1 < |b| && (i + 1 == |a| || a[i + 1] < b[i + 1]);
    }
  }

  lemma {:induction false} SameStart(a: string, b: string, i: nat)
    requires 0 < i <= |a| && i <= |b| && a[..i] == b[..i]
    ensures a[0] == b[0]
  {
    assert a[..i][0] == b[..i][0];
  }

  lemma {:induction false} TextHeads(a: string, b: string)
    requires a == [] || b == [] || a[0] != b[0]
    ensures TextBefore(a, b) <==> b != [] && (a == [] || a[0] < b[0])
  {
    if b != [] { assert a[..0] == b[..0]; }
    if i: nat :| i <= |a| && i < |b| && a[..i] == b[..i] && (i == |a| || a[i] < b[i]) {
      if i > 0 { SameStart(a, b, i); }
    }
  }

  /** A text inside a key is compared as text, and what follows decides between equal texts. */
  lemma {:induction false} LessByText(a: string, x: Key, b: string, y: Key)
    ensures Less(TextKey(a) + x, TextKey(b) + y) <==> TextBefore(a, b) || (a == b && Less(x, y))
  {
    if a != [] && b != [] && a[0] == b[0] {
      LessByText(a[1..], x, b[1..], y);
      TextBeforeTail(a, b);
      assert TextKey(a) + x == [a[0] as int] + (TextKey(a[1..]) + x);
      assert TextKey(b) + y == [b[0] as int] + (TextKey(b[1..]) + y);
      LessByField(a[0] as int, TextKey(a[1..]) + x, b[0] as int, TextKey(b[1..]) + y);
      assert a == [a[0]] + a[1..] && b == [b[0]] + b[1..];
    } else {
      TextHeads(a, b);
      TextFirst(a, x);
      TextFirst(b, y);
      var ka, kb := TextKey(a) + x, TextKey(b) + y;
      LessByField(ka[0], ka[1..], kb[0], kb[1..]);
      assert ka == [ka[0]] + ka[1..] && kb == [kb[0]] + kb[1..];
    }
  }

  lemma {:induction false} TextFirst(a: string, x: Key)
    ensures TextKey(a) + x != [] && (TextKey(a) + x)[0] == if a == [] then -1 else a[0] as int
    ensures a == [] ==> (TextKey(a) + x)[1..] == x
  {}

  /** What comes later in a sorted sequence does not come before, and under distinct keys it comes after. */
  lemma {:induction false} SortedStrictly<T>(xs: seq<T>, key: T -> Key, i: nat, j: nat)
    requires Sorted(xs, key) && i < j < |xs| && key(xs[i]) != key(xs[j])
    ensures Less(key(xs[i]), key(xs[j]))
  {
    LessTotal(key(xs[i]), key(xs[j]));
  }
}
