/** Jinja's `dictsort`: the items of a mapping in case-insensitive key order, items whose
    keys differ only in case in insertion order. */
module Dictsort {

  datatype Item<+T> = Item(key: string, value: T)

  function LowerChar(c: char): char {
    if 'A' <= c <= 'Z' then c + 32 as char else c
  }

  /** The key `dictsort` compares by.  Only ASCII letters are folded. */
  function Fold(key: string): string {
    seq(|key|, i requires 0 <= i < |key| => LowerChar(key[i]))
  }

  /** Code-point order, as Python compares strings. */
  predicate LexLe(a: string, b: string) {
    a == "" || (b != "" && (a[0] < b[0] || (a[0] == b[0] && LexLe(a[1..], b[1..]))))
  }

  lemma {:induction false} LexTotal(a: string, b: string)
    ensures LexLe(a, b) || LexLe(b, a)
    ensures LexLe(a, b) && LexLe(b, a) ==> a == b
  {
    if a != "" && b != "" && a[0] == b[0] {
      LexTotal(a[1..], b[1..]);
      assert a == [a[0]] + a[1..] && b == [b[0]] + b[1..];
    }
  }

  lemma {:induction false} LexTransitive(a: string, b: string, c: string)
    requires LexLe(a, b) && LexLe(b, c)
    ensures LexLe(a, c)
  {
    if a != "" && a[0] == b[0] == c[0] {
      LexTransitive(a[1..], b[1..], c[1..]);
    }
  }

  predicate KeyLe<T(!new)>(a: Item<T>, b: Item<T>) {
    LexLe(Fold(a.key), Fold(b.key))
  }

  function Insert<T(!new)>(e: Item<T>, s: seq<Item<T>>): (r: seq<Item<T>>)
    ensures |r| == |s| + 1
  {
    if s == [] || KeyLe(e, s[0]) then [e] + s else [s[0]] + Insert(e, s[1..])
  }

  function Sort<T(!new)>(items: seq<Item<T>>): (r: seq<Item<T>>)
    ensures |r| == |items|
  {
    if items == [] then [] else Insert(items[0], Sort(items[1..]))
  }

  lemma {:induction false} InsertPermutes<T(!new)>(e: Item<T>, s: seq<Item<T>>)
    ensures multiset(Insert(e, s)) == multiset([e] + s)
    ensures forall x :: x in Insert(e, s) <==> x == e || x in s
  {
    if s != [] && !KeyLe(e, s[0]) {
      InsertPermutes(e, s[1..]);
      assert s == [s[0]] + s[1..];
    }
  }

  /** Sorting loses and invents nothing. */
  lemma {:induction false} SortPermutes<T(!new)>(items: seq<Item<T>>)
    ensures multiset(Sort(items)) == multiset(items)
    ensures forall x :: x in Sort(items) <==> x in items
  {
    if items != [] {
      SortPermutes(items[1..]);
      InsertPermutes(items[0], Sort(items[1..]));
      assert items == [items[0]] + items[1..];
    }
  }

  ghost predicate Ordered<T(!new)>(s: seq<Item<T>>) {
    forall i, j :: 0 <= i < j < |s| ==> KeyLe(s[i], s[j])
  }

  lemma {:induction false} InsertOrdered<T(!new)>(e: Item<T>, s: seq<Item<T>>)
    requires Ordered(s)
    ensures Ordered(Insert(e, s))
  {
    if s != [] {
      LexTotal(Fold(e.key), Fold(s[0].key));
      if KeyLe(e, s[0]) {
        forall j | 0 < j < |s| ensures KeyLe(e, s[j]) {
          LexTransitive(Fold(e.key), Fold(s[0].key), Fold(s[j].key));
        }
      } else {
        InsertOrdered(e, s[1..]);
        InsertPermutes(e, s[1..]);
        var r := Insert(e, s[1..]);
        forall x | x in r ensures KeyLe(s[0], x) {
          assert x == e || x in s[1..];
        }
      }
    }
  }

  lemma {:induction false} SortOrders<T(!new)>(items: seq<Item<T>>)
    ensures Ordered(Sort(items))
  {
    if items != [] {
      SortOrders(items[1..]);
      InsertOrdered(items[0], Sort(items[1..]));
    }
  }

  /** A character's place in the order, ASCII capitals counted as small letters. */
  function Rank(c: char): int {
    if 'A' <= c <= 'Z' then c as int + 32 else c as int
  }

  /** Up to place n the keys are the same but for case; there the first ends, or has the
      character that comes earlier. */
  predicate ComesFirst(a: string, b: string, n: nat) {
    && n <= |a| && n <= |b| && (forall k :: 0 <= k < n ==> Rank(a[k]) == Rank(b[k]))
    && (n == |a| || (n < |b| && Rank(a[n]) < Rank(b[n])))
  }

  lemma {:induction false} LexLeMeans(a: string, b: string) returns (n: nat)
    requires LexLe(Fold(a), Fold(b))
    ensures ComesFirst(a, b, n)
  {
    if a != "" && Rank(a[0]) == Rank(b[0]) {
      assert Fold(a)[1..] == Fold(a[1..]) && Fold(b)[1..] == Fold(b[1..]);
      n := LexLeMeans(a[1..], b[1..]);
      n := n + 1;
    } else {
      n := 0;
    }
  }

  /** The order of `dictsort`, character by character. */
  lemma {:induction false} SortedKeys<T(!new)>(items: seq<Item<T>>, i: nat, j: nat)
    requires i < j < |items|
    ensures exists n: nat :: ComesFirst(Sort(items)[i].key, Sort(items)[j].key, n)
  {
    SortOrders(items);
    var s := Sort(items);
    assert KeyLe(s[i], s[j]);
    var n := LexLeMeans(s[i].key, s[j].key);
  }

  /** The items whose folded key is k, in their order. */
  function WithKey<T(!new)>(items: seq<Item<T>>, k: string): seq<Item<T>> {
    if items == [] then []
    else (if Fold(items[0].key) == k then [items[0]] else []) + WithKey(items[1..], k)
  }

  lemma {:induction false} InsertStable<T(!new)>(e: Item<T>, s: seq<Item<T>>, k: string)
    ensures WithKey(Insert(e, s), k) == WithKey([e] + s, k)
  {
    assert ([e] + s)[1..] == s;
    if s != [] && !KeyLe(e, s[0]) {
      InsertStable(e, s[1..], k);
      assert ([e] + s[1..])[1..] == s[1..];
      assert Fold(e.key) != Fold(s[0].key) by {
        LexTotal(Fold(e.key), Fold(e.key));
      }
    }
  }

  /** Items with equal folded keys keep their insertion order. */
  lemma {:induction false} SortStable<T(!new)>(items: seq<Item<T>>, k: string)
    ensures WithKey(Sort(items), k) == WithKey(items, k)
  {
    if items != [] {
      SortStable(items[1..], k);
      var rest := Sort(items[1..]);
      InsertStable(items[0], rest, k);
      assert ([items[0]] + rest)[1..] == rest;
    }
  }

  ghost predicate FoldDistinct<T(!new)>(items: seq<Item<T>>) {
    forall i, j :: 0 <= i < j < |items| ==> Fold(items[i].key) != Fold(items[j].key)
  }

  lemma {:induction false} DistinctOnce<T(!new)>(a: seq<Item<T>>, x: Item<T>)
    requires FoldDistinct(a)
    ensures multiset(a)[x] <= 1
  {
    if a != [] {
      DistinctOnce(a[1..], x);
      assert a == [a[0]] + a[1..];
    }
  }

  lemma {:induction false} DistinctShuffled<T(!new)>(a: seq<Item<T>>, b: seq<Item<T>>)
    requires multiset(a) == multiset(b) && FoldDistinct(a)
    ensures FoldDistinct(b)
  {
    forall i, j | 0 <= i < j < |b| ensures Fold(b[i].key) != Fold(b[j].key) {
      assert b[i] in multiset(b) && b[j] in multiset(b);
      assert b[i] in a && b[j] in a;
      DistinctOnce(a, b[i]);
      assert b == b[..i] + [b[i]] + b[i + 1..j] + [b[j]] + b[j + 1..];
      assert b[i] == b[j] ==> multiset(b)[b[i]] >= 2;
    }
  }

  lemma {:induction false} OrderedUnique<T(!new)>(a: seq<Item<T>>, b: seq<Item<T>>)
    requires FoldDistinct(a) && Ordered(a) && FoldDistinct(b) && Ordered(b)
    requires forall x :: x in a <==> x in b
    ensures a == b
  {
    assert b != [] ==> b[0] in b;
    if a != [] {
      assert a[0] in b && b != [] && b[0] in a;
      LexTotal(Fold(a[0].key), Fold(b[0].key));
      LexTotal(Fold(a[0].key), Fold(a[0].key));
      assert KeyLe(a[0], b[0]) && KeyLe(b[0], a[0]);
      assert a[0] == b[0];
      assert a == [a[0]] + a[1..] && b == [b[0]] + b[1..];
      assert a[0] !in a[1..] && b[0] !in b[1..];
      forall x ensures x in a[1..] <==> x in b[1..] {
        assert x in a[1..] <==> x in a && x != a[0];
        assert x in b[1..] <==> x in b && x != b[0];
      }
      OrderedUnique(a[1..], b[1..]);
    }
  }

  /** Keys that stay distinct when folded leave one order only, whatever the insertion order. */
  lemma {:induction false} SortIgnoresInsertion<T(!new)>(a: seq<Item<T>>, b: seq<Item<T>>)
    requires multiset(a) == multiset(b) && FoldDistinct(a)
    ensures Sort(a) == Sort(b)
  {
    var x, y := Sort(a), Sort(b);
    SortPermutes(a);
    SortPermutes(b);
    SortOrders(a);
    SortOrders(b);
    DistinctShuffled(a, x);
    DistinctShuffled(a, y);
    forall e ensures e in x <==> e in y {
      assert e in x <==> e in multiset(x);
      assert e in y <==> e in multiset(y);
    }
    OrderedUnique(x, y);
  }

  /** Same keys place by place, values related place by place. */
  ghost predicate Pointwise<T(!new)>(a: seq<Item<T>>, b: seq<Item<T>>, rel: (T, T) -> bool) {
    && |a| == |b|
    && forall i :: 0 <= i < |a| ==> a[i].key == b[i].key && rel(a[i].value, b[i].value)
  }

  lemma {:induction false} InsertPointwise<T(!new)>(d: Item<T>, e: Item<T>, a: seq<Item<T>>, b: seq<Item<T>>, rel: (T, T) -> bool)
    requires d.key == e.key && rel(d.value, e.value) && Pointwise(a, b, rel)
    ensures Pointwise(Insert(d, a), Insert(e, b), rel)
  {
    if a != [] && !KeyLe(d, a[0]) {
      InsertPointwise(d, e, a[1..], b[1..], rel);
    }
  }

  /** Sorting moves both sequences alike: only keys decide. */
  lemma {:induction false} SortPointwise<T(!new)>(a: seq<Item<T>>, b: seq<Item<T>>, rel: (T, T) -> bool)
    requires Pointwise(a, b, rel)
    ensures Pointwise(Sort(a), Sort(b), rel)
  {
    if a != [] {
      SortPointwise(a[1..], b[1..], rel);
      InsertPointwise(a[0], b[0], Sort(a[1..]), Sort(b[1..]), rel);
    }
  }
}
