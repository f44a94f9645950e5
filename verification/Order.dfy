/** When the insertion order of mappings shows in the printed text: exactly when two keys of
    one mapping differ in case only. */
module Order {
  import opened Options
  import opened Text
  import opened Dictsort
  import opened Arguments

  // -- The other way round -------------------------------------------------------------

  /** The value with every mapping inserted in the opposite order. */
  function Backwards(v: Value): Value {
    match v
    case Map(entries) => Map(BackwardsEntries(entries))
    case List(items) => List(BackwardsItems(items))
    case _ => v
  }

  function BackwardsEntries(entries: seq<Item<Value>>): (r: seq<Item<Value>>)
    ensures |r| == |entries|
  {
    if entries == [] then [] else BackwardsEntries(entries[1..]) + [Item(entries[0].key, Backwards(entries[0].value))]
  }

  function BackwardsItems(items: seq<Value>): (r: seq<Value>)
    ensures |r| == |items|
  {
    if items == [] then [] else [Backwards(items[0])] + BackwardsItems(items[1..])
  }

  /** The entries turned round inside, in their own order. */
  function InsideOut(entries: seq<Item<Value>>): (r: seq<Item<Value>>)
    ensures |r| == |entries|
  {
    if entries == [] then [] else [Item(entries[0].key, Backwards(entries[0].value))] + InsideOut(entries[1..])
  }

  lemma {:induction false} BackwardsPermutes(entries: seq<Item<Value>>)
    ensures multiset(BackwardsEntries(entries)) == multiset(InsideOut(entries))
    ensures forall e :: e in BackwardsEntries(entries) <==> e in InsideOut(entries)
  {
    if entries != [] {
      BackwardsPermutes(entries[1..]);
    }
  }

  lemma {:induction false} BackwardsReorders(v: Value)
    ensures Reordered(v, Backwards(v))
    decreases v, 1
  {
    match v
    case Map(entries) =>
      BackwardsPermutes(entries);
      InsideOutReorders(entries);
    case List(items) => BackwardsItemsReorder(items);
    case _ =>
  }

  lemma {:induction false} InsideOutReorders(entries: seq<Item<Value>>)
    ensures EntriesReordered(entries, InsideOut(entries))
    decreases entries, 0
  {
    if entries != [] {
      BackwardsReorders(entries[0].value);
      InsideOutReorders(entries[1..]);
    }
  }

  lemma {:induction false} BackwardsItemsReorder(items: seq<Value>)
    ensures ItemsReordered(items, BackwardsItems(items))
    decreases items, 0
  {
    if items != [] {
      BackwardsReorders(items[0]);
      BackwardsItemsReorder(items[1..]);
    }
  }

  // -- Keys --------------------------------------------------------------------------------

  function Keys(entries: seq<Item<Value>>): (r: seq<string>)
    ensures |r| == |entries| && forall i :: 0 <= i < |r| ==> r[i] == entries[i].key
  {
    seq(|entries|, i requires 0 <= i < |entries| => entries[i].key)
  }

  function Folding(keys: seq<string>, k: string): seq<string> {
    if keys == [] then [] else (if Fold(keys[0]) == k then [keys[0]] else []) + Folding(keys[1..], k)
  }

  function Reverse(xs: seq<string>): (r: seq<string>)
    ensures |r| == |xs| && forall i :: 0 <= i < |xs| ==> r[i] == xs[|xs| - 1 - i]
  {
    seq(|xs|, i requires 0 <= i < |xs| => xs[|xs| - 1 - i])
  }

  predicate Distinct(xs: seq<string>) {
    forall i, j :: 0 <= i < j < |xs| ==> xs[i] != xs[j]
  }

  lemma {:induction false} KeysWithKey(entries: seq<Item<Value>>, k: string)
    ensures Keys(WithKey(entries, k)) == Folding(Keys(entries), k)
  {
    if entries != [] {
      KeysWithKey(entries[1..], k);
      assert Keys(entries)[1..] == Keys(entries[1..]);
      assert Keys([entries[0]] + WithKey(entries[1..], k)) == [entries[0].key] + Keys(WithKey(entries[1..], k));
    } else {
      assert Keys(entries) == [];
    }
  }

  lemma {:induction false} FoldingAppend(a: seq<string>, x: string, k: string)
    ensures Folding(a + [x], k) == Folding(a, k) + (if Fold(x) == k then [x] else [])
  {
    if a == [] {
      assert (a + [x])[1..] == [];
    } else {
      FoldingAppend(a[1..], x, k);
      assert (a + [x])[1..] == a[1..] + [x];
    }
  }

  lemma {:induction false} FoldingReverses(keys: seq<string>, k: string)
    ensures Folding(Reverse(keys), k) == Reverse(Folding(keys, k))
  {
    if keys != [] {
      FoldingReverses(keys[1..], k);
      assert Reverse(keys) == Reverse(keys[1..]) + [keys[0]];
      FoldingAppend(Reverse(keys[1..]), keys[0], k);
      var rest := Folding(keys[1..], k);
      assert Reverse([keys[0]] + rest) == Reverse(rest) + [keys[0]];
    }
  }

  lemma {:induction false} FoldingHolds(keys: seq<string>, k: string)
    ensures forall x :: x in Folding(keys, k) <==> x in keys && Fold(x) == k
    ensures Distinct(keys) ==> Distinct(Folding(keys, k))
  {
    if keys != [] {
      FoldingHolds(keys[1..], k);
      assert keys == [keys[0]] + keys[1..];
      if Distinct(keys) {
        assert keys[0] !in keys[1..];
      }
    }
  }

  lemma {:induction false} KeysBackwards(entries: seq<Item<Value>>)
    ensures Keys(BackwardsEntries(entries)) == Reverse(Keys(entries))
  {
    if entries != [] {
      KeysBackwards(entries[1..]);
      assert Keys(entries) == [entries[0].key] + Keys(entries[1..]);
    }
  }

  /** Keys that come out in one order from both ends fold apart. */
  lemma {:induction false} SameBothWays(entries: seq<Item<Value>>)
    requires Distinct(Keys(entries)) && Keys(Sort(entries)) == Keys(Sort(BackwardsEntries(entries)))
    ensures FoldDistinct(entries)
  {
    forall i, j | 0 <= i < j < |entries| ensures Fold(entries[i].key) != Fold(entries[j].key) {
      var k := Fold(entries[i].key);
      FoldingBothWays(entries, k);
      var f := Folding(Keys(entries), k);
      FoldingHolds(Keys(entries), k);
      assert f[0] == Reverse(f)[|f| - 1] == f[|f| - 1] == Reverse(f)[0] by {
        assert Keys(entries)[i] in f;
      }
      assert Keys(entries)[i] in f && Keys(entries)[i] != Keys(entries)[j];
      assert Keys(entries)[j] in Keys(entries);
    }
  }

  lemma {:induction false} FoldingBothWays(entries: seq<Item<Value>>, k: string)
    requires Keys(Sort(entries)) == Keys(Sort(BackwardsEntries(entries)))
    ensures Folding(Keys(entries), k) == Reverse(Folding(Keys(entries), k))
  {
    var back := BackwardsEntries(entries);
    SortStable(entries, k);
    SortStable(back, k);
    KeysWithKey(entries, k);
    KeysWithKey(back, k);
    KeysWithKey(Sort(entries), k);
    KeysWithKey(Sort(back), k);
    KeysBackwards(entries);
    FoldingReverses(Keys(entries), k);
  }

  // -- Values ------------------------------------------------------------------------------

  lemma {:induction false} CanonAt(entries: seq<Item<Value>>, of: Value, i: nat)
    requires of.Map? && (forall e :: e in entries ==> e in of.entries) && i < |entries|
    ensures CanonEntries(entries, of)[i] == Item(entries[i].key, Canon(entries[i].value))
  {
    if i > 0 {
      CanonAt(entries[1..], of, i - 1);
    }
  }

  lemma {:induction false} InsideOutAt(entries: seq<Item<Value>>, i: nat)
    requires i < |entries|
    ensures InsideOut(entries)[i] == Item(entries[i].key, Backwards(entries[i].value))
  {
    if i > 0 {
      InsideOutAt(entries[1..], i - 1);
    }
  }

  /** Every entry of the sorted mapping, either way round, is one of the mapping. */
  lemma {:induction false} FromEntry(entries: seq<Item<Value>>, q: nat) returns (i: nat)
    requires q < |entries|
    ensures i < |entries|
    ensures Sort(BackwardsEntries(entries))[q] == Item(entries[i].key, Backwards(entries[i].value))
  {
    var e := Sort(BackwardsEntries(entries))[q];
    SortPermutes(BackwardsEntries(entries));
    BackwardsPermutes(entries);
    assert e in Sort(BackwardsEntries(entries));
    i :| 0 <= i < |entries| && InsideOut(entries)[i] == e;
    InsideOutAt(entries, i);
  }

  /** An entry of a mapping has its place among the sorted ones. */
  lemma {:induction false} PlaceOf(entries: seq<Item<Value>>, e: Item<Value>) returns (q: nat)
    requires e in entries
    ensures q < |entries| && Sort(entries)[q] == e
  {
    SortPermutes(entries);
    q :| 0 <= q < |entries| && Sort(entries)[q] == e;
  }

  /** In a mapping no key stands twice. */
  ghost predicate KeysDistinct(v: Value) {
    match v
    case Map(entries) => Distinct(Keys(entries)) && forall e :: e in entries ==> KeysDistinct(e.value)
    case List(items) => forall x :: x in items ==> KeysDistinct(x)
    case _ => true
  }

  lemma {:induction false} CanonKeys(entries: seq<Item<Value>>, of: Value)
    requires of.Map? && forall e :: e in entries ==> e in of.entries
    ensures Keys(CanonEntries(entries, of)) == Keys(entries)
  {
    forall i | 0 <= i < |entries| ensures Keys(CanonEntries(entries, of))[i] == entries[i].key {
      CanonAt(entries, of, i);
    }
  }

  /** Where a value sorts alike from both ends, its keys fold apart, at every depth. */
  lemma {:induction false} SortsAlike(v: Value)
    requires KeysDistinct(v) && Canon(v) == Canon(Backwards(v))
    ensures CaseDistinct(v)
    decreases v, 1
  {
    match v
    case Map(entries) => MapSortsAlike(v);
    case List(items) => ItemsSortAlike(items);
    case _ =>
  }

  lemma {:induction false} ItemsSortAlike(items: seq<Value>)
    requires (forall x :: x in items ==> KeysDistinct(x)) && CanonItems(items) == CanonItems(BackwardsItems(items))
    ensures forall x :: x in items ==> CaseDistinct(x)
    decreases items, 0
  {
    if items != [] {
      var c, d := CanonItems(items), CanonItems(BackwardsItems(items));
      assert c[0] == d[0] && c[1..] == d[1..];
      assert items[0] in items;
      SortsAlike(items[0]);
      ItemsSortAlike(items[1..]);
    }
  }

  lemma {:induction false} MapSortsAlike(v: Value)
    requires v.Map? && KeysDistinct(v) && Canon(v) == Canon(Backwards(v))
    ensures CaseDistinct(v)
    decreases v, 0
  {
    var entries, back := v.entries, BackwardsEntries(v.entries);
    var w := Backwards(v);
    SortPermutes(entries);
    SortPermutes(back);
    CanonKeys(Sort(entries), v);
    CanonKeys(Sort(back), w);
    SameBothWays(entries);
    forall e | e in entries ensures CaseDistinct(e.value) {
      ValueSortsAlike(v, e);
      SortsAlike(e.value);
    }
  }

  lemma {:induction false} ValueSortsAlike(v: Value, e: Item<Value>)
    requires v.Map? && Distinct(Keys(v.entries)) && Canon(v) == Canon(Backwards(v)) && e in v.entries
    ensures Canon(e.value) == Canon(Backwards(e.value))
  {
    var entries, back := v.entries, BackwardsEntries(v.entries);
    SortPermutes(entries);
    SortPermutes(back);
    var q := PlaceOf(entries, e);
    CanonAt(Sort(entries), v, q);
    CanonAt(Sort(back), Backwards(v), q);
    var i := FromEntry(entries, q);
    var j :| 0 <= j < |entries| && entries[j] == e;
    assert Keys(entries)[i] == Keys(entries)[j];
  }

  // -- Printable both ways --------------------------------------------------------------------

  lemma {:induction false} FirstIsLeast(entries: seq<Item<Value>>, e: Item<Value>)
    requires e in entries
    ensures KeyLe(Sort(entries)[0], e)
  {
    var q := PlaceOf(entries, e);
    SortOrders(entries);
    LexTotal(Fold(e.key), Fold(e.key));
  }

  lemma {:induction false} BackwardsHolds(entries: seq<Item<Value>>, e: Item<Value>)
    requires e in entries
    ensures Item(e.key, Backwards(e.value)) in BackwardsEntries(entries)
  {
    var j :| 0 <= j < |entries| && entries[j] == e;
    InsideOutAt(entries, j);
    BackwardsPermutes(entries);
  }

  lemma {:induction false} FirstFolds(entries: seq<Item<Value>>)
    requires entries != []
    ensures Fold(Sort(entries)[0].key) == Fold(Sort(BackwardsEntries(entries))[0].key)
  {
    var back := BackwardsEntries(entries);
    var x, y := Sort(entries)[0], Sort(back)[0];
    var i := FromEntry(entries, 0);
    FirstIsLeast(entries, entries[i]);
    SortPermutes(entries);
    BackwardsHolds(entries, x);
    FirstIsLeast(back, Item(x.key, Backwards(x.value)));
    LexTotal(Fold(x.key), Fold(y.key));
  }

  lemma BraceFolds(a: string, b: string)
    requires Fold(a) == Fold(b)
    ensures "}" <= a <==> "}" <= b
  {
    assert |Fold(a)| == |a| && |Fold(b)| == |b|;
    if a != "" {
      assert Fold(a)[0] == LowerChar(a[0]) && Fold(b)[0] == LowerChar(b[0]);
    }
  }

  /** A value whose sorted form can be printed can be printed the other way round, too. */
  lemma {:induction false} BackwardsPrintable(v: Value, escapeKeys: bool)
    requires Printable(Canon(v), escapeKeys)
    ensures Printable(Canon(Backwards(v)), escapeKeys)
    decreases v, 1
  {
    match v
    case Map(entries) => BackwardsMapPrintable(v, escapeKeys);
    case List(items) => BackwardsItemsPrintable(items, escapeKeys);
    case _ =>
  }

  lemma {:induction false} BackwardsItemsPrintable(items: seq<Value>, escapeKeys: bool)
    requires forall x :: x in CanonItems(items) ==> Printable(x, escapeKeys)
    ensures forall x :: x in CanonItems(BackwardsItems(items)) ==> Printable(x, escapeKeys)
    decreases items, 0
  {
    if items != [] {
      var c := CanonItems(items);
      assert c[0] in c && c[1..] == CanonItems(items[1..]);
      BackwardsPrintable(items[0], escapeKeys);
      BackwardsItemsPrintable(items[1..], escapeKeys);
      assert BackwardsItems(items)[1..] == BackwardsItems(items[1..]);
    }
  }

  lemma {:induction false} BackwardsMapPrintable(v: Value, escapeKeys: bool)
    requires v.Map? && Printable(Canon(v), escapeKeys)
    ensures Printable(Canon(Backwards(v)), escapeKeys)
    decreases v, 0
  {
    var entries, back := v.entries, BackwardsEntries(v.entries);
    var w := Backwards(v);
    SortPermutes(entries);
    SortPermutes(back);
    if entries != [] {
      FirstFolds(entries);
      BraceFolds(Sort(entries)[0].key, Sort(back)[0].key);
      CanonAt(Sort(entries), v, 0);
      CanonAt(Sort(back), w, 0);
    }
    forall e | e in Canon(w).entries ensures KeyPrintable(e.key, escapeKeys) && Printable(e.value, escapeKeys) {
      var q :| 0 <= q < |Canon(w).entries| && Canon(w).entries[q] == e;
      CanonAt(Sort(back), w, q);
      var i := FromEntry(entries, q);
      EntrySorted(v, entries[i]);
      BackwardsPrintable(entries[i].value, escapeKeys);
    }
  }

  lemma {:induction false} EntrySorted(v: Value, e: Item<Value>)
    requires v.Map? && e in v.entries
    ensures Item(e.key, Canon(e.value)) in Canon(v).entries
  {
    SortPermutes(v.entries);
    var q := PlaceOf(v.entries, e);
    CanonAt(Sort(v.entries), v, q);
    assert Canon(v).entries[q] in Canon(v).entries;
  }

  // -- Main results -----------------------------------------------------------------------------

  /** A value prints the same with all its mappings turned round exactly when no mapping has
      two keys that differ in case only. */
  lemma {:induction false} BackwardsShows(v: Value, escapeKeys: bool)
    requires KeysDistinct(v) && Printable(Canon(v), escapeKeys)
    ensures Format(v, escapeKeys) == Format(Backwards(v), escapeKeys) <==> CaseDistinct(v)
  {
    BackwardsReorders(v);
    if CaseDistinct(v) {
      OrderNeverShows(v, Backwards(v), escapeKeys);
    }
    if Format(v, escapeKeys) == Format(Backwards(v), escapeKeys) {
      BackwardsPrintable(v, escapeKeys);
      FormatRoundTrip(v, escapeKeys, "");
      FormatRoundTrip(Backwards(v), escapeKeys, "");
      SortsAlike(v);
    }
  }

  /** Insertion order never shows, in whatever order, exactly when no mapping has two such
      keys. */
  lemma {:induction false} OrderShowsExactly(v: Value, escapeKeys: bool)
    requires KeysDistinct(v) && Printable(Canon(v), escapeKeys)
    ensures (forall w :: Reordered(v, w) ==> Format(w, escapeKeys) == Format(v, escapeKeys)) <==> CaseDistinct(v)
  {
    BackwardsReorders(v);
    BackwardsShows(v, escapeKeys);
    if CaseDistinct(v) {
      forall w | Reordered(v, w) ensures Format(w, escapeKeys) == Format(v, escapeKeys) {
        OrderNeverShows(v, w, escapeKeys);
      }
    }
  }

  /** Three keys of one letter, in mixed case, from the last to the first. */
  lemma {:induction false} MixedCasePrints(x: string, y: string, z: string)
    ensures Format(Map([Item("c", Scalar(z)), Item("B", Scalar(y)), Item("a", Scalar(x))]), false)
            == "{" + "a" + ":" + x + "," + "B" + ":" + y + "," + "c" + ":" + z + "}"
  {
    var a, b, c := Item("a", Scalar(x)), Item("B", Scalar(y)), Item("c", Scalar(z));
    var v := Map([c, b, a]);
    ThreeSorted(a, b, c);
    FormatIsRawCanon(v, false);
    CanonAt([a, b, c], v, 0);
    CanonAt([a, b, c], v, 1);
    CanonAt([a, b, c], v, 2);
    assert Canon(v) == Map([a, b, c]);
    ThreePrinted(a, b, c);
    Joined("a", x, "B", y, "c", z);
  }

  lemma {:induction false} ThreePrinted(a: Item<Value>, b: Item<Value>, c: Item<Value>)
    requires a.value.Scalar? && b.value.Scalar? && c.value.Scalar?
    ensures RawEntries([a, b, c], false)
            == a.key + ":" + a.value.text + ("," + (b.key + ":" + b.value.text + ("," + (c.key + ":" + c.value.text + ""))))
  {
    FirstEntryText(c, [], false);
    FirstEntryText(b, [c], false);
    FirstEntryText(a, [b, c], false);
    assert [c] + [] == [c] && [b] + [c] == [b, c] && [a] + [b, c] == [a, b, c];
  }

  lemma Joined(k: string, x: string, l: string, y: string, m: string, z: string)
    ensures "{" + (k + ":" + x + ("," + (l + ":" + y + ("," + (m + ":" + z + ""))))) + "}"
            == "{" + k + ":" + x + "," + l + ":" + y + "," + m + ":" + z + "}"
  {
  }

  lemma {:induction false} ThreeSorted(a: Item<Value>, b: Item<Value>, c: Item<Value>)
    requires a.key == "a" && b.key == "B" && c.key == "c"
    ensures Sort([c, b, a]) == [a, b, c]
  {
    assert Fold("a") == "a" && Fold("B") == "b" && Fold("c") == "c";
    assert KeyLe(a, b) && KeyLe(b, c) && !KeyLe(c, b) && !KeyLe(c, a) && !KeyLe(b, a) && KeyLe(a, c);
    assert [c, b, a][1..] == [b, a] && [b, a][1..] == [a] && [a][1..] == [];
    assert Sort([a]) == [a];
    assert Sort([b, a]) == Insert(b, [a]) == [a] + Insert(b, []) == [a, b];
    assert [a, b][1..] == [b] && [b][1..] == [];
    assert Insert(c, [b]) == [b] + Insert(c, []) == [b, c];
    assert Insert(c, [a, b]) == [a] + Insert(c, [b]);
  }
}
