/** The `format_argument` macro, which prints a nested argument value into the markup, and
    the reading of such text.

    A mapping prints its entries in `dictsort` order; strings print between two escape
    markers; keys print either the same way or bare.  What is neither string, boolean,
    mapping nor sequence (numbers, None) prints as its own text and is a Scalar here. */
module Arguments {
  import opened Options
  import opened Text
  import opened Dictsort

  const ESCAPE := "<|\"|>"

  datatype Value =
    | Str(s: string)
    | Bool(b: bool)
    | Map(entries: seq<Item<Value>>)
    | List(items: seq<Value>)
    | Scalar(text: string)

  lemma EscapeIsMarker()
    ensures IsMarker(ESCAPE)
  {
  }

  // -- Printing --------------------------------------------------------------------

  function KeyText(key: string, escapeKeys: bool): string {
    if escapeKeys then ESCAPE + key + ESCAPE else key
  }

  function Format(v: Value, escapeKeys: bool): string
    decreases v
  {
    match v
    case Str(s) => ESCAPE + s + ESCAPE
    case Bool(b) => if b then "true" else "false"
    case Map(entries) =>
      SortPermutes(entries);
      "{" + FormatEntries(Sort(entries), escapeKeys, v) + "}"
    case List(items) => "[" + FormatItems(items, escapeKeys) + "]"
    case Scalar(text) => text
  }

  /** The loop over the sorted entries of the mapping `of`: commas between, none after. */
  function FormatEntries(entries: seq<Item<Value>>, escapeKeys: bool, ghost of: Value): string
    requires of.Map? && forall e :: e in entries ==> e in of.entries
    decreases of, |entries|
  {
    if entries == [] then ""
    else
      assert entries[0] in entries;
      KeyText(entries[0].key, escapeKeys) + ":" + Format(entries[0].value, escapeKeys)
      + (if |entries| == 1 then "" else "," + FormatEntries(entries[1..], escapeKeys, of))
  }

  function FormatItems(items: seq<Value>, escapeKeys: bool): string
    decreases items
  {
    if items == [] then ""
    else
      Format(items[0], escapeKeys)
      + (if |items| == 1 then "" else "," + FormatItems(items[1..], escapeKeys))
  }

  /** The value with every mapping in `dictsort` order. */
  function Canon(v: Value): Value {
    match v
    case Map(entries) =>
      SortPermutes(entries);
      Map(CanonEntries(Sort(entries), v))
    case List(items) => List(CanonItems(items))
    case _ => v
  }

  function CanonEntries(entries: seq<Item<Value>>, ghost of: Value): (r: seq<Item<Value>>)
    requires of.Map? && forall e :: e in entries ==> e in of.entries
    ensures |r| == |entries|
    decreases of, |entries|
  {
    if entries == [] then []
    else
      assert entries[0] in entries;
      [Item(entries[0].key, Canon(entries[0].value))] + CanonEntries(entries[1..], of)
  }

  function CanonItems(items: seq<Value>): (r: seq<Value>)
    ensures |r| == |items|
  {
    if items == [] then [] else [Canon(items[0])] + CanonItems(items[1..])
  }

  /** The text of a value whose mappings print in the order they are given. */
  function Raw(v: Value, escapeKeys: bool): string {
    match v
    case Str(s) => ESCAPE + s + ESCAPE
    case Bool(b) => if b then "true" else "false"
    case Map(entries) => "{" + RawEntries(entries, escapeKeys) + "}"
    case List(items) => "[" + RawItems(items, escapeKeys) + "]"
    case Scalar(text) => text
  }

  function RawEntries(entries: seq<Item<Value>>, escapeKeys: bool): string {
    if entries == [] then ""
    else
      KeyText(entries[0].key, escapeKeys) + ":" + Raw(entries[0].value, escapeKeys)
      + (if |entries| == 1 then "" else "," + RawEntries(entries[1..], escapeKeys))
  }

  function RawItems(items: seq<Value>, escapeKeys: bool): string {
    if items == [] then ""
    else
      Raw(items[0], escapeKeys)
      + (if |items| == 1 then "" else "," + RawItems(items[1..], escapeKeys))
  }

  /** The macro prints the sorted value as it stands. */
  lemma {:induction false} FormatIsRawCanon(v: Value, escapeKeys: bool)
    ensures Format(v, escapeKeys) == Raw(Canon(v), escapeKeys)
    decreases v
  {
    match v
    case Map(entries) =>
      SortPermutes(entries);
      FormatEntriesIsRaw(Sort(entries), escapeKeys, v);
    case List(items) => FormatItemsIsRaw(items, escapeKeys);
    case _ =>
  }

  lemma {:induction false} FormatEntriesIsRaw(entries: seq<Item<Value>>, escapeKeys: bool, of: Value)
    requires of.Map? && forall e :: e in entries ==> e in of.entries
    ensures FormatEntries(entries, escapeKeys, of) == RawEntries(CanonEntries(entries, of), escapeKeys)
    decreases of, |entries|
  {
    if entries != [] {
      assert entries[0] in entries;
      FormatIsRawCanon(entries[0].value, escapeKeys);
      FormatEntriesIsRaw(entries[1..], escapeKeys, of);
      assert CanonEntries(entries, of)[1..] == CanonEntries(entries[1..], of);
    }
  }

  lemma {:induction false} FormatItemsIsRaw(items: seq<Value>, escapeKeys: bool)
    ensures FormatItems(items, escapeKeys) == RawItems(CanonItems(items), escapeKeys)
    decreases items
  {
    if items != [] {
      FormatIsRawCanon(items[0], escapeKeys);
      FormatItemsIsRaw(items[1..], escapeKeys);
      assert CanonItems(items)[1..] == CanonItems(items[1..]);
    }
  }

  // -- Insertion order -------------------------------------------------------------

  /** Same value, but for the insertion order of mappings at any depth. */
  ghost predicate Reordered(v: Value, w: Value) {
    match v
    case Map(entries) =>
      && w.Map?
      && exists shuffled: seq<Item<Value>> ::
           multiset(shuffled) == multiset(w.entries) && EntriesReordered(entries, shuffled)
    case List(items) => w.List? && ItemsReordered(items, w.items)
    case _ => v == w
  }

  ghost predicate EntriesReordered(a: seq<Item<Value>>, b: seq<Item<Value>>) {
    && |a| == |b|
    && forall i :: 0 <= i < |a| ==> a[i].key == b[i].key && Reordered(a[i].value, b[i].value)
  }

  ghost predicate ItemsReordered(a: seq<Value>, b: seq<Value>) {
    |a| == |b| && forall i :: 0 <= i < |a| ==> Reordered(a[i], b[i])
  }

  ghost predicate CaseDistinct(v: Value) {
    match v
    case Map(entries) => FoldDistinct(entries) && forall e :: e in entries ==> CaseDistinct(e.value)
    case List(items) => forall x :: x in items ==> CaseDistinct(x)
    case _ => true
  }

  /** Values equal up to order sort to the same value, when the keys of each mapping stay
      distinct in lower case. */
  lemma {:induction false} OrderDisappears(v: Value, w: Value)
    requires Reordered(v, w) && CaseDistinct(v)
    ensures Canon(v) == Canon(w)
    decreases v, 1
  {
    match v
    case Map(entries) => MapOrderDisappears(v, w);
    case List(items) => CanonItemsAgree(items, w.items);
    case _ =>
  }

  lemma {:induction false} MapOrderDisappears(v: Value, w: Value)
    requires v.Map? && Reordered(v, w) && CaseDistinct(v)
    ensures Canon(v) == Canon(w)
    decreases v, 0
  {
    var entries := v.entries;
    var shuffled: seq<Item<Value>> :|
      multiset(shuffled) == multiset(w.entries) && EntriesReordered(entries, shuffled);
    SortedAgree(entries, shuffled);
    SortIgnoresInsertion(shuffled, w.entries);
    SortPermutes(entries);
    SortPermutes(w.entries);
    CanonEntriesAgree(Sort(entries), v, Sort(w.entries), w);
  }

  lemma {:induction false} SortedAgree(a: seq<Item<Value>>, b: seq<Item<Value>>)
    requires EntriesReordered(a, b) && FoldDistinct(a)
    ensures EntriesReordered(Sort(a), Sort(b)) && FoldDistinct(b)
  {
    var rel := (x, y) => Reordered(x, y);
    assert Pointwise(a, b, rel);
    SortPointwise(a, b, rel);
  }

  /** Insertion order never shows in the printed text, at any depth. */
  lemma {:induction false} OrderNeverShows(v: Value, w: Value, escapeKeys: bool)
    requires Reordered(v, w) && CaseDistinct(v)
    ensures Format(v, escapeKeys) == Format(w, escapeKeys)
  {
    OrderDisappears(v, w);
    FormatIsRawCanon(v, escapeKeys);
    FormatIsRawCanon(w, escapeKeys);
  }

  lemma {:induction false} CanonEntriesAgree(a: seq<Item<Value>>, v: Value, b: seq<Item<Value>>, w: Value)
    requires v.Map? && forall e :: e in a ==> e in v.entries
    requires w.Map? && forall e :: e in b ==> e in w.entries
    requires EntriesReordered(a, b) && CaseDistinct(v)
    ensures CanonEntries(a, v) == CanonEntries(b, w)
    decreases v, 0, |a|
  {
    if a != [] {
      assert a[0] in a;
      OrderDisappears(a[0].value, b[0].value);
      CanonEntriesAgree(a[1..], v, b[1..], w);
    }
  }

  lemma {:induction false} CanonItemsAgree(a: seq<Value>, b: seq<Value>)
    requires ItemsReordered(a, b) && forall x :: x in a ==> CaseDistinct(x)
    ensures CanonItems(a) == CanonItems(b)
    decreases a
  {
    if a != [] {
      OrderDisappears(a[0], b[0]);
      CanonItemsAgree(a[1..], b[1..]);
    }
  }

  lemma {:induction false} CanonOfInsert(e: Item<Value>, s: seq<Item<Value>>, of: Value)
    requires of.Map? && e in of.entries && forall x :: x in s ==> x in of.entries
    ensures forall x :: x in Insert(e, s) ==> x in of.entries
    ensures CanonEntries(Insert(e, s), of) == Insert(Item(e.key, Canon(e.value)), CanonEntries(s, of))
  {
    InsertPermutes(e, s);
    if s != [] {
      var c := CanonEntries(s, of);
      assert c[1..] == CanonEntries(s[1..], of);
      if KeyLe(e, s[0]) {
        assert ([e] + s)[1..] == s;
      } else {
        CanonOfInsert(e, s[1..], of);
        var r := Insert(e, s[1..]);
        assert ([s[0]] + r)[1..] == r;
      }
    }
  }

  lemma {:induction false} CanonOfSort(s: seq<Item<Value>>, of: Value)
    requires of.Map? && forall x :: x in s ==> x in of.entries
    ensures forall x :: x in Sort(s) ==> x in of.entries
    ensures CanonEntries(Sort(s), of) == Sort(CanonEntries(s, of))
  {
    SortPermutes(s);
    if s != [] {
      CanonOfSort(s[1..], of);
      assert s[0] in s;
      assert CanonEntries(s, of)[1..] == CanonEntries(s[1..], of);
      CanonOfInsert(s[0], Sort(s[1..]), of);
    }
  }

  /** The sorted value is the same value, reordered. */
  lemma {:induction false} CanonReorders(v: Value)
    ensures Reordered(v, Canon(v))
    decreases v, 1
  {
    match v
    case Map(entries) => CanonMapReorders(v);
    case List(items) => CanonItemsReorder(items);
    case _ =>
  }

  lemma {:induction false} CanonMapReorders(v: Value)
    requires v.Map?
    ensures Reordered(v, Canon(v))
    decreases v, 0
  {
    var shuffled := CanonEntries(v.entries, v);
    CanonOfSort(v.entries, v);
    SortPermutes(shuffled);
    assert multiset(shuffled) == multiset(Canon(v).entries);
    CanonEntriesReorder(v.entries, v);
  }

  lemma {:induction false} CanonEntriesReorder(a: seq<Item<Value>>, of: Value)
    requires of.Map? && forall e :: e in a ==> e in of.entries
    ensures EntriesReordered(a, CanonEntries(a, of))
    decreases of, 0, |a|
  {
    if a != [] {
      assert a[0] in a;
      CanonReorders(a[0].value);
      CanonEntriesReorder(a[1..], of);
    }
  }

  lemma {:induction false} CanonItemsReorder(a: seq<Value>)
    ensures ItemsReordered(a, CanonItems(a))
    decreases a
  {
    if a != [] {
      CanonReorders(a[0]);
      CanonItemsReorder(a[1..]);
    }
  }

  // -- Reading ---------------------------------------------------------------------

  predicate IsDelimiter(c: char) {
    c == ',' || c == '}' || c == ']'
  }

  /** What may follow a printed value. */
  predicate AtDelimiter(s: string) {
    s == "" || IsDelimiter(s[0])
  }

  function TokenLength(s: string): (n: nat)
    ensures n <= |s|
    ensures forall i :: 0 <= i < n ==> !IsDelimiter(s[i])
    ensures n < |s| ==> IsDelimiter(s[n])
  {
    if AtDelimiter(s) then 0 else 1 + TokenLength(s[1..])
  }

  function ReadKey(s: string, escapeKeys: bool): (r: Option<(string, string)>)
    ensures r.Some? ==> |r.value.1| < |s|
  {
    if !escapeKeys then Cut(s, ":")
    else if !(ESCAPE <= s) then None
    else
      var c := Cut(s[|ESCAPE|..], ESCAPE);
      if c.None? || c.value.1 == "" || c.value.1[0] != ':' then None
      else Some((c.value.0, c.value.1[1..]))
  }

  /** Read one value; the rest of the text comes back with it. */
  function ReadValue(s: string, escapeKeys: bool): (r: Option<(Value, string)>)
    ensures r.Some? ==> |r.value.1| < |s|
    decreases |s|, 0
  {
    if ESCAPE <= s then
      var c := Cut(s[|ESCAPE|..], ESCAPE);
      if c.None? then None else Some((Str(c.value.0), c.value.1))
    else if s != "" && s[0] == '{' then
      if |s| > 1 && s[1] == '}' then Some((Map([]), s[2..]))
      else
        var r := ReadEntries(s[1..], escapeKeys);
        if r.None? then None else Some((Map(r.value.0), r.value.1))
    else if s != "" && s[0] == '[' then
      if |s| > 1 && s[1] == ']' then Some((List([]), s[2..]))
      else
        var r := ReadItems(s[1..], escapeKeys);
        if r.None? then None else Some((List(r.value.0), r.value.1))
    else
      var n := TokenLength(s);
      var token := s[..n];
      if n == 0 then None
      else if token == "true" then Some((Bool(true), s[n..]))
      else if token == "false" then Some((Bool(false), s[n..]))
      else Some((Scalar(token), s[n..]))
  }

  /** Read `key:value` pairs between commas, up to and including the closing brace. */
  function ReadEntries(s: string, escapeKeys: bool): (r: Option<(seq<Item<Value>>, string)>)
    ensures r.Some? ==> |r.value.1| < |s| && r.value.0 != []
    decreases |s|
  {
    var k := ReadKey(s, escapeKeys);
    if k.None? then None else
    var v := ReadValue(k.value.1, escapeKeys);
    if v.None? || v.value.1 == "" then None else
    var entry := Item(k.value.0, v.value.0);
    if v.value.1[0] == '}' then Some(([entry], v.value.1[1..]))
    else if v.value.1[0] != ',' then None
    else
      var r := ReadEntries(v.value.1[1..], escapeKeys);
      if r.None? then None else Some(([entry] + r.value.0, r.value.1))
  }

  function ReadItems(s: string, escapeKeys: bool): (r: Option<(seq<Value>, string)>)
    ensures r.Some? ==> |r.value.1| < |s| && r.value.0 != []
    decreases |s|, 1
  {
    var v := ReadValue(s, escapeKeys);
    if v.None? || v.value.1 == "" then None
    else if v.value.1[0] == ']' then Some(([v.value.0], v.value.1[1..]))
    else if v.value.1[0] != ',' then None
    else
      var r := ReadItems(v.value.1[1..], escapeKeys);
      if r.None? then None else Some(([v.value.0] + r.value.0, r.value.1))
  }

  // -- Reading is sound ------------------------------------------------------------

  lemma {:induction false} Behind(s: string, head: string, body: string, last: string, rest: string)
    requires |head| <= |s| && s[..|head|] == head && s[|head|..] == body + last + rest
    ensures s == head + body + last + rest
  {
    assert s == s[..|head|] + s[|head|..];
    assert head + (body + last + rest) == head + body + last + rest;
  }

  /** Whatever is read prints back to the text it was read from. */
  lemma {:induction false} ReadIsSound(s: string, escapeKeys: bool)
    requires ReadValue(s, escapeKeys).Some?
    ensures var (v, rest) := ReadValue(s, escapeKeys).value; s == Raw(v, escapeKeys) + rest
    decreases |s|, 2
  {
    if ESCAPE <= s {
      var c := Cut(s[|ESCAPE|..], ESCAPE).value;
      Behind(s, ESCAPE, c.0, ESCAPE, c.1);
    } else if s[0] == '{' {
      ReadMapIsSound(s, escapeKeys);
    } else if s[0] == '[' {
      ReadListIsSound(s, escapeKeys);
    } else {
      assert s == s[..TokenLength(s)] + s[TokenLength(s)..];
    }
  }

  lemma {:induction false} ReadMapIsSound(s: string, escapeKeys: bool)
    requires !(ESCAPE <= s) && s != "" && s[0] == '{' && ReadValue(s, escapeKeys).Some?
    ensures var (v, rest) := ReadValue(s, escapeKeys).value; s == Raw(v, escapeKeys) + rest
    decreases |s|, 1
  {
    if |s| > 1 && s[1] == '}' {
      Behind(s, "{", "", "}", s[2..]);
    } else {
      ReadEntriesIsSound(s[1..], escapeKeys);
      var (es, rest) := ReadEntries(s[1..], escapeKeys).value;
      Behind(s, "{", RawEntries(es, escapeKeys), "}", rest);
    }
  }

  lemma {:induction false} ReadListIsSound(s: string, escapeKeys: bool)
    requires !(ESCAPE <= s) && s != "" && s[0] == '[' && ReadValue(s, escapeKeys).Some?
    ensures var (v, rest) := ReadValue(s, escapeKeys).value; s == Raw(v, escapeKeys) + rest
    decreases |s|, 1
  {
    if |s| > 1 && s[1] == ']' {
      Behind(s, "[", "", "]", s[2..]);
    } else {
      ReadItemsIsSound(s[1..], escapeKeys);
      var (items, rest) := ReadItems(s[1..], escapeKeys).value;
      Behind(s, "[", RawItems(items, escapeKeys), "]", rest);
    }
  }

  lemma {:induction false} ReadKeyIsSound(s: string, escapeKeys: bool)
    requires ReadKey(s, escapeKeys).Some?
    ensures var (key, rest) := ReadKey(s, escapeKeys).value;
            s == KeyText(key, escapeKeys) + ":" + rest
  {
    if escapeKeys {
      var c := Cut(s[|ESCAPE|..], ESCAPE).value;
      Behind(s, ESCAPE, c.0, ESCAPE, c.1);
      assert c.1 == ":" + c.1[1..];
    }
  }

  lemma {:induction false} ReadEntriesIsSound(s: string, escapeKeys: bool)
    requires ReadEntries(s, escapeKeys).Some?
    ensures var (es, rest) := ReadEntries(s, escapeKeys).value;
            s == RawEntries(es, escapeKeys) + "}" + rest
    decreases |s|, 3
  {
    var (es, rest) := ReadEntries(s, escapeKeys).value;
    var (key, afterKey) := ReadKey(s, escapeKeys).value;
    var (v, afterValue) := ReadValue(afterKey, escapeKeys).value;
    var head := KeyText(key, escapeKeys) + ":" + Raw(v, escapeKeys);
    assert s == head + afterValue by {
      ReadKeyIsSound(s, escapeKeys);
      ReadIsSound(afterKey, escapeKeys);
      Assoc(KeyText(key, escapeKeys) + ":", Raw(v, escapeKeys), afterValue);
    }
    if afterValue[0] == ',' {
      var (more, _) := ReadEntries(afterValue[1..], escapeKeys).value;
      ReadEntriesIsSound(afterValue[1..], escapeKeys);
      FirstEntryText(Item(key, v), more, escapeKeys);
      CloseTail(s, head, afterValue, RawEntries(more, escapeKeys), "}", rest);
    } else {
      FirstEntryText(Item(key, v), [], escapeKeys);
      CloseLast(s, head, afterValue, "}", rest);
    }
  }

  lemma {:induction false} FirstEntryText(entry: Item<Value>, more: seq<Item<Value>>, escapeKeys: bool)
    ensures RawEntries([entry] + more, escapeKeys)
            == KeyText(entry.key, escapeKeys) + ":" + Raw(entry.value, escapeKeys)
               + (if more == [] then "" else "," + RawEntries(more, escapeKeys))
  {
    assert ([entry] + more)[1..] == more;
  }

  lemma {:induction false} FirstItemText(item: Value, more: seq<Value>, escapeKeys: bool)
    ensures RawItems([item] + more, escapeKeys)
            == Raw(item, escapeKeys) + (if more == [] then "" else "," + RawItems(more, escapeKeys))
  {
    assert ([item] + more)[1..] == more;
  }

  lemma {:induction false} CloseTail(s: string, head: string, tail: string, body: string, last: string, rest: string)
    requires s == head + tail && tail != "" && tail[0] == ',' && tail[1..] == body + last + rest
    ensures s == head + ("," + body) + last + rest
  {
    assert tail == "," + (body + last + rest);
  }

  lemma {:induction false} CloseLast(s: string, head: string, tail: string, last: string, rest: string)
    requires s == head + tail && tail != "" && [tail[0]] == last && tail[1..] == rest
    ensures s == head + "" + last + rest
  {
    assert tail == last + rest;
  }

  lemma {:induction false} ReadItemsIsSound(s: string, escapeKeys: bool)
    requires ReadItems(s, escapeKeys).Some?
    ensures var (items, rest) := ReadItems(s, escapeKeys).value;
            s == RawItems(items, escapeKeys) + "]" + rest
    decreases |s|, 3
  {
    var (items, rest) := ReadItems(s, escapeKeys).value;
    var (v, afterValue) := ReadValue(s, escapeKeys).value;
    var head := Raw(v, escapeKeys);
    ReadIsSound(s, escapeKeys);
    if afterValue[0] == ',' {
      var (more, _) := ReadItems(afterValue[1..], escapeKeys).value;
      ReadItemsIsSound(afterValue[1..], escapeKeys);
      FirstItemText(v, more, escapeKeys);
      CloseTail(s, head, afterValue, RawItems(more, escapeKeys), "]", rest);
    } else {
      FirstItemText(v, [], escapeKeys);
      CloseLast(s, head, afterValue, "]", rest);
    }
  }

  // -- Reading undoes printing -----------------------------------------------------

  ghost predicate KeyPrintable(key: string, escapeKeys: bool) {
    if escapeKeys then !Contains(key, ESCAPE) else ':' !in key
  }

  predicate ScalarPrintable(text: string) {
    && text != "" && text[0] != '{' && text[0] != '[' && !(ESCAPE <= text)
    && (forall i :: 0 <= i < |text| ==> !IsDelimiter(text[i]))
    && text != "true" && text != "false"
  }

  /** The values whose printed text can be told apart from every other: no escape marker in
      a string, no `:` in a bare key, and a mapping's first bare key does not open with `}`,
      which would read as the end of an empty mapping. */
  ghost predicate Printable(v: Value, escapeKeys: bool)
    decreases v
  {
    match v
    case Str(s) => !Contains(s, ESCAPE)
    case Bool(_) => true
    case Map(entries) =>
      && (escapeKeys || entries == [] || !("}" <= entries[0].key))
      && forall e :: e in entries ==> KeyPrintable(e.key, escapeKeys) && Printable(e.value, escapeKeys)
    case List(items) => forall x :: x in items ==> Printable(x, escapeKeys)
    case Scalar(text) => ScalarPrintable(text)
  }

  lemma {:induction false} QuotedText(t: string, rest: string)
    ensures ESCAPE <= ESCAPE + t + ESCAPE + rest
    ensures (ESCAPE + t + ESCAPE + rest)[|ESCAPE|..] == t + ESCAPE + rest
    ensures Cut(t + ESCAPE + rest, ESCAPE) == Some((t, rest)) <==> !Contains(t, ESCAPE)
  {
    CutMarker(t, ESCAPE, rest);
    assert ESCAPE + t + ESCAPE + rest == ESCAPE + (t + ESCAPE + rest);
  }

  lemma {:induction false} KeyRoundTrip(key: string, escapeKeys: bool, rest: string)
    ensures ReadKey(KeyText(key, escapeKeys) + ":" + rest, escapeKeys) == Some((key, rest))
            <==> KeyPrintable(key, escapeKeys)
  {
    if escapeKeys {
      var r := ":" + rest;
      QuotedText(key, r);
      assert ESCAPE + key + ESCAPE + ":" + rest == ESCAPE + key + ESCAPE + r;
      var c := Cut(key + ESCAPE + r, ESCAPE);
      if c.Some? && c.value.0 == key {
        assert (key + ESCAPE + r)[|key| + |ESCAPE|..] == r;
        assert c.value.1 == r;
      }
    } else {
      CutChar(key, ':', rest);
    }
  }

  lemma {:induction false} TokenRoundTrip(text: string, rest: string)
    requires AtDelimiter(rest)
    ensures TokenLength(text + rest) == |text| <==> forall i :: 0 <= i < |text| ==> !IsDelimiter(text[i])
  {
    if text == "" {
      assert text + rest == rest;
    } else if !IsDelimiter(text[0]) {
      assert (text + rest)[1..] == text[1..] + rest;
      TokenRoundTrip(text[1..], rest);
    }
  }

  lemma {:induction false} ReadPrintedScalar(text: string, escapeKeys: bool, rest: string)
    requires AtDelimiter(rest) && ScalarPrintable(text)
    ensures ReadValue(text + rest, escapeKeys) == Some((Scalar(text), rest))
  {
    var s := text + rest;
    TokenRoundTrip(text, rest);
    NotEscaped(text, rest);
    assert s[0] == text[0];
    assert s[..|text|] == text && s[|text|..] == rest;
  }

  lemma {:induction false} NotEscaped(text: string, rest: string)
    requires AtDelimiter(rest) && text != ""
    ensures ESCAPE <= text + rest ==> ESCAPE <= text
  {
    var s := text + rest;
    assert |text| < |s| ==> s[|text|] == rest[0];
    assert ESCAPE <= s && |text| >= |ESCAPE| ==> s[..|ESCAPE|] == text[..|ESCAPE|];
  }

  lemma {:induction false} BodyOpening(entries: seq<Item<Value>>, escapeKeys: bool, rest: string)
    requires entries != []
    ensures var s := RawEntries(entries, escapeKeys) + "}" + rest;
            s[0] == '}' <==> !escapeKeys && "}" <= entries[0].key
  {
    var key := KeyText(entries[0].key, escapeKeys);
    var s := RawEntries(entries, escapeKeys) + "}" + rest;
    assert (key + ":") <= RawEntries(entries, escapeKeys);
    assert s[0] == (key + ":")[0];
  }

  lemma {:induction false} ReadPrinted(v: Value, escapeKeys: bool, rest: string)
    requires AtDelimiter(rest) && Printable(v, escapeKeys)
    ensures ReadValue(Raw(v, escapeKeys) + rest, escapeKeys) == Some((v, rest))
    decreases v, 1
  {
    match v
    case Str(s) => QuotedText(s, rest);
    case Bool(b) => ReadPrintedBool(b, escapeKeys, rest);
    case Map(entries) => ReadPrintedMap(v, escapeKeys, rest);
    case List(items) => ReadPrintedList(v, escapeKeys, rest);
    case Scalar(text) => ReadPrintedScalar(text, escapeKeys, rest);
  }

  lemma {:induction false} ReadPrintedBool(b: bool, escapeKeys: bool, rest: string)
    requires AtDelimiter(rest)
    ensures ReadValue((if b then "true" else "false") + rest, escapeKeys) == Some((Bool(b), rest))
  {
    var text := if b then "true" else "false";
    var s := text + rest;
    TokenRoundTrip(text, rest);
    assert s[0] == text[0];
    assert s[..|text|] == text && s[|text|..] == rest;
  }

  lemma {:induction false} ReadPrintedMap(v: Value, escapeKeys: bool, rest: string)
    requires v.Map? && Printable(v, escapeKeys)
    ensures ReadValue(Raw(v, escapeKeys) + rest, escapeKeys) == Some((v, rest))
    decreases v, 0
  {
    var s := Raw(v, escapeKeys) + rest;
    assert s[0] == '{';
    if v.entries == [] {
      assert Raw(v, escapeKeys) == "{" + "" + "}";
      assert s[1] == '}' && s[2..] == rest;
    } else {
      assert s[1..] == RawEntries(v.entries, escapeKeys) + "}" + rest;
      BodyOpening(v.entries, escapeKeys, rest);
      ReadPrintedEntries(v.entries, escapeKeys, rest);
    }
  }

  lemma {:induction false} ReadPrintedEntries(entries: seq<Item<Value>>, escapeKeys: bool, rest: string)
    requires entries != []
    requires forall e :: e in entries ==> KeyPrintable(e.key, escapeKeys) && Printable(e.value, escapeKeys)
    ensures ReadEntries(RawEntries(entries, escapeKeys) + "}" + rest, escapeKeys) == Some((entries, rest))
    decreases entries, 1
  {
    ReadPrintedPairs(entries, escapeKeys, rest);
    EntriesText(entries, escapeKeys, rest);
  }

  lemma {:induction false} ReadPrintedPairs(entries: seq<Item<Value>>, escapeKeys: bool, rest: string)
    requires entries != []
    requires forall e :: e in entries ==> KeyPrintable(e.key, escapeKeys) && Printable(e.value, escapeKeys)
    ensures ReadEntries(KeyText(entries[0].key, escapeKeys) + ":"
                        + (Raw(entries[0].value, escapeKeys) + EntriesTail(entries, escapeKeys, rest)), escapeKeys)
            == Some((entries, rest))
    decreases entries, 0
  {
    var e := entries[0];
    assert e in entries;
    var tail := EntriesTail(entries, escapeKeys, rest);
    var value := Raw(e.value, escapeKeys) + tail;
    KeyRoundTrip(e.key, escapeKeys, value);
    ReadPrinted(e.value, escapeKeys, tail);
    ReadFirstEntry(KeyText(e.key, escapeKeys) + ":" + value, escapeKeys, e, value, tail);
    if |entries| == 1 {
      assert entries == [e];
    } else {
      ReadPrintedEntries(entries[1..], escapeKeys, rest);
      assert entries == [e] + entries[1..];
    }
  }

  lemma {:induction false} ReadFirstEntry(s: string, escapeKeys: bool, e: Item<Value>, afterKey: string, tail: string)
    requires ReadKey(s, escapeKeys) == Some((e.key, afterKey))
    requires ReadValue(afterKey, escapeKeys) == Some((e.value, tail)) && tail != ""
    ensures tail[0] == '}' ==> ReadEntries(s, escapeKeys) == Some(([e], tail[1..]))
    ensures tail[0] == ',' && ReadEntries(tail[1..], escapeKeys).Some? ==>
              var (more, rest) := ReadEntries(tail[1..], escapeKeys).value;
              ReadEntries(s, escapeKeys) == Some(([e] + more, rest))
  {
  }

  lemma {:induction false} ReadFirstItem(s: string, escapeKeys: bool, v: Value, tail: string)
    requires ReadValue(s, escapeKeys) == Some((v, tail)) && tail != ""
    ensures tail[0] == ']' ==> ReadItems(s, escapeKeys) == Some(([v], tail[1..]))
    ensures tail[0] == ',' && ReadItems(tail[1..], escapeKeys).Some? ==>
              var (more, rest) := ReadItems(tail[1..], escapeKeys).value;
              ReadItems(s, escapeKeys) == Some(([v] + more, rest))
  {
  }

  /** The text behind the first entry, up to the end. */
  function EntriesTail(entries: seq<Item<Value>>, escapeKeys: bool, rest: string): (tail: string)
    requires entries != []
    ensures AtDelimiter(tail) && tail != ""
    ensures |entries| == 1 ==> tail[0] == '}' && tail[1..] == rest
    ensures |entries| > 1 ==> tail[0] == ',' && tail[1..] == RawEntries(entries[1..], escapeKeys) + "}" + rest
  {
    if |entries| == 1 then "}" + rest else "," + (RawEntries(entries[1..], escapeKeys) + "}" + rest)
  }

  lemma {:induction false} EntriesText(entries: seq<Item<Value>>, escapeKeys: bool, rest: string)
    requires entries != []
    ensures RawEntries(entries, escapeKeys) + "}" + rest
            == KeyText(entries[0].key, escapeKeys) + ":"
               + (Raw(entries[0].value, escapeKeys) + EntriesTail(entries, escapeKeys, rest))
  {
    var head := KeyText(entries[0].key, escapeKeys) + ":";
    var value := Raw(entries[0].value, escapeKeys);
    if |entries| == 1 {
      assert head + value + "" + "}" + rest == head + (value + ("}" + rest));
    } else {
      Regroup(head, value, RawEntries(entries[1..], escapeKeys), "}", rest);
    }
  }

  lemma {:induction false} Regroup(a: string, b: string, c: string, d: string, e: string)
    ensures a + b + ("," + c) + d + e == a + (b + ("," + (c + d + e)))
  {
  }

  function ItemsTail(items: seq<Value>, escapeKeys: bool, rest: string): (tail: string)
    requires items != []
    ensures AtDelimiter(tail) && tail != ""
    ensures |items| == 1 ==> tail[0] == ']' && tail[1..] == rest
    ensures |items| > 1 ==> tail[0] == ',' && tail[1..] == RawItems(items[1..], escapeKeys) + "]" + rest
  {
    if |items| == 1 then "]" + rest else "," + (RawItems(items[1..], escapeKeys) + "]" + rest)
  }

  lemma {:induction false} ItemsText(items: seq<Value>, escapeKeys: bool, rest: string)
    requires items != []
    ensures RawItems(items, escapeKeys) + "]" + rest
            == Raw(items[0], escapeKeys) + ItemsTail(items, escapeKeys, rest)
  {
    var value := Raw(items[0], escapeKeys);
    if |items| == 1 {
      RegroupLast(value, "]", rest);
    } else {
      RegroupMore(value, RawItems(items[1..], escapeKeys), "]", rest);
    }
  }

  lemma RegroupLast(a: string, d: string, e: string)
    ensures a + "" + d + e == a + (d + e)
  {
  }

  lemma RegroupMore(a: string, c: string, d: string, e: string)
    ensures a + ("," + c) + d + e == a + ("," + (c + d + e))
  {
  }

  lemma {:induction false} ReadPrintedList(v: Value, escapeKeys: bool, rest: string)
    requires v.List? && Printable(v, escapeKeys)
    ensures ReadValue(Raw(v, escapeKeys) + rest, escapeKeys) == Some((v, rest))
    decreases v, 0
  {
    var s := Raw(v, escapeKeys) + rest;
    assert s[0] == '[';
    if v.items == [] {
      assert Raw(v, escapeKeys) == "[" + "" + "]";
      assert s[1] == ']' && s[2..] == rest;
    } else {
      assert s[1..] == RawItems(v.items, escapeKeys) + "]" + rest;
      assert v.items[0] in v.items;
      ItemsText(v.items, escapeKeys, rest);
      ValueOpening(v.items[0], escapeKeys, ItemsTail(v.items, escapeKeys, rest));
      ReadPrintedItems(v.items, escapeKeys, rest);
    }
  }

  lemma {:induction false} ValueOpening(v: Value, escapeKeys: bool, rest: string)
    requires Printable(v, escapeKeys)
    ensures var s := Raw(v, escapeKeys) + rest; s != "" && s[0] != ']'
  {
    assert Raw(v, escapeKeys) != "";
    assert (Raw(v, escapeKeys) + rest)[0] == Raw(v, escapeKeys)[0];
  }

  lemma {:induction false} ReadPrintedItems(items: seq<Value>, escapeKeys: bool, rest: string)
    requires items != [] && forall x :: x in items ==> Printable(x, escapeKeys)
    ensures ReadItems(RawItems(items, escapeKeys) + "]" + rest, escapeKeys) == Some((items, rest))
    decreases items
  {
    assert items[0] in items;
    var tail := ItemsTail(items, escapeKeys, rest);
    ItemsText(items, escapeKeys, rest);
    ReadPrinted(items[0], escapeKeys, tail);
    ReadFirstItem(Raw(items[0], escapeKeys) + tail, escapeKeys, items[0], tail);
    if |items| == 1 {
      assert items == [items[0]];
    } else {
      ReadPrintedItems(items[1..], escapeKeys, rest);
      assert items == [items[0]] + items[1..];
    }
  }

  // -- ... and exactly for printable values ----------------------------------------

  lemma {:induction false} SameTail(a: string, b: string, c: string)
    requires a + b == a + c
    ensures b == c
  {
    assert b == (a + b)[|a|..] && c == (a + c)[|a|..];
  }

  lemma {:induction false} ReadBackScalar(text: string, escapeKeys: bool, rest: string)
    requires AtDelimiter(rest)
    requires ReadValue(text + rest, escapeKeys) == Some((Scalar(text), rest))
    ensures ScalarPrintable(text)
  {
    var s := text + rest;
    TokenRoundTrip(text, rest);
    assert s[..TokenLength(s)] == text;
    assert s[0] == text[0];
    assert ESCAPE <= text ==> ESCAPE <= s;
  }

  lemma {:induction false} ReadBack(v: Value, escapeKeys: bool, rest: string)
    requires AtDelimiter(rest)
    requires ReadValue(Raw(v, escapeKeys) + rest, escapeKeys) == Some((v, rest))
    ensures Printable(v, escapeKeys)
    decreases v, 1
  {
    match v
    case Str(s) => QuotedText(s, rest);
    case Bool(_) =>
    case Map(_) => ReadBackMap(v, escapeKeys, rest);
    case List(_) => ReadBackList(v, escapeKeys, rest);
    case Scalar(text) => ReadBackScalar(text, escapeKeys, rest);
  }

  lemma {:induction false} ReadBackMap(v: Value, escapeKeys: bool, rest: string)
    requires v.Map?
    requires ReadValue(Raw(v, escapeKeys) + rest, escapeKeys) == Some((v, rest))
    ensures Printable(v, escapeKeys)
    decreases v, 0
  {
    if v.entries != [] {
      var s := Raw(v, escapeKeys) + rest;
      assert s[0] == '{';
      assert s[1..] == RawEntries(v.entries, escapeKeys) + "}" + rest;
      BodyOpening(v.entries, escapeKeys, rest);
      ReadBackEntries(v.entries, escapeKeys, rest);
    }
  }

  lemma {:induction false} ReadBackEntries(entries: seq<Item<Value>>, escapeKeys: bool, rest: string)
    requires entries != []
    requires ReadEntries(RawEntries(entries, escapeKeys) + "}" + rest, escapeKeys) == Some((entries, rest))
    ensures forall e :: e in entries ==> KeyPrintable(e.key, escapeKeys) && Printable(e.value, escapeKeys)
    decreases entries
  {
    var s := RawEntries(entries, escapeKeys) + "}" + rest;
    var e := entries[0];
    var tail := EntriesTail(entries, escapeKeys, rest);
    var value := Raw(e.value, escapeKeys);
    var (key, afterKey) := ReadKey(s, escapeKeys).value;
    var (w, afterValue) := ReadValue(afterKey, escapeKeys).value;
    assert key == e.key && w == e.value;
    assert afterKey == value + tail by {
      EntriesText(entries, escapeKeys, rest);
      ReadKeyIsSound(s, escapeKeys);
      SameTail(KeyText(key, escapeKeys) + ":", afterKey, value + tail);
    }
    assert KeyPrintable(key, escapeKeys) by {
      EntriesText(entries, escapeKeys, rest);
      KeyRoundTrip(key, escapeKeys, value + tail);
    }
    assert afterValue == tail by {
      ReadIsSound(afterKey, escapeKeys);
      SameTail(value, afterValue, tail);
    }
    ReadBack(e.value, escapeKeys, tail);
    if |entries| > 1 {
      assert entries == [e] + entries[1..];
      ReadBackEntries(entries[1..], escapeKeys, rest);
    }
  }

  lemma {:induction false} ReadBackList(v: Value, escapeKeys: bool, rest: string)
    requires v.List?
    requires ReadValue(Raw(v, escapeKeys) + rest, escapeKeys) == Some((v, rest))
    ensures Printable(v, escapeKeys)
    decreases v, 0
  {
    if v.items != [] {
      var s := Raw(v, escapeKeys) + rest;
      assert s[0] == '[';
      assert s[1..] == RawItems(v.items, escapeKeys) + "]" + rest;
      ReadBackItems(v.items, escapeKeys, rest);
    }
  }

  lemma {:induction false} ReadBackItems(items: seq<Value>, escapeKeys: bool, rest: string)
    requires items != []
    requires ReadItems(RawItems(items, escapeKeys) + "]" + rest, escapeKeys) == Some((items, rest))
    ensures forall x :: x in items ==> Printable(x, escapeKeys)
    decreases items
  {
    var s := RawItems(items, escapeKeys) + "]" + rest;
    var tail := ItemsTail(items, escapeKeys, rest);
    var (v, afterValue) := ReadValue(s, escapeKeys).value;
    assert v == items[0];
    ItemsText(items, escapeKeys, rest);
    assert afterValue == tail by {
      ReadIsSound(s, escapeKeys);
      SameTail(Raw(v, escapeKeys), afterValue, tail);
    }
    ReadBack(v, escapeKeys, tail);
    if |items| > 1 {
      assert items == [v] + items[1..];
      ReadBackItems(items[1..], escapeKeys, rest);
    }
  }

  // -- Main results ----------------------------------------------------------------

  /** Reading the printed text, followed by nothing or by a delimiter, gives back the value
      with its mappings sorted, and what followed: for the printable values, and no others. */
  lemma {:induction false} FormatRoundTrip(v: Value, escapeKeys: bool, rest: string)
    requires AtDelimiter(rest)
    ensures ReadValue(Format(v, escapeKeys) + rest, escapeKeys) == Some((Canon(v), rest))
            <==> Printable(Canon(v), escapeKeys)
    ensures Reordered(v, Canon(v))
  {
    FormatIsRawCanon(v, escapeKeys);
    CanonReorders(v);
    if Printable(Canon(v), escapeKeys) {
      ReadPrinted(Canon(v), escapeKeys, rest);
    } else if ReadValue(Format(v, escapeKeys) + rest, escapeKeys) == Some((Canon(v), rest)) {
      ReadBack(Canon(v), escapeKeys, rest);
    }
  }

  /** No reader at all can tell these two apart: an empty mapping followed by `,a:1}`, and a
      mapping whose only, bare key is `},a`. */
  lemma {:induction false} BraceKeyIsAmbiguous()
    ensures var v := Map([]);
            var w := Map([Item("},a", Scalar("1"))]);
            Format(v, false) + ",a:1}" == Format(w, false)
  {
    var items := [Item("},a", Scalar("1"))];
    assert Sort(items) == items;
    var w := Map(items);
    assert FormatEntries(items, false, w) == "},a" + ":" + "1" + "";
    assert Sort<Value>([]) == [];
  }

  /** Two items whose keys differ only in case do show their order. */
  lemma {:induction false} CaseTwinsShowOrder(a: Item<Value>, b: Item<Value>, escapeKeys: bool)
    requires a.key != b.key && Fold(a.key) == Fold(b.key)
    requires Printable(Map([Item(a.key, Canon(a.value)), Item(b.key, Canon(b.value))]), escapeKeys)
    requires Printable(Map([Item(b.key, Canon(b.value)), Item(a.key, Canon(a.value))]), escapeKeys)
    ensures Format(Map([a, b]), escapeKeys) != Format(Map([b, a]), escapeKeys)
  {
    TwinsKeepOrder(a, b);
    TwinsKeepOrder(b, a);
    FormatRoundTrip(Map([a, b]), escapeKeys, "");
    FormatRoundTrip(Map([b, a]), escapeKeys, "");
  }

  lemma {:induction false} TwinsKeepOrder(a: Item<Value>, b: Item<Value>)
    requires Fold(a.key) == Fold(b.key)
    ensures Canon(Map([a, b])) == Map([Item(a.key, Canon(a.value)), Item(b.key, Canon(b.value))])
  {
    LexTotal(Fold(a.key), Fold(a.key));
    assert [a, b][1..] == [b] && [b][1..] == [];
    assert Sort([b]) == [b];
    assert Sort([a, b]) == [a, b];
    var v := Map([a, b]);
    assert CanonEntries([b], v) == [Item(b.key, Canon(b.value))];
  }

  // -- Markers in printed text -----------------------------------------------------

  /** A marker none of the printed punctuation can be part of. */
  predicate Foreign(m: string) {
    && IsMarker(m) && m != ESCAPE
    && ',' !in m && ':' !in m && '{' !in m && '}' !in m && '[' !in m && ']' !in m
  }

  /** No string, key or scalar inside holds the marker. */
  ghost predicate TextsFree(v: Value, m: string)
    decreases v
  {
    match v
    case Str(s) => !Contains(s, m)
    case Bool(_) => true
    case Map(entries) => forall e :: e in entries ==> !Contains(e.key, m) && TextsFree(e.value, m)
    case List(items) => forall x :: x in items ==> TextsFree(x, m)
    case Scalar(text) => !Contains(text, m)
  }

  lemma {:induction false} QuotedFree(t: string, m: string)
    requires Foreign(m) && !Contains(t, m)
    ensures !Contains(ESCAPE + t + ESCAPE, m)
  {
    EscapeIsMarker();
    MarkerIsFree(ESCAPE, m);
    ContainsBehindMarker(ESCAPE, t, m);
    ContainsConcat(ESCAPE + t, ESCAPE, m);
  }

  lemma {:induction false} PunctuationFree(a: string, c: char, b: string, m: string)
    requires Foreign(m) && c in ",:{}[]"
    ensures Contains(a + [c] + b, m) ==> Contains(a, m) || Contains(b, m)
  {
    var s := [c] + b;
    assert c !in m;
    forall i | 0 <= i <= |s| && m <= s[i..] ensures Contains(b, m) {
      CharsAt(s, i, m);
      assert i > 0;
      assert s[i..] == b[i - 1..];
    }
    assert Stops(s, m);
    ContainsConcat(a, s, m);
    assert a + [c] + b == a + s;
  }

  /** Printing makes no foreign marker: one shows only if some text inside holds it. */
  lemma {:induction false} FormatFree(v: Value, escapeKeys: bool, m: string)
    requires Foreign(m) && TextsFree(v, m)
    ensures !Contains(Format(v, escapeKeys), m)
    decreases v
  {
    match v
    case Str(s) => QuotedFree(s, m);
    case Bool(b) => PlainIsFree(Format(v, escapeKeys), m);
    case Map(entries) =>
      SortPermutes(entries);
      var body := FormatEntries(Sort(entries), escapeKeys, v);
      FormatEntriesFree(Sort(entries), escapeKeys, v, m);
      BracketFree('{', body, '}', m);
    case List(items) =>
      FormatItemsFree(items, escapeKeys, m);
      BracketFree('[', FormatItems(items, escapeKeys), ']', m);
    case Scalar(text) =>
  }

  lemma {:induction false} BracketFree(open: char, body: string, close: char, m: string)
    requires Foreign(m) && open in ",:{}[]" && close in ",:{}[]" && !Contains(body, m)
    ensures !Contains([open] + body + [close], m)
  {
    PlainIsFree("", m);
    PunctuationFree(body, close, "", m);
    PunctuationFree("", open, body + [close] + "", m);
    assert "" + [open] + (body + [close] + "") == [open] + body + [close];
  }

  lemma {:induction false} FormatEntriesFree(entries: seq<Item<Value>>, escapeKeys: bool, of: Value, m: string)
    requires Foreign(m) && TextsFree(of, m)
    requires of.Map? && forall e :: e in entries ==> e in of.entries
    ensures !Contains(FormatEntries(entries, escapeKeys, of), m)
    decreases of, |entries|
  {
    if entries == [] {
      PlainIsFree("", m);
    } else {
      var e := entries[0];
      assert e in entries;
      var key, value := KeyText(e.key, escapeKeys), Format(e.value, escapeKeys);
      if escapeKeys {
        QuotedFree(e.key, m);
      }
      FormatFree(e.value, escapeKeys, m);
      PunctuationFree(key, ':', value, m);
      if |entries| == 1 {
        assert key + ":" + value + "" == key + ":" + value;
      } else {
        var more := FormatEntries(entries[1..], escapeKeys, of);
        FormatEntriesFree(entries[1..], escapeKeys, of, m);
        PunctuationFree(key + ":" + value, ',', more, m);
        assert key + ":" + value + ("," + more) == key + ":" + value + "," + more;
      }
    }
  }

  lemma {:induction false} FormatItemsFree(items: seq<Value>, escapeKeys: bool, m: string)
    requires Foreign(m) && forall x :: x in items ==> TextsFree(x, m)
    ensures !Contains(FormatItems(items, escapeKeys), m)
    decreases items
  {
    if items == [] {
      PlainIsFree("", m);
    } else {
      var value := Format(items[0], escapeKeys);
      FormatFree(items[0], escapeKeys, m);
      if |items| == 1 {
        assert value + "" == value;
      } else {
        var more := FormatItems(items[1..], escapeKeys);
        FormatItemsFree(items[1..], escapeKeys, m);
        PunctuationFree(value, ',', more, m);
        assert value + ("," + more) == value + "," + more;
      }
    }
  }
}
