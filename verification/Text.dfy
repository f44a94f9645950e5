/** Strings as the chat template and the response schema handle them: finding a marker,
    cutting at its first occurrence, Python's `split` and `strip`.

    Every special marker is one angle-bracket word: it opens with `<`, closes with `>`
    and has no angle bracket in between.  Two occurrences of markers therefore never
    overlap, which is what all decoding below rests on. */
module Text {
  import opened Options

  predicate IsMarker(m: string) {
    && |m| >= 2 && m[0] == '<' && m[|m| - 1] == '>'
    && forall i :: 0 < i < |m| - 1 ==> m[i] != '<' && m[i] != '>'
  }

  ghost predicate Contains(s: string, p: string) {
    exists i :: 0 <= i <= |s| && p <= s[i..]
  }

  /** Nothing follows, or a marker does. */
  predicate AtMarker(s: string) {
    s == "" || s[0] == '<'
  }

  lemma Assoc<T>(a: seq<T>, b: seq<T>, c: seq<T>)
    ensures a + b + c == a + (b + c)
  {
  }

  /** Where p starts in s, the characters of s are those of p. */
  lemma CharsAt(s: string, i: nat, p: string)
    requires i <= |s| && p <= s[i..]
    ensures i + |p| <= |s|
    ensures forall k :: i <= k < i + |p| ==> s[k] == p[k - i]
  {
    forall k | i <= k < i + |p| ensures s[k] == p[k - i] {
      assert s[i..][k - i] == s[k];
    }
  }

  /** Two markers never overlap: at one place there is at most one marker, and no marker
      starts strictly inside another. */
  lemma {:induction false} MarkersDoNotOverlap(s: string, m: string, n: string, i: nat, j: nat)
    requires IsMarker(m) && IsMarker(n)
    requires i <= j < i + |m| && j <= |s| && m <= s[i..] && n <= s[j..]
    ensures i == j && m == n
  {
    CharsAt(s, i, m);
    CharsAt(s, j, n);
    assert s[j] == '<' && s[i + |m| - 1] == '>' && s[j + |n| - 1] == '>';
  }

  /** What u opens with cannot continue the marker m. */
  predicate Stops(u: string, m: string) {
    u == "" || m == "" || u[0] !in m[1..]
  }

  /** A marker that starts in t, where what follows t cannot continue it, ends in t. */
  lemma {:induction false} NoSpan(t: string, u: string, m: string, i: nat)
    requires IsMarker(m) && i < |t|
    requires Stops(u, m) || AtMarker(u)
    ensures m <= (t + u)[i..] ==> i + |m| <= |t| && m <= t[i..]
  {
    var s := t + u;
    assert u != "" ==> s[|t|] == u[0];
    if m <= s[i..] {
      CharsAt(s, i, m);
      assert forall k :: 0 < k < |m| ==> m[k] == m[1..][k - 1];
      assert i + |m| <= |t|;
      assert t[i..][..|m|] == s[i..][..|m|];
    }
  }

  lemma {:induction false} ContainsEither(a: string, b: string, m: string)
    requires Contains(a, m) || Contains(b, m)
    ensures Contains(a + b, m)
  {
    var s := a + b;
    if i :| 0 <= i <= |a| && m <= a[i..] {
      assert s[i..] == a[i..] + b;
    } else {
      var i :| 0 <= i <= |b| && m <= b[i..];
      assert s[|a| + i..] == b[i..];
    }
  }

  /** Putting a text behind another makes no new marker when it cannot continue one. */
  lemma {:induction false} ContainsConcat(a: string, b: string, m: string)
    requires IsMarker(m)
    requires Stops(b, m) || AtMarker(b)
    ensures Contains(a + b, m) <==> Contains(a, m) || Contains(b, m)
  {
    var s := a + b;
    forall i | 0 <= i <= |s| && m <= s[i..] ensures Contains(a, m) || Contains(b, m) {
      if i >= |a| {
        assert s[i..] == b[i - |a|..];
      } else {
        NoSpan(a, b, m, i);
      }
    }
    if Contains(a, m) || Contains(b, m) {
      ContainsEither(a, b, m);
    }
  }

  /** The same behind a text that ends a marker: none runs on from there. */
  lemma {:induction false} ContainsBehindMarker(a: string, b: string, m: string)
    requires IsMarker(m) && a != "" && a[|a| - 1] == '>'
    ensures Contains(a + b, m) <==> Contains(a, m) || Contains(b, m)
  {
    var s := a + b;
    assert s[|a| - 1] == '>';
    forall i | 0 <= i <= |s| && m <= s[i..] ensures Contains(a, m) || Contains(b, m) {
      CharsAt(s, i, m);
      if i >= |a| {
        assert s[i..] == b[i - |a|..];
      } else {
        assert i + |m| <= |a|;
        assert a[i..][..|m|] == s[i..][..|m|];
      }
    }
    if Contains(a, m) || Contains(b, m) {
      ContainsEither(a, b, m);
    }
  }

  /** A text without `<` holds no marker. */
  lemma {:induction false} PlainIsFree(a: string, m: string)
    requires IsMarker(m) && '<' !in a
    ensures !Contains(a, m)
  {
    forall i | 0 <= i <= |a| ensures !(m <= a[i..]) {
      assert a[i..] != "" ==> a[i..][0] == a[i];
    }
  }

  /** A text without `<` in front adds no marker. */
  lemma {:induction false} PlainInFront(a: string, b: string, m: string)
    requires IsMarker(m) && '<' !in a
    ensures Contains(a + b, m) <==> Contains(b, m)
  {
    var s := a + b;
    forall i | 0 <= i <= |s| && m <= s[i..] ensures Contains(b, m) {
      CharsAt(s, i, m);
      assert s[i] == '<';
      assert s[i..] == b[i - |a|..];
    }
    if Contains(b, m) {
      ContainsEither(a, b, m);
    }
  }

  /** A marker holds no marker but itself. */
  lemma {:induction false} MarkerIsFree(n: string, m: string)
    requires IsMarker(m) && IsMarker(n)
    ensures Contains(n, m) ==> m == n
  {
    if Contains(n, m) {
      var i :| 0 <= i <= |n| && m <= n[i..];
      assert n[0..] == n;
      MarkersDoNotOverlap(n, n, m, 0, i);
    }
  }

  lemma Tails(s: string)
    requires s != ""
    ensures forall i :: 1 <= i <= |s| ==> s[i..] == s[1..][i - 1..]
  {
  }

  /** Cut s at the first occurrence of m, the marker itself dropped. */
  function Cut(s: string, m: string): (r: Option<(string, string)>)
    requires m != ""
    ensures r.None? ==> !Contains(s, m)
    ensures r.Some? ==> s == r.value.0 + m + r.value.1
    ensures r.Some? ==> forall i :: 0 <= i < |r.value.0| ==> !(m <= s[i..])
  {
    if m <= s then Some(("", s[|m|..]))
    else if s == "" then None
    else
      var t := Cut(s[1..], m);
      Tails(s);
      if t.None? then None else Some(([s[0]] + t.value.0, t.value.1))
  }

  /** There is a cut exactly when the marker occurs. */
  lemma {:induction false} CutFindsMarker(s: string, m: string)
    requires m != ""
    ensures Cut(s, m).Some? <==> Contains(s, m)
  {
    var r := Cut(s, m);
    if r.Some? {
      assert s[|r.value.0|..] == m + r.value.1;
    }
  }

  /** The place of the first occurrence determines the cut. */
  lemma {:induction false} CutAt(a: string, b: string, m: string)
    requires m != ""
    requires forall i :: 0 <= i < |a| ==> !(m <= (a + m + b)[i..])
    ensures Cut(a + m + b, m) == Some((a, b))
  {
    var s := a + m + b;
    assert s[|a|..] == m + b;
    assert m <= s[|a|..];
    var r := Cut(s, m);
    assert r.Some?;
    var (x, y) := r.value;
    assert s[|x|..] == m + y;
    assert m <= s[|x|..];
    assert |x| == |a|;
    assert x == s[..|x|] == a;
    assert y == s[|x| + |m|..] == b;
  }

  /** Cutting at a marker undoes putting it there, exactly when the text before is free of it. */
  lemma {:induction false} CutMarker(t: string, m: string, rest: string)
    requires IsMarker(m)
    ensures Cut(t + m + rest, m) == Some((t, rest)) <==> !Contains(t, m)
  {
    if Contains(t, m) {
      var i :| 0 <= i <= |t| && m <= t[i..];
      assert (t + m + rest)[i..] == t[i..] + (m + rest);
      assert m <= (t + m + rest)[i..];
      assert i < |t|;
    } else {
      forall i | 0 <= i < |t| ensures !(m <= (t + m + rest)[i..]) {
        NoSpan(t, m + rest, m, i);
        assert t + (m + rest) == t + m + rest;
      }
      CutAt(t, rest, m);
    }
  }

  /** The same for a one-character separator. */
  lemma {:induction false} CutChar(t: string, c: char, rest: string)
    ensures Cut(t + [c] + rest, [c]) == Some((t, rest)) <==> c !in t
  {
    var s := t + [c] + rest;
    if c in t {
      var i :| 0 <= i < |t| && t[i] == c;
      assert [c] <= s[i..];
    } else {
      forall i | 0 <= i < |t| ensures !([c] <= s[i..]) {
        assert s[i..][0] == t[i];
      }
      CutAt(t, rest, [c]);
    }
  }

  /** Python's `s.split(m)`. */
  function Split(s: string, m: string): (parts: seq<string>)
    requires m != ""
    ensures |parts| >= 1
    ensures forall p :: p in parts ==> !Contains(p, m)
    decreases |s|
  {
    var c := Cut(s, m);
    if c.None? then [s] else
    assert forall i :: 0 <= i <= |c.value.0| ==> s[i..] == c.value.0[i..] + (m + c.value.1);
    assert !Contains(c.value.0, m);
    [c.value.0] + Split(c.value.1, m)
  }

  /** `sep.join(parts)`. */
  function Join(parts: seq<string>, sep: string): string {
    if parts == [] then ""
    else if |parts| == 1 then parts[0]
    else parts[0] + sep + Join(parts[1..], sep)
  }

  /** Joining with the separator undoes splitting. */
  lemma {:induction false} JoinSplit(s: string, m: string)
    requires m != ""
    ensures Join(Split(s, m), m) == s
    decreases |s|
  {
    var c := Cut(s, m);
    if c.Some? {
      JoinSplit(c.value.1, m);
      assert Split(s, m)[1..] == Split(c.value.1, m);
    }
  }

  /** The texts of all elements, one behind the other. */
  function Each<T>(xs: seq<T>, show: T -> string): string {
    if xs == [] then "" else show(xs[0]) + Each(xs[1..], show)
  }

  lemma {:induction false} EachConcat<T>(xs: seq<T>, ys: seq<T>, show: T -> string)
    ensures Each(xs + ys, show) == Each(xs, show) + Each(ys, show)
  {
    if xs == [] {
      assert xs + ys == ys;
    } else {
      EachConcat(xs[1..], ys, show);
      assert (xs + ys)[1..] == xs[1..] + ys && (xs + ys)[0] == xs[0];
      Assoc(show(xs[0]), Each(xs[1..], show), Each(ys, show));
    }
  }

  lemma {:induction false} EachOne<T>(x: T, show: T -> string)
    ensures Each([x], show) == show(x)
  {
    var xs := [x];
    assert xs[1..] == [];
  }

  /** One round of a loop that prints. */
  lemma {:induction false} EachRound<T>(xs: seq<T>, i: nat, show: T -> string)
    requires i < |xs|
    ensures Each(xs[..i + 1], show) == Each(xs[..i], show) + show(xs[i])
  {
    var last := [xs[i]];
    assert last[1..] == [];
    assert xs[..i + 1] == xs[..i] + last;
    EachConcat(xs[..i], last, show);
  }

  // -- Whitespace -----------------------------------------------------------------

  /** The characters `str.strip` removes. */
  predicate IsSpace(c: char) {
    var n := c as int;
    || 0x09 <= n <= 0x0D || 0x1C <= n <= 0x20 || n == 0x85 || n == 0xA0 || n == 0x1680
    || 0x2000 <= n <= 0x200A || n == 0x2028 || n == 0x2029 || n == 0x202F || n == 0x205F || n == 0x3000
  }

  function TrimLeft(s: string): string {
    if s != "" && IsSpace(s[0]) then TrimLeft(s[1..]) else s
  }

  function TrimRight(s: string): string {
    if s != "" && IsSpace(s[|s| - 1]) then TrimRight(s[..|s| - 1]) else s
  }

  function Trim(s: string): string {
    TrimRight(TrimLeft(s))
  }

  predicate Blank(s: string) {
    forall i :: 0 <= i < |s| ==> IsSpace(s[i])
  }

  predicate Trimmed(s: string) {
    s == "" || (!IsSpace(s[0]) && !IsSpace(s[|s| - 1]))
  }

  lemma {:induction false} TrimLeftSplits(s: string) returns (a: string)
    ensures s == a + TrimLeft(s) && Blank(a)
    ensures TrimLeft(s) == "" || !IsSpace(TrimLeft(s)[0])
  {
    if s != "" && IsSpace(s[0]) {
      var b := TrimLeftSplits(s[1..]);
      a := [s[0]] + b;
    } else {
      a := "";
    }
  }

  lemma {:induction false} TrimRightSplits(s: string) returns (b: string)
    ensures s == TrimRight(s) + b && Blank(b)
    ensures TrimRight(s) == "" || !IsSpace(TrimRight(s)[|TrimRight(s)| - 1])
  {
    if s != "" && IsSpace(s[|s| - 1]) {
      var a := TrimRightSplits(s[..|s| - 1]);
      b := a + [s[|s| - 1]];
    } else {
      b := "";
    }
  }

  /** What trimming means: blanks around, no blank at either end of the result. */
  lemma {:induction false} TrimSplits(s: string) returns (a: string, b: string)
    ensures s == a + Trim(s) + b && Blank(a) && Blank(b) && Trimmed(Trim(s))
  {
    a := TrimLeftSplits(s);
    b := TrimRightSplits(TrimLeft(s));
    if Trim(s) != "" {
      assert Trim(s)[0] == TrimLeft(s)[0];
    }
  }

  lemma {:induction false} TrimmedStays(s: string)
    requires Trimmed(s)
    ensures Trim(s) == s
  {
  }

  /** Trimming creates no marker. */
  lemma {:induction false} TrimKeepsFree(s: string, m: string)
    requires !Contains(s, m)
    ensures !Contains(Trim(s), m)
  {
    var a, b := TrimSplits(s);
    var t := Trim(s);
    forall i | 0 <= i <= |t| ensures !(m <= t[i..]) {
      var u := s[|a| + i..];
      assert u == t[i..] + b;
    }
  }
}
