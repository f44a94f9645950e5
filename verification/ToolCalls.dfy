/** Tool calls: how the template prints them, and the two regular expressions of the
    response schema that take them apart again.

    `.` stands for any character, newlines included.  What counts as a word character is a
    parameter, of which only the exclusion of the characters around a name matters. */
module ToolCalls {
  import opened Options
  import opened Text
  import opened Dictsort
  import opened Arguments

  const CALL_OPEN := "<|tool_call>"
  const CALL_CLOSE := "<tool_call|>"
  const CALL := "call:"

  datatype CallArguments =
    | Mapping(entries: seq<Item<Value>>)
    | Literal(text: string)
    | Other

  datatype ToolCall = ToolCall(name: string, arguments: CallArguments)

  lemma CallMarkers()
    ensures IsMarker(CALL_OPEN) && IsMarker(CALL_CLOSE) && CALL_OPEN != CALL_CLOSE
  {
    assert CALL_OPEN[1] != CALL_CLOSE[1];
  }

  // -- Printing --------------------------------------------------------------------

  function Body(a: CallArguments): string {
    match a
    case Mapping(entries) =>
      SortPermutes(entries);
      FormatEntries(Sort(entries), false, Map(entries))
    case Literal(text) => text
    case Other => ""
  }

  /** The call between its two markers. */
  function Inner(name: string, body: string): string {
    CALL + name + "{" + body + "}"
  }

  function RenderCall(c: ToolCall): string {
    CALL_OPEN + Inner(c.name, Body(c.arguments)) + CALL_CLOSE
  }

  function RenderCalls(calls: seq<ToolCall>): string {
    Each(calls, RenderCall)
  }

  // -- The schema's regular expressions ---------------------------------------------

  /** All matches of `<\|tool_call>(.*?)<tool_call\|>`: from each opening marker to the
      nearest closing marker behind it. */
  function FindCalls(s: string): seq<string>
    decreases |s|
  {
    var a := Cut(s, CALL_OPEN);
    if a.None? then [] else
    var b := Cut(a.value.1, CALL_CLOSE);
    if b.None? then [] else [b.value.0] + FindCalls(b.value.1)
  }

  predicate WordClass(word: char -> bool) {
    !word('{') && !word('<')
  }

  predicate WordName(name: string, word: char -> bool) {
    name != "" && forall i :: 0 <= i < |name| ==> word(name[i])
  }

  function WordLength(s: string, word: char -> bool): (n: nat)
    ensures n <= |s|
    ensures forall i :: 0 <= i < n ==> word(s[i])
    ensures n < |s| ==> !word(s[n])
  {
    if s == "" || !word(s[0]) then 0 else 1 + WordLength(s[1..], word)
  }

  /** One more than the place of the last `}`, or 0. */
  function BehindLastBrace(s: string): (n: nat)
    ensures n <= |s|
    ensures n > 0 ==> s[n - 1] == '}'
    ensures forall i :: n <= i < |s| ==> s[i] != '}'
  {
    if s == "" then 0
    else if s[|s| - 1] == '}' then |s|
    else BehindLastBrace(s[..|s| - 1])
  }

  /** `call\:(?P<name>\w+)(?P<arguments>\{.*\})` at the start of t. */
  function MatchCall(t: string, word: char -> bool): (r: Option<(string, string)>)
    ensures r.Some? ==> |CALL| + |r.value.0| + |r.value.1| <= |t| && WordName(r.value.0, word)
  {
    if !(CALL <= t) then None else
    var u := t[|CALL|..];
    var n := WordLength(u, word);
    var v := u[n..];
    var m := BehindLastBrace(v);
    if n == 0 || v == "" || v[0] != '{' || m == 0 then None
    else Some((u[..n], v[..m]))
  }

  /** The same, wherever in t it matches first. */
  function SearchCall(t: string, word: char -> bool): (r: Option<(string, string)>)
    ensures r.Some? ==> |CALL| + |r.value.0| + |r.value.1| <= |t| && WordName(r.value.0, word)
  {
    var m := MatchCall(t, word);
    if m.Some? || t == "" then m else SearchCall(t[1..], word)
  }

  function ParseCalls(s: string, word: char -> bool): seq<Option<(string, string)>> {
    SearchAll(FindCalls(s), word)
  }

  function SearchAll(texts: seq<string>, word: char -> bool): seq<Option<(string, string)>> {
    if texts == [] then [] else [SearchCall(texts[0], word)] + SearchAll(texts[1..], word)
  }

  /** The match is the one a greedy, backtracking matcher finds: wherever the text can be
      read as `call:`, a word and a braced text, the word is this one and the braced text
      is no longer than this one. */
  lemma {:induction false} MatchCallIsGreedy(t: string, word: char -> bool, name: string, arguments: string, rest: string)
    requires WordClass(word) && WordName(name, word)
    requires |arguments| >= 2 && arguments[0] == '{' && arguments[|arguments| - 1] == '}'
    requires t == CALL + name + arguments + rest
    ensures var r := MatchCall(t, word);
            r.Some? && r.value.0 == name && arguments <= r.value.1
  {
    var u := t[|CALL|..];
    assert u == name + (arguments + rest);
    WordRun(name, arguments + rest, word);
    var v := u[|name|..];
    assert v == arguments + rest && v[|arguments| - 1] == '}';
  }

  lemma {:induction false} WordRun(name: string, rest: string, word: char -> bool)
    requires forall i :: 0 <= i < |name| ==> word(name[i])
    requires rest != "" && !word(rest[0])
    ensures WordLength(name + rest, word) == |name|
  {
    if name != "" {
      assert (name + rest)[1..] == name[1..] + rest;
      WordRun(name[1..], rest, word);
    } else {
      assert name + rest == rest;
    }
  }

  /** The search goes over what stands in front of a call. */
  lemma {:induction false} SearchSkips(front: string, t: string, word: char -> bool)
    requires 'c' !in front
    ensures SearchCall(front + t, word) == SearchCall(t, word)
  {
    if front == "" {
      assert front + t == t;
    } else {
      assert (front + t)[0] == front[0] && (front + t)[1..] == front[1..] + t;
      assert CALL[0] == 'c';
      SearchSkips(front[1..], t, word);
    }
  }

  // -- Extraction undoes printing --------------------------------------------------

  /** What extraction should return: each name with its printed arguments. */
  function Expected(calls: seq<ToolCall>): seq<Option<(string, string)>> {
    if calls == [] then []
    else [Some((calls[0].name, "{" + Body(calls[0].arguments) + "}"))] + Expected(calls[1..])
  }

  ghost predicate Extractable(c: ToolCall, word: char -> bool) {
    WordName(c.name, word) && !Contains(Body(c.arguments), CALL_CLOSE)
  }

  /** A marker in the text of a call lies in its name or in its body. */
  lemma {:induction false} InnerFree(name: string, body: string, m: string)
    requires IsMarker(m) && '{' !in m && '}' !in m
    ensures Contains(Inner(name, body), m) <==> Contains(CALL + name, m) || Contains(body, m)
  {
    var head, tail := CALL + name, body + "}";
    assert Inner(name, body) == head + ("{" + tail);
    assert Stops("{" + tail, m) && Stops("}", m);
    PlainIsFree("}", m);
    ContainsConcat(body, "}", m);
    ContainsConcat(head, "{" + tail, m);
    PlainInFront("{", tail, m);
  }

  lemma {:induction false} WordIsFree(name: string, word: char -> bool, m: string)
    requires IsMarker(m) && WordClass(word) && WordName(name, word)
    ensures !Contains(CALL + name, m)
  {
    PlainIsFree(CALL + name, m);
  }

  /** One call in front: the iterator yields the text between its markers exactly when that
      text holds no closing marker. */
  lemma {:induction false} FindFirstCall(inner: string, more: string)
    ensures !Contains(inner, CALL_CLOSE) ==>
              FindCalls(CALL_OPEN + inner + CALL_CLOSE + more) == [inner] + FindCalls(more)
    ensures Contains(inner, CALL_CLOSE) ==>
              var f := FindCalls(CALL_OPEN + inner + CALL_CLOSE + more); f != [] && |f[0]| < |inner|
  {
    CallMarkers();
    var tail := inner + CALL_CLOSE + more;
    var s := CALL_OPEN + inner + CALL_CLOSE + more;
    assert s == "" + CALL_OPEN + tail;
    CutAt("", tail, CALL_OPEN);
    CutMarker(inner, CALL_CLOSE, more);
    if Contains(inner, CALL_CLOSE) {
      CutsEarlier(inner, CALL_CLOSE, more);
    }
  }

  /** A text that already holds the marker is cut inside. */
  lemma {:induction false} CutsEarlier(t: string, m: string, more: string)
    requires m != "" && Contains(t, m)
    ensures var c := Cut(t + m + more, m); c.Some? && |c.value.0| < |t|
  {
    var s := t + m + more;
    var i :| 0 <= i <= |t| && m <= t[i..];
    assert s[i..] == t[i..] + (m + more);
    assert m <= s[i..];
    CutFindsMarker(s, m);
  }

  lemma {:induction false} SearchPrinted(name: string, body: string, word: char -> bool)
    requires WordClass(word) && WordName(name, word)
    ensures SearchCall(Inner(name, body), word) == Some((name, "{" + body + "}"))
  {
    var t := Inner(name, body);
    var arguments := "{" + body + "}";
    assert t == CALL + name + arguments + "";
    MatchCallIsGreedy(t, word, name, arguments, "");
    var r := MatchCall(t, word).value;
    assert |r.1| <= |arguments|;
    assert r.1 == arguments;
  }

  lemma {:induction false} ParseFirstCall(c: ToolCall, more: string, word: char -> bool)
    requires WordClass(word) && Extractable(c, word)
    ensures ParseCalls(RenderCall(c) + more, word)
            == [Some((c.name, "{" + Body(c.arguments) + "}"))] + ParseCalls(more, word)
  {
    var body := Body(c.arguments);
    CallMarkers();
    WordIsFree(c.name, word, CALL_CLOSE);
    InnerFree(c.name, body, CALL_CLOSE);
    FindFirstCall(Inner(c.name, body), more);
    SearchPrinted(c.name, body, word);
    assert ([Inner(c.name, body)] + FindCalls(more))[1..] == FindCalls(more);
  }

  lemma {:induction false} ExpectedIsFound(calls: seq<ToolCall>, more: string, word: char -> bool)
    requires WordClass(word) && forall c :: c in calls ==> Extractable(c, word)
    ensures ParseCalls(RenderCalls(calls) + more, word) == Expected(calls) + ParseCalls(more, word)
  {
    if calls == [] {
      assert RenderCalls(calls) + more == more;
    } else {
      assert calls[0] in calls;
      var head, tail := RenderCall(calls[0]), RenderCalls(calls[1..]);
      Assoc(head, tail, more);
      ParseFirstCall(calls[0], tail + more, word);
      ExpectedIsFound(calls[1..], more, word);
      Assoc([Some((calls[0].name, "{" + Body(calls[0].arguments) + "}"))], Expected(calls[1..]), ParseCalls(more, word));
    }
  }

  /** If the first text found yields this name and this body, both are as they should be. */
  lemma {:induction false} FirstIsExtractable(name: string, body: string, more: string, word: char -> bool)
    requires var f := FindCalls(CALL_OPEN + Inner(name, body) + CALL_CLOSE + more);
             f != [] && SearchCall(f[0], word) == Some((name, "{" + body + "}"))
    ensures WordName(name, word) && !Contains(body, CALL_CLOSE)
  {
    var inner := Inner(name, body);
    FoundIsLongEnough(name, body, FindCalls(CALL_OPEN + inner + CALL_CLOSE + more)[0], word);
    LongEnoughIsFree(inner, more);
    BodyIsFree(name, body);
  }

  lemma {:induction false} BodyIsFree(name: string, body: string)
    requires !Contains(Inner(name, body), CALL_CLOSE)
    ensures !Contains(body, CALL_CLOSE)
  {
    CallMarkers();
    InnerFree(name, body, CALL_CLOSE);
  }

  lemma {:induction false} LongEnoughIsFree(inner: string, more: string)
    requires var f := FindCalls(CALL_OPEN + inner + CALL_CLOSE + more); f != [] && |f[0]| >= |inner|
    ensures !Contains(inner, CALL_CLOSE)
  {
    FindFirstCall(inner, more);
  }

  /** Only a text as long as the call yields all of it. */
  lemma {:induction false} FoundIsLongEnough(name: string, body: string, found: string, word: char -> bool)
    requires SearchCall(found, word) == Some((name, "{" + body + "}"))
    ensures |found| >= |Inner(name, body)|
  {
    assert |Inner(name, body)| == |CALL| + |name| + |"{" + body + "}"|;
  }

  lemma {:induction false} FoundIsExpected(calls: seq<ToolCall>, word: char -> bool)
    requires WordClass(word)
    requires ParseCalls(RenderCalls(calls), word) == Expected(calls)
    ensures forall c :: c in calls ==> Extractable(c, word)
  {
    if calls != [] {
      var c, rest := calls[0], RenderCalls(calls[1..]);
      var found := FindCalls(RenderCalls(calls));
      assert SearchCall(found[0], word) == ParseCalls(RenderCalls(calls), word)[0] == Expected(calls)[0];
      FirstIsExtractable(c.name, Body(c.arguments), rest, word);
      ParseFirstCall(c, rest, word);
      assert Expected(calls)[1..] == Expected(calls[1..]);
      assert ParseCalls(rest, word) == ParseCalls(RenderCalls(calls), word)[1..];
      FoundIsExpected(calls[1..], word);
    }
  }

  /** Extraction returns the printed list of calls exactly when every name is a word and no
      body holds the closing marker. */
  lemma {:induction false} CallsRoundTrip(calls: seq<ToolCall>, word: char -> bool)
    requires WordClass(word)
    ensures ParseCalls(RenderCalls(calls), word) == Expected(calls)
            <==> forall c :: c in calls ==> Extractable(c, word)
  {
    if ParseCalls(RenderCalls(calls), word) == Expected(calls) {
      FoundIsExpected(calls, word);
    } else if forall c :: c in calls ==> Extractable(c, word) {
      assert RenderCalls(calls) + "" == RenderCalls(calls);
      ExpectedIsFound(calls, "", word);
    }
  }

  /** The extracted arguments of a mapping read back as that mapping, sorted. */
  lemma {:induction false} ArgumentsRoundTrip(entries: seq<Item<Value>>)
    ensures ReadValue("{" + Body(Mapping(entries)) + "}", false) == Some((Canon(Map(entries)), ""))
            <==> Printable(Canon(Map(entries)), false)
    ensures Reordered(Map(entries), Canon(Map(entries)))
  {
    var text := "{" + Body(Mapping(entries)) + "}";
    assert text == Format(Map(entries), false);
    assert text + "" == text;
    FormatRoundTrip(Map(entries), false, "");
  }
}
