/** The response schema: the regular expression that takes a model's output apart into
    thinking, content and tool calls, and how it agrees with the template. */
module Response {
  import opened Options
  import opened Text
  import opened Thinking
  import opened Arguments
  import opened ToolCalls
  import opened Conversation
  import opened Decoding
  import opened Prompts

  const THOUGHT_OPEN := CHANNEL_OPEN + "thought\n"

  datatype Parsed = Parsed(thinking: Option<string>, content: Option<string>, calls: Option<string>)

  /** How far `(?:(?!<\|tool_call>)(?!<turn\|>).)+` runs. */
  function ContentLength(s: string): (n: nat)
    ensures n <= |s|
    ensures forall i :: 0 <= i < n ==> !(CALL_OPEN <= s[i..]) && !(TURN_CLOSE <= s[i..])
    ensures n < |s| ==> CALL_OPEN <= s[n..] || TURN_CLOSE <= s[n..]
  {
    if s == "" || CALL_OPEN <= s || TURN_CLOSE <= s then 0
    else
      assert forall i :: 1 <= i <= |s| ==> s[i..] == s[1..][i - 1..];
      1 + ContentLength(s[1..])
  }

  /** m occurs in s and ends before place k. */
  predicate Ends(s: string, k: nat, m: string) {
    |m| <= k <= |s| && s[k - |m|..k] == m
  }

  lemma EndsShorter(s: string, m: string)
    requires s != ""
    ensures forall k: nat :: k < |s| ==> (Ends(s, k, m) <==> Ends(s[..|s| - 1], k, m))
  {
    var t := s[..|s| - 1];
    forall k: nat | k < |s| ensures Ends(s, k, m) <==> Ends(t, k, m) {
      if |m| <= k {
        assert t[k - |m|..k] == s[k - |m|..k];
      }
    }
  }

  /** The place behind the last occurrence of m, or 0. */
  function BehindLast(s: string, m: string): (n: nat)
    requires m != ""
    ensures n <= |s|
    ensures n > 0 ==> Ends(s, n, m)
    ensures forall k: nat :: Ends(s, k, m) ==> k <= n
  {
    if |s| < |m| then 0
    else if Ends(s, |s|, m) then |s|
    else
      var t := s[..|s| - 1];
      EndsShorter(s, m);
      BehindLast(t, m)
  }

  /** `(<\|tool_call>.*<tool_call\|>)?`, the star as long as possible. */
  function CallsText(s: string): Option<string> {
    if !(CALL_OPEN <= s) then None else
    var n := BehindLast(s[|CALL_OPEN|..], CALL_CLOSE);
    if n == 0 then None else Some(s[..|CALL_OPEN| + n])
  }

  function ParseBody(thinking: Option<string>, s: string): Parsed {
    var n := ContentLength(s);
    Parsed(thinking, if n == 0 then None else Some(s[..n]), CallsText(s[n..]))
  }

  /** The schema's expression at the start of a response, where it always matches. */
  function ParseResponse(s: string): Parsed {
    var c := if THOUGHT_OPEN <= s then Cut(s[|THOUGHT_OPEN|..], CHANNEL_CLOSE) else None;
    if c.Some? then ParseBody(Some(c.value.0), c.value.1) else ParseBody(None, s)
  }

  // -- Responses in the model's own format -------------------------------------------

  function ThoughtText(thought: Option<string>): string {
    if thought.None? then "" else THOUGHT_OPEN + thought.value + CHANNEL_CLOSE
  }

  function ResponseFormat(thought: Option<string>, content: string, calls: seq<ToolCall>, closed: bool): string {
    ThoughtText(thought) + (content + (RenderCalls(calls) + (if closed then TURN_CLOSE else "")))
  }

  lemma {:induction false} ContentRun(content: string, tail: string)
    requires !Contains(content, CALL_OPEN) && !Contains(content, TURN_CLOSE)
    requires tail == "" || CALL_OPEN <= tail || TURN_CLOSE <= tail
    ensures ContentLength(content + tail) == |content|
  {
    Markers();
    var s := content + tail;
    forall i | 0 <= i < |content| ensures !(CALL_OPEN <= s[i..]) && !(TURN_CLOSE <= s[i..]) {
      NoSpan(content, tail, CALL_OPEN, i);
      NoSpan(content, tail, TURN_CLOSE, i);
    }
    assert s[|content|..] == tail;
  }

  /** Nothing but a turn end follows the calls, so the last closing marker is theirs. */
  lemma {:induction false} CallsRun(calls: seq<ToolCall>, tail: string)
    requires tail == "" || tail == TURN_CLOSE
    ensures CallsText(RenderCalls(calls) + tail) == if calls == [] then None else Some(RenderCalls(calls))
  {
    Markers();
    if calls == [] {
      assert RenderCalls(calls) + tail == tail;
      assert TURN_CLOSE[1] == 't' && CALL_OPEN[1] == '|';
    } else {
      var s := RenderCalls(calls);
      CallsEnds(calls);
      LastIsAtEnd(s, tail);
    }
  }

  /** The text opens like a call and ends like one. */
  predicate CallAtEnds(s: string) {
    |s| >= |CALL_OPEN| + |CALL_CLOSE| && CALL_OPEN <= s && s[|s| - |CALL_CLOSE|..] == CALL_CLOSE
  }

  lemma {:induction false} CallEnds(c: ToolCall, tail: string)
    requires tail == "" || CallAtEnds(tail)
    ensures CallAtEnds(RenderCall(c) + tail)
  {
    Between(CALL_OPEN, Inner(c.name, Body(c.arguments)), CALL_CLOSE, tail);
  }

  lemma {:induction false} CallsEnds(calls: seq<ToolCall>)
    requires calls != []
    ensures CallAtEnds(RenderCalls(calls))
  {
    if |calls| > 1 {
      CallsEnds(calls[1..]);
    } else {
      assert calls[1..] == [];
    }
    CallEnds(calls[0], RenderCalls(calls[1..]));
  }

  lemma {:induction false} Between(open: string, inner: string, close: string, tail: string)
    requires tail == "" || (|tail| >= |close| && tail[|tail| - |close|..] == close)
    ensures var s := open + inner + close + tail;
            |s| >= |open| + |close| && open <= s && s[|s| - |close|..] == close
  {
    var s := open + inner + close + tail;
    if tail == "" {
      assert s == open + inner + close;
    } else {
      assert s[|s| - |close|..] == tail[|tail| - |close|..];
    }
  }

  lemma {:induction false} LastIsAtEnd(s: string, tail: string)
    requires CallAtEnds(s)
    requires tail == "" || tail == TURN_CLOSE
    ensures CallsText(s + tail) == Some(s)
  {
    var u, t := s[|CALL_OPEN|..], s + tail;
    assert t[|CALL_OPEN|..] == u + tail;
    LastEnd(u, tail);
    assert t[..|CALL_OPEN| + |u|] == s;
  }

  lemma {:induction false} LastEnd(u: string, tail: string)
    requires |u| >= |CALL_CLOSE| && u[|u| - |CALL_CLOSE|..] == CALL_CLOSE
    requires tail == "" || tail == TURN_CLOSE
    ensures BehindLast(u + tail, CALL_CLOSE) == |u|
  {
    var v := u + tail;
    assert v[|u| - |CALL_CLOSE|..|u|] == u[|u| - |CALL_CLOSE|..];
    assert Ends(v, |u|, CALL_CLOSE);
    EndsWithin(u, tail, BehindLast(v, CALL_CLOSE));
  }

  /** No call ends in the end of the turn. */
  lemma {:induction false} EndsWithin(u: string, tail: string, k: nat)
    requires (tail == "" || tail == TURN_CLOSE) && Ends(u + tail, k, CALL_CLOSE)
    ensures k <= |u|
  {
    var v, i := u + tail, k - |CALL_CLOSE|;
    Markers();
    assert v[i..][..|CALL_CLOSE|] == v[i..k];
    assert CALL_CLOSE <= v[i..];
    if i < |u| {
      NoSpan(u, tail, CALL_CLOSE, i);
    }
  }

  /** Parsing a response gives back its thought, its content and its calls. */
  lemma {:induction false} ResponseRoundTrip(thought: Option<string>, content: string, calls: seq<ToolCall>, closed: bool)
    requires thought.Some? ==> !Contains(thought.value, CHANNEL_CLOSE)
    requires thought.None? ==> !Contains(content, CHANNEL_OPEN)
    requires !Contains(content, CALL_OPEN) && !Contains(content, TURN_CLOSE)
    ensures ParseResponse(ResponseFormat(thought, content, calls, closed))
            == Parsed(thought,
                      if content == "" then None else Some(content),
                      if calls == [] then None else Some(RenderCalls(calls)))
  {
    var tail := if closed then TURN_CLOSE else "";
    var behind := RenderCalls(calls) + tail;
    var body := content + behind;
    BehindCalls(calls, tail);
    ContentRun(content, behind);
    CallsRun(calls, tail);
    BodyParses(thought, content, behind);
    if thought.Some? {
      ThoughtInFront(thought.value, body);
    } else {
      NotThought(content, behind);
      assert "" + body == body;
    }
  }

  lemma {:induction false} BehindCalls(calls: seq<ToolCall>, tail: string)
    requires tail == "" || tail == TURN_CLOSE
    ensures var s := RenderCalls(calls) + tail; s == "" || CALL_OPEN <= s || s == TURN_CLOSE
  {
    if calls == [] {
      assert RenderCalls(calls) + tail == tail;
    } else {
      CallsEnds(calls);
    }
  }

  lemma {:induction false} BodyParses(thought: Option<string>, content: string, behind: string)
    requires ContentLength(content + behind) == |content|
    ensures ParseBody(thought, content + behind)
            == Parsed(thought, if content == "" then None else Some(content), CallsText(behind))
  {
    var body := content + behind;
    assert body[..|content|] == content && body[|content|..] == behind;
  }

  lemma {:induction false} ThoughtInFront(thought: string, body: string)
    requires !Contains(thought, CHANNEL_CLOSE)
    ensures var s := THOUGHT_OPEN + thought + CHANNEL_CLOSE + body;
            THOUGHT_OPEN <= s && Cut(s[|THOUGHT_OPEN|..], CHANNEL_CLOSE) == Some((thought, body))
  {
    Markers();
    var s := THOUGHT_OPEN + thought + CHANNEL_CLOSE + body;
    assert s[|THOUGHT_OPEN|..] == thought + CHANNEL_CLOSE + body;
    CutMarker(thought, CHANNEL_CLOSE, body);
  }

  lemma {:induction false} NotThought(content: string, behind: string)
    requires !Contains(content, CHANNEL_OPEN)
    requires behind == "" || CALL_OPEN <= behind || behind == TURN_CLOSE
    ensures !(THOUGHT_OPEN <= content + behind)
  {
    Markers();
    var s := content + behind;
    assert THOUGHT_OPEN <= s ==> CHANNEL_OPEN <= s by {
      assert CHANNEL_OPEN <= THOUGHT_OPEN;
    }
    assert CHANNEL_OPEN[1] == '|' && CHANNEL_OPEN[2] == 'c' && CALL_OPEN[2] == 't' && TURN_CLOSE[1] == 't';
    InFront(content, behind, CHANNEL_OPEN);
    assert content[0..] == content;
  }

  /** With its calls: the names and printed arguments come back too, exactly when they are
      extractable. */
  lemma {:induction false} ResponseCallsRoundTrip(thought: Option<string>, content: string, calls: seq<ToolCall>,
                                                  closed: bool, word: char -> bool)
    requires thought.Some? ==> !Contains(thought.value, CHANNEL_CLOSE)
    requires thought.None? ==> !Contains(content, CHANNEL_OPEN)
    requires !Contains(content, CALL_OPEN) && !Contains(content, TURN_CLOSE)
    requires WordClass(word) && calls != []
    ensures var p := ParseResponse(ResponseFormat(thought, content, calls, closed));
            && p.calls.Some?
            && (ParseCalls(p.calls.value, word) == Expected(calls) <==> forall c :: c in calls ==> Extractable(c, word))
  {
    ResponseRoundTrip(thought, content, calls, closed);
    CallsRoundTrip(calls, word);
  }

  /** The content the schema extracts, trimmed, is what the template shows when the whole
      response comes back as an assistant message. */
  lemma {:induction false} ReplayAgrees(thought: string, content: string, closed: bool)
    requires !Contains(thought, CHANNEL_CLOSE)
    requires !Contains(content, CHANNEL_OPEN) && !Contains(content, CHANNEL_CLOSE)
    requires !Contains(content, CALL_OPEN) && !Contains(content, TURN_CLOSE)
    ensures var p := ParseResponse(ResponseFormat(Some(thought), content, [], closed));
            && p.thinking == Some(thought)
            && Shown("model", ThoughtText(Some(thought)) + content)
               == (if p.content.Some? then Trim(p.content.value) else "")
  {
    ResponseRoundTrip(Some(thought), content, [], closed);
    var text := ThoughtText(Some(thought)) + content;
    var t := "thought\n" + thought;
    assert text == CHANNEL_OPEN + t + CHANNEL_CLOSE + content;
    Markers();
    PlainInFront("thought\n", thought, CHANNEL_CLOSE);
    ScanThoughtBlock(t, content);
    ScanKeepsPlainText(content);
  }
}
