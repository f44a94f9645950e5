/** When a prompt reads back: exactly when the conversation is readable, which is a condition
    on each of its texts. */
module Prompts {
  import opened Options
  import opened Text
  import opened Thinking
  import opened Dictsort
  import opened Arguments
  import opened ToolCalls
  import opened Conversation
  import opened Decoding

  // -- The condition -----------------------------------------------------------------

  /** The name ends at the first brace, the body at the closing marker. */
  ghost predicate BracedReadable(b: Braced, close: string) {
    '{' !in b.0 && !Contains(b.0, close) && !Contains(b.1, close)
  }

  ghost predicate AllReadable(bs: seq<Braced>, close: string) {
    forall b :: b in bs ==> BracedReadable(b, close)
  }

  /** A content that closes its turn does not do so early, and does not open like a further
      call, a further response or, behind responses, a further turn. */
  ghost predicate ContentReadable(t: Turn) {
    !Contains(t.content, TURN_CLOSE) && forall m :: m in Openers(t) ==> !(m <= t.content)
  }

  /** What the content would be mistaken for. */
  function Openers(t: Turn): set<string> {
    {RESPONSE_OPEN, if t.responses == [] then CALL_OPEN else TURN_OPEN}
  }

  lemma {:induction false} ContentReadableBy(t: Turn)
    ensures ContentReadable(t) <==>
              && !Contains(t.content, TURN_CLOSE) && !(RESPONSE_OPEN <= t.content)
              && (t.responses == [] ==> !(CALL_OPEN <= t.content)) && (t.responses != [] ==> !(TURN_OPEN <= t.content))
  {
    assert RESPONSE_OPEN in Openers(t);
    assert (if t.responses == [] then CALL_OPEN else TURN_OPEN) in Openers(t);
  }

  ghost predicate TurnReadable(t: Turn) {
    && '\n' !in t.role
    && AllReadable(t.calls, CALL_CLOSE) && AllReadable(t.responses, RESPONSE_CLOSE)
    && (t.closed ==> ContentReadable(t))
  }

  ghost predicate BlockReadable(b: Block) {
    && (!b.thinking ==> !(THINK <= b.system))
    && !Contains(b.system, TURN_CLOSE) && !Contains(b.system, TOOL_OPEN)
    && forall t :: t in b.tools ==> !Contains(t, TURN_CLOSE) && !Contains(t, TOOL_CLOSE)
  }

  ghost predicate DecodedReadable(d: Decoded) {
    && (d.block.Some? ==> BlockReadable(d.block.value))
    && forall t :: t in d.turns ==> TurnReadable(t)
  }

  /** The roles are one line each, the names, bodies and contents hold what may stand there. */
  ghost predicate Readable(c: Conversation)
    requires c.messages != []
  {
    DecodedReadable(Normal(c))
  }

  /** What every prompt is: a turn that stays open has responses and no content, and without
      a system block no turn comes first that looks like one. */
  predicate TurnOk(t: Turn) {
    t.closed || (t.content == "" && t.responses != [])
  }

  ghost predicate DecodedOk(d: Decoded) {
    && (forall t :: t in d.turns ==> TurnOk(t))
    && (d.block.None? && d.turns != [] ==> d.turns[0].role != "system")
  }

  // -- Calls and responses --------------------------------------------------------------

  /** Markers whose characters the printed frame of a call does not have. */
  predicate Braceless(m: string) {
    IsMarker(m) && '{' !in m && '}' !in m
  }

  lemma {:induction false} InnerHolds(b: Braced, prefix: string, m: string)
    requires Braceless(m) && '<' !in prefix
    ensures Contains(InnerText(b, prefix), m) <==> Contains(b.0, m) || Contains(b.1, m)
  {
    var tail := b.1 + "}";
    assert InnerText(b, prefix) == prefix + (b.0 + ("{" + tail));
    PlainIsFree("}", m);
    ContainsConcat(b.1, "}", m);
    PlainInFront("{", tail, m);
    assert Stops("{" + tail, m);
    ContainsConcat(b.0, "{" + tail, m);
    PlainInFront(prefix, b.0 + ("{" + tail), m);
  }

  lemma {:induction false} InnerExact(b: Braced, prefix: string)
    ensures ReadInner(InnerText(b, prefix), prefix) == Some(b) <==> '{' !in b.0
  {
    var inner, tail := InnerText(b, prefix), b.1 + "}";
    assert inner == prefix + (b.0 + "{" + tail);
    assert inner[|prefix|..] == b.0 + "{" + tail;
    CutChar(b.0, '{', tail);
    assert tail[..|tail| - 1] == b.1;
    if ReadInner(inner, prefix) == Some(b) {
      var n := Cut(b.0 + "{" + tail, "{").value;
      assert n.1 == n.1[..|n.1| - 1] + "}" == tail;
    }
  }

  /** Cutting leaves exactly this rest only at the marker in front of it. */
  lemma {:induction false} CutLeaves(t: string, m: string, rest: string)
    requires IsMarker(m)
    ensures (var c := Cut(t + m + rest, m); c.Some? && c.value.1 == rest) <==> !Contains(t, m)
    ensures !Contains(t, m) ==> Cut(t + m + rest, m) == Some((t, rest))
  {
    CutMarker(t, m, rest);
    var c := Cut(t + m + rest, m);
    if c.Some? && c.value.1 == rest {
      SameHead(c.value.0, t, m + rest);
      Assoc(c.value.0, m, rest);
      Assoc(t, m, rest);
    }
  }

  lemma SameHead(a: string, b: string, tail: string)
    ensures a + tail == b + tail ==> a == b
  {
    if a + tail == b + tail {
      assert |a| == |b|;
      assert a == (a + tail)[..|a|] && b == (b + tail)[..|a|];
    }
  }

  lemma {:induction false} BracedExact(b: Braced, open: string, prefix: string, close: string, rest: string)
    requires open != "" && Braceless(close) && '<' !in prefix
    ensures ReadBraced(BracedText(b, open, prefix, close) + rest, open, prefix, close) == Some((b, rest))
            <==> BracedReadable(b, close)
  {
    var inner := InnerText(b, prefix);
    var s := BracedText(b, open, prefix, close) + rest;
    Assoc3(open, inner, close, rest);
    assert s[|open|..] == inner + close + rest;
    CutLeaves(inner, close, rest);
    InnerHolds(b, prefix, close);
    InnerExact(b, prefix);
  }

  lemma {:induction false} AllExact(bs: seq<Braced>, open: string, prefix: string, close: string, rest: string)
    requires open != "" && Braceless(close) && '<' !in prefix
    ensures ReadAll(BracedTexts(bs, open, prefix, close) + rest, open, prefix, close) == Some((bs, rest))
            <==> !(open <= rest) && AllReadable(bs, close)
  {
    var s := BracedTexts(bs, open, prefix, close) + rest;
    if bs == [] {
      assert s == rest;
    } else {
      var head, tail := BracedText(bs[0], open, prefix, close), BracedTexts(bs[1..], open, prefix, close) + rest;
      Assoc(head, BracedTexts(bs[1..], open, prefix, close), rest);
      assert bs == [bs[0]] + bs[1..];
      BracedExact(bs[0], open, prefix, close, tail);
      AllExact(bs[1..], open, prefix, close, rest);
      if ReadAll(s, open, prefix, close) == Some((bs, rest)) {
        FirstExact(bs, open, prefix, close, rest);
      }
    }
  }

  /** If the list is read, its first element is read in front of the others. */
  lemma {:induction false} FirstExact(bs: seq<Braced>, open: string, prefix: string, close: string, rest: string)
    requires open != "" && close != "" && bs != []
    requires ReadAll(BracedTexts(bs, open, prefix, close) + rest, open, prefix, close) == Some((bs, rest))
    ensures var tail := BracedTexts(bs[1..], open, prefix, close) + rest;
            && ReadBraced(BracedText(bs[0], open, prefix, close) + tail, open, prefix, close) == Some((bs[0], tail))
            && ReadAll(tail, open, prefix, close) == Some((bs[1..], rest))
  {
    var head, tail := BracedText(bs[0], open, prefix, close), BracedTexts(bs[1..], open, prefix, close) + rest;
    Assoc(head, BracedTexts(bs[1..], open, prefix, close), rest);
    var (b, more) := ReadBraced(head + tail, open, prefix, close).value;
    assert ReadAll(more, open, prefix, close) == Some((bs[1..], rest));
    AllIsSound(more, open, prefix, close);
  }

  // -- Turns ----------------------------------------------------------------------------

  lemma Starts(m: string, n: string)
    requires IsMarker(m) && IsMarker(n) && m != n
    ensures forall rest: string :: !(m <= n + rest)
  {
    forall rest: string ensures !(m <= n + rest) {
      assert (n + rest)[0..] == n + rest;
      if m <= n + rest {
        assert n <= n + rest;
        MarkersDoNotOverlap(n + rest, m, n, 0, 0);
      }
    }
  }

  /** A marker in front of a text and a further marker is in front of the text. */
  lemma {:induction false} InFront(text: string, tail: string, m: string)
    requires IsMarker(m) && AtMarker(tail) && !(m <= tail)
    ensures m <= text + tail <==> m <= text
  {
    if text == "" {
      assert text + tail == tail;
    } else {
      NoSpan(text, tail, m, 0);
      assert (text + tail)[0..] == text + tail && text[0..] == text;
    }
  }

  lemma {:induction false} Different()
    ensures TURN_CLOSE != RESPONSE_OPEN && TURN_CLOSE != CALL_OPEN && TURN_CLOSE != TURN_OPEN
    ensures TURN_OPEN != RESPONSE_OPEN && TURN_OPEN != CALL_OPEN
    ensures CHANNEL_OPEN != RESPONSE_OPEN && CHANNEL_OPEN != CALL_OPEN && RESPONSE_OPEN != CALL_OPEN
    ensures TOOL_OPEN != THINK && TURN_CLOSE != THINK && TURN_CLOSE != TOOL_OPEN && TURN_CLOSE != TOOL_CLOSE
    ensures RESPONSE_CLOSE != TURN_OPEN && RESPONSE_CLOSE != CHANNEL_OPEN && RESPONSE_CLOSE != CHANNEL_CLOSE
    ensures TURN_CLOSE != CHANNEL_OPEN && TURN_CLOSE != CHANNEL_CLOSE
  {
    assert TURN_CLOSE[1] == 't' && TURN_CLOSE[2] == 'u';
    assert RESPONSE_CLOSE[1] == 't' && CHANNEL_CLOSE[1] == 'c' && TOOL_CLOSE[1] == 't' && TOOL_CLOSE[2] == 'o';
    assert RESPONSE_OPEN[1] == '|' && CALL_OPEN[1] == '|' && TURN_OPEN[1] == '|' && CHANNEL_OPEN[1] == '|';
    assert TOOL_OPEN[1] == '|' && THINK[1] == '|' && TOOL_OPEN[3] == 'o' && THINK[3] == 'h';
    assert RESPONSE_OPEN[2] == 't' && RESPONSE_OPEN[3] == 'o' && RESPONSE_OPEN[7] == 'r';
    assert CALL_OPEN[2] == 't' && CALL_OPEN[3] == 'o' && CALL_OPEN[7] == 'c';
    assert TURN_OPEN[2] == 't' && TURN_OPEN[3] == 'u' && CHANNEL_OPEN[2] == 'c';
  }

  /** What opens the text behind the tool responses of a turn. */
  lemma {:induction false} TailOpens(content: string, rest: string)
    ensures var s := content + (TURN_CLOSE + rest);
            && (RESPONSE_OPEN <= s <==> RESPONSE_OPEN <= content)
            && (CALL_OPEN <= s <==> CALL_OPEN <= content)
            && (TURN_OPEN <= s <==> TURN_OPEN <= content)
            && s != ""
  {
    Markers();
    Different();
    Starts(RESPONSE_OPEN, TURN_CLOSE);
    Starts(CALL_OPEN, TURN_CLOSE);
    Starts(TURN_OPEN, TURN_CLOSE);
    InFront(content, TURN_CLOSE + rest, RESPONSE_OPEN);
    InFront(content, TURN_CLOSE + rest, CALL_OPEN);
    InFront(content, TURN_CLOSE + rest, TURN_OPEN);
  }

  lemma {:induction false} TurnOpens(s: string)
    requires AtTurn(s)
    ensures !(RESPONSE_OPEN <= s) && !(CALL_OPEN <= s)
  {
    Markers();
    Different();
    if TURN_OPEN <= s {
      Starts(RESPONSE_OPEN, TURN_OPEN);
      Starts(CALL_OPEN, TURN_OPEN);
      assert s == TURN_OPEN + s[|TURN_OPEN|..];
    } else if s != "" {
      Starts(RESPONSE_OPEN, CHANNEL_OPEN);
      Starts(CALL_OPEN, CHANNEL_OPEN);
      assert s == CHANNEL_OPEN + s[|CHANNEL_OPEN|..];
    }
  }

  /** The endings hold no turn end and no response end. */
  lemma {:induction false} EndingIsFree(e: Ending, m: string)
    requires m == TURN_CLOSE || m == RESPONSE_CLOSE
    ensures !Contains(EndingText(e), m)
  {
    Markers();
    Different();
    Starts(TURN_CLOSE, TURN_OPEN);
    MarkerIsFree(TURN_OPEN, m);
    MarkerIsFree(CHANNEL_OPEN, m);
    MarkerIsFree(CHANNEL_CLOSE, m);
    PlainIsFree("", m);
    PlainInFront("thought\n", CHANNEL_CLOSE, m);
    ContainsBehindMarker(CHANNEL_OPEN, "thought\n" + CHANNEL_CLOSE, m);
    Assoc(CHANNEL_OPEN, "thought\n", CHANNEL_CLOSE);
    var tail := if e.emptyThought then NO_THOUGHT else "";
    if e.opensModelTurn {
      PlainInFront("model" + "\n", tail, m);
      ContainsBehindMarker(TURN_OPEN, "model" + "\n" + tail, m);
      assert EndingText(e) == TURN_OPEN + ("model" + "\n" + tail);
    } else {
      assert EndingText(e) == tail;
    }
  }

  lemma {:induction false} HoldsInside(a: string, m: string, b: string)
    ensures Contains(a + m + b, m)
  {
    assert (a + m + b)[|a|..] == m + b;
  }

  lemma {:induction false} CloseIsNoEnding(content: string, rest: string)
    ensures content + TURN_CLOSE + rest != NO_THOUGHT
  {
    HoldsInside(content, TURN_CLOSE, rest);
    EndingIsFree(Ending(false, true), TURN_CLOSE);
    assert EndingText(Ending(false, true)) == NO_THOUGHT;
  }

  lemma {:induction false} ClosedTailExact(responded: bool, content: string, rest: string)
    ensures var s := content + TURN_CLOSE + ("\n" + rest);
            ReadTail(responded, s) == Some((content, true, rest))
            <==> !Contains(content, TURN_CLOSE) && (responded ==> !(TURN_OPEN <= content))
  {
    var tail := "\n" + rest;
    var s := content + TURN_CLOSE + tail;
    Markers();
    Assoc(content, TURN_CLOSE, tail);
    TailOpens(content, tail);
    CloseIsNoEnding(content, tail);
    CutLeaves(content, TURN_CLOSE, tail);
    TailRests(responded, s, rest);
  }

  /** Read as closed, a turn leaves what is behind its end. */
  lemma {:induction false} TailRests(responded: bool, s: string, rest: string)
    ensures (exists content :: ReadTail(responded, s) == Some((content, true, rest)))
            <==> !(responded && AtTurn(s)) && Cut(s, TURN_CLOSE).Some? && Cut(s, TURN_CLOSE).value.1 == "\n" + rest
    ensures ReadTail(responded, s).Some? && ReadTail(responded, s).value.1 ==> ReadTail(responded, s).value.0 == Cut(s, TURN_CLOSE).value.0
  {
    var c := Cut(s, TURN_CLOSE);
    if c.Some? && c.value.1 == "\n" + rest {
      assert c.value.1[1..] == rest;
      assert !(responded && AtTurn(s)) ==> ReadTail(responded, s) == Some((c.value.0, true, rest));
    }
    if content :| ReadTail(responded, s) == Some((content, true, rest)) {
      assert c.value.1 == "\n" + c.value.1[1..];
    }
  }

  lemma {:induction false} TailExact(t: Turn, rest: string)
    requires TurnOk(t) && AtTurn(rest)
    ensures ReadTail(t.responses != [], TailText(t) + rest) == Some((t.content, t.closed, rest))
            <==> (t.closed ==> !Contains(t.content, TURN_CLOSE) && (t.responses != [] ==> !(TURN_OPEN <= t.content)))
  {
    if t.closed {
      assert TailText(t) + rest == t.content + TURN_CLOSE + ("\n" + rest);
      ClosedTailExact(t.responses != [], t.content, rest);
    } else {
      assert TailText(t) + rest == rest;
    }
  }

  /** What opens behind the calls of a turn, and behind its responses. */
  lemma {:induction false} BehindOpens(t: Turn, rest: string)
    requires TurnOk(t) && AtTurn(rest)
    ensures RESPONSE_OPEN <= TailText(t) + rest <==> t.closed && RESPONSE_OPEN <= t.content
    ensures CALL_OPEN <= ResponseTexts(t) + (TailText(t) + rest) <==> t.responses == [] && t.closed && CALL_OPEN <= t.content
  {
    var d := TailText(t) + rest;
    if t.closed {
      assert d == t.content + (TURN_CLOSE + ("\n" + rest));
      TailOpens(t.content, "\n" + rest);
    } else {
      assert d == rest;
      TurnOpens(rest);
    }
    if t.responses == [] {
      assert ResponseTexts(t) + d == d;
    } else {
      ResponsesOpen(t.responses, d);
    }
  }

  lemma {:induction false} ResponsesOpen(bs: seq<Braced>, d: string)
    requires bs != []
    ensures !(CALL_OPEN <= BracedTexts(bs, RESPONSE_OPEN, RESPONSE, RESPONSE_CLOSE) + d)
  {
    var more := BracedTexts(bs[1..], RESPONSE_OPEN, RESPONSE, RESPONSE_CLOSE) + d;
    var inner := InnerText(bs[0], RESPONSE);
    Markers();
    Different();
    Starts(CALL_OPEN, RESPONSE_OPEN);
    Assoc(BracedText(bs[0], RESPONSE_OPEN, RESPONSE, RESPONSE_CLOSE), BracedTexts(bs[1..], RESPONSE_OPEN, RESPONSE, RESPONSE_CLOSE), d);
    Assoc3(RESPONSE_OPEN, inner, RESPONSE_CLOSE, more);
  }

  lemma {:induction false} BodyParts(t: Turn, rest: string)
    requires ReadTurnBody(t.role, BodyText(t) + rest) == Some((t, rest))
    ensures var d := TailText(t) + rest;
            && ReadAll(CallTexts(t) + (ResponseTexts(t) + d), CALL_OPEN, CALL, CALL_CLOSE)
               == Some((t.calls, ResponseTexts(t) + d))
            && ReadAll(ResponseTexts(t) + d, RESPONSE_OPEN, RESPONSE, RESPONSE_CLOSE) == Some((t.responses, d))
            && ReadTail(t.responses != [], d) == Some((t.content, t.closed, rest))
  {
    var s, d := BodyText(t) + rest, TailText(t) + rest;
    BodyGroups(CallTexts(t), ResponseTexts(t), TailText(t), rest);
    var a := ReadAll(s, CALL_OPEN, CALL, CALL_CLOSE).value.1;
    AllIsSound(s, CALL_OPEN, CALL, CALL_CLOSE);
    SameTail(CallTexts(t), a, ResponseTexts(t) + d);
    var b := ReadAll(a, RESPONSE_OPEN, RESPONSE, RESPONSE_CLOSE).value.1;
    AllIsSound(a, RESPONSE_OPEN, RESPONSE, RESPONSE_CLOSE);
    SameTail(ResponseTexts(t), b, d);
  }

  lemma {:induction false} BodyFrom(t: Turn, s: string, a: string, d: string, rest: string)
    requires ReadAll(s, CALL_OPEN, CALL, CALL_CLOSE) == Some((t.calls, a))
    requires ReadAll(a, RESPONSE_OPEN, RESPONSE, RESPONSE_CLOSE) == Some((t.responses, d))
    requires ReadTail(t.responses != [], d) == Some((t.content, t.closed, rest))
    ensures ReadTurnBody(t.role, s) == Some((t, rest))
  {
  }

  lemma ApartCloses()
    ensures Braceless(CALL_CLOSE) && Braceless(RESPONSE_CLOSE)
  {
    Markers();
  }

  lemma {:induction false} BodyExact(t: Turn, rest: string)
    requires TurnOk(t) && AtTurn(rest)
    ensures ReadTurnBody(t.role, BodyText(t) + rest) == Some((t, rest))
            <==> AllReadable(t.calls, CALL_CLOSE) && AllReadable(t.responses, RESPONSE_CLOSE) && (t.closed ==> ContentReadable(t))
  {
    var d := TailText(t) + rest;
    var a := ResponseTexts(t) + d;
    ApartCloses();
    AllExact(t.calls, CALL_OPEN, CALL, CALL_CLOSE, a);
    AllExact(t.responses, RESPONSE_OPEN, RESPONSE, RESPONSE_CLOSE, d);
    TailExact(t, rest);
    ContentReadableBy(t);
    BehindOpens(t, rest);
    BodyGroups(CallTexts(t), ResponseTexts(t), TailText(t), rest);
    if ReadTurnBody(t.role, BodyText(t) + rest) == Some((t, rest)) {
      BodyParts(t, rest);
    } else if AllReadable(t.calls, CALL_CLOSE) && AllReadable(t.responses, RESPONSE_CLOSE) && (t.closed ==> ContentReadable(t)) {
      BodyFrom(t, CallTexts(t) + a, a, d, rest);
    }
  }

  // -- Lists of turns ----------------------------------------------------------------------

  lemma {:induction false} RoleExact(role: string, rest: string)
    ensures ReadRole(TURN_OPEN + role + "\n" + rest) == Some((role, rest)) <==> '\n' !in role
    ensures ReadRole(TURN_OPEN + role + "\n" + rest).Some?
    ensures ReadRole(TURN_OPEN + role + "\n" + rest).value.0 == role ==>
              ReadRole(TURN_OPEN + role + "\n" + rest).value.1 == rest
  {
    var s, t := TURN_OPEN + role + "\n" + rest, role + "\n" + rest;
    Assoc3(TURN_OPEN, role, "\n", rest);
    assert s[|TURN_OPEN|..] == t;
    CutChar(role, '\n', rest);
    HoldsInside(role, "\n", rest);
    CutFindsMarker(t, "\n");
    var c := Cut(t, "\n").value;
    if c.0 == role {
      SameTail(role + "\n", c.1, rest);
    }
  }

  /** The text of a turn is never an ending. */
  lemma {:induction false} TurnIsNoEnding(t: Turn, more: string)
    requires TurnOk(t)
    ensures ReadEnding(TurnText(t) + more).None?
  {
    var s := TurnText(t) + more;
    var m := if t.closed then TURN_CLOSE else RESPONSE_CLOSE;
    TurnHolds(t, more);
    EndingIsSound(s);
    if ReadEnding(s).Some? {
      EndingIsFree(ReadEnding(s).value, m);
    }
  }

  lemma {:induction false} TurnHolds(t: Turn, more: string)
    requires TurnOk(t)
    ensures Contains(TurnText(t) + more, if t.closed then TURN_CLOSE else RESPONSE_CLOSE)
  {
    var head := TURN_OPEN + t.role + "\n";
    if t.closed {
      HoldsDeep(head, CallTexts(t), ResponseTexts(t), t.content, TURN_CLOSE, "\n", more);
    } else {
      var b, rest := t.responses[0], BracedTexts(t.responses[1..], RESPONSE_OPEN, RESPONSE, RESPONSE_CLOSE);
      var front := RESPONSE_OPEN + InnerText(b, RESPONSE);
      assert TailText(t) == "" && ResponseTexts(t) + "" == "" + (front + (RESPONSE_CLOSE + rest));
      HoldsDeep(head, CallTexts(t), "", front, RESPONSE_CLOSE, rest, more);
    }
  }

  lemma {:induction false} HoldsDeep(a: string, b: string, c: string, d: string, m: string, e: string, more: string)
    ensures Contains(a + (b + (c + (d + (m + e)))) + more, m)
  {
    HoldsInside(a + b + c + d, m, e + more);
    assert a + (b + (c + (d + (m + e)))) + more == a + b + c + d + m + (e + more);
  }

  lemma {:induction false} TurnsFrom(s: string, t: Turn, body: string, rest: string, ts: seq<Turn>, e: Ending)
    requires ReadEnding(s).None? && ReadRole(s) == Some((t.role, body))
    requires ReadTurnBody(t.role, body) == Some((t, rest)) && ReadTurns(rest) == Some((ts, e))
    ensures ReadTurns(s) == Some(([t] + ts, e))
  {
  }

  lemma {:induction false} TurnsParts(s: string, ts: seq<Turn>, e: Ending)
    requires ReadEnding(s).None? && ReadTurns(s) == Some((ts, e))
    ensures ts != [] && ReadRole(s).Some? && ReadRole(s).value.0 == ts[0].role
    ensures var t := ReadTurnBody(ts[0].role, ReadRole(s).value.1);
            t.Some? && t.value.0 == ts[0] && ReadTurns(t.value.1) == Some((ts[1..], e))
  {
    var role := ReadRole(s).value;
    var t := ReadTurnBody(role.0, role.1).value;
    BodyIsSound(role.0, role.1);
    assert ([t.0] + ReadTurns(t.1).value.0)[1..] == ReadTurns(t.1).value.0;
  }

  lemma {:induction false} FirstTurnRead(t: Turn, ts: seq<Turn>, e: Ending)
    requires TurnOk(t) && ReadTurns(TurnText(t) + (TurnsText(ts) + EndingText(e))) == Some(([t] + ts, e))
    ensures var rest := TurnsText(ts) + EndingText(e);
            && '\n' !in t.role && ReadTurnBody(t.role, BodyText(t) + rest) == Some((t, rest))
            && ReadTurns(rest) == Some((ts, e))
  {
    var rest := TurnsText(ts) + EndingText(e);
    var s := TurnText(t) + rest;
    TurnIsNoEnding(t, rest);
    TurnsParts(s, [t] + ts, e);
    assert ([t] + ts)[1..] == ts;
    Assoc(TURN_OPEN + t.role + "\n", BodyText(t), rest);
    RoleExact(t.role, BodyText(t) + rest);
    var last := ReadTurnBody(t.role, BodyText(t) + rest).value.1;
    TurnsAreSound(last);
  }

  lemma {:induction false} TurnsOpen(ts: seq<Turn>, e: Ending)
    ensures AtTurn(TurnsText(ts) + EndingText(e))
  {
    if ts == [] {
      assert "" + EndingText(e) == EndingText(e);
      assert EndingText(Ending(false, true)) == NO_THOUGHT && EndingText(Ending(false, false)) == "";
    } else {
      var t := ts[0];
      Assoc(TurnText(t), TurnsText(ts[1..]), EndingText(e));
      Assoc3(TURN_OPEN, t.role, "\n", BodyText(t));
    }
  }

  lemma {:induction false} TurnsExact(ts: seq<Turn>, e: Ending)
    requires forall t :: t in ts ==> TurnOk(t)
    ensures ReadTurns(TurnsText(ts) + EndingText(e)) == Some((ts, e)) <==> forall t :: t in ts ==> TurnReadable(t)
  {
    if ts == [] {
      NoTurnsRead(e);
    } else {
      var t, more := ts[0], ts[1..];
      var rest := TurnsText(more) + EndingText(e);
      assert ts == [t] + more && t in ts;
      TurnInFront(t, more, EndingText(e));
      TurnsExact(more, e);
      TurnsOpen(more, e);
      BodyExact(t, rest);
      TurnThenTurns(t, more, e);
    }
  }

  lemma {:induction false} NoTurnsRead(e: Ending)
    ensures ReadTurns(TurnsText([]) + EndingText(e)) == Some(([], e))
  {
    assert "" + EndingText(e) == EndingText(e);
    EndingExact(e);
  }

  lemma {:induction false} EndingExact(e: Ending)
    ensures ReadEnding(EndingText(e)) == Some(e)
  {
    assert |EndingText(Ending(false, false))| < |EndingText(Ending(true, false))|;
    assert |EndingText(Ending(true, false))| < |EndingText(Ending(false, true))| < |EndingText(Ending(true, true))|;
  }

  lemma {:induction false} TurnThenTurns(t: Turn, ts: seq<Turn>, e: Ending)
    requires TurnOk(t)
    ensures var rest := TurnsText(ts) + EndingText(e);
            ReadTurns(TurnText(t) + rest) == Some(([t] + ts, e))
            <==> '\n' !in t.role && ReadTurnBody(t.role, BodyText(t) + rest) == Some((t, rest)) && ReadTurns(rest) == Some((ts, e))
  {
    var rest := TurnsText(ts) + EndingText(e);
    if ReadTurns(TurnText(t) + rest) == Some(([t] + ts, e)) {
      FirstTurnRead(t, ts, e);
    } else if '\n' !in t.role && ReadTurnBody(t.role, BodyText(t) + rest) == Some((t, rest)) && ReadTurns(rest) == Some((ts, e)) {
      TurnIsNoEnding(t, rest);
      Assoc(TURN_OPEN + t.role + "\n", BodyText(t), rest);
      RoleExact(t.role, BodyText(t) + rest);
      TurnsFrom(TurnText(t) + rest, t, BodyText(t) + rest, rest, ts, e);
    }
  }

  // -- The system block --------------------------------------------------------------------

  ghost predicate NoneHolds(texts: seq<string>, m: string) {
    forall t :: t in texts ==> !Contains(t, m)
  }

  lemma {:induction false} ToolsExact(tools: seq<string>)
    ensures ReadTools(PlainToolsText(tools)) == Some(tools) <==> NoneHolds(tools, TOOL_CLOSE)
  {
    if tools != [] {
      var t, more := tools[0], PlainToolsText(tools[1..]);
      assert tools == [t] + tools[1..];
      ToolsExact(tools[1..]);
      FirstToolExact(t, tools[1..], more);
    }
  }

  lemma {:induction false} FirstToolExact(t: string, tools: seq<string>, more: string)
    requires more == PlainToolsText(tools)
    ensures ReadTools(TOOL_OPEN + t + TOOL_CLOSE + more) == Some([t] + tools)
            <==> !Contains(t, TOOL_CLOSE) && ReadTools(more) == Some(tools)
  {
    var s := TOOL_OPEN + t + TOOL_CLOSE + more;
    Assoc3(TOOL_OPEN, t, TOOL_CLOSE, more);
    assert s[|TOOL_OPEN|..] == t + TOOL_CLOSE + more;
    Markers();
    CutLeaves(t, TOOL_CLOSE, more);
    if ReadTools(s) == Some([t] + tools) {
      var c := Cut(t + TOOL_CLOSE + more, TOOL_CLOSE).value;
      assert ([c.0] + ReadTools(c.1).value)[1..] == ([t] + tools)[1..] == tools;
      ToolsAreSound(c.1);
    }
  }

  lemma {:induction false} ToolsHold(tools: seq<string>)
    ensures Contains(PlainToolsText(tools), TURN_CLOSE) <==> !NoneHolds(tools, TURN_CLOSE)
    ensures PlainToolsText(tools) == "" || TOOL_OPEN <= PlainToolsText(tools)
  {
    Markers();
    if tools == [] {
      PlainIsFree("", TURN_CLOSE);
    } else {
      var t, more := tools[0], PlainToolsText(tools[1..]);
      assert tools == [t] + tools[1..];
      ToolsHold(tools[1..]);
      ToolHolds(t, more);
      Assoc3(TOOL_OPEN, t, TOOL_CLOSE, more);
    }
  }

  lemma {:induction false} ToolHolds(t: string, more: string)
    ensures Contains(TOOL_OPEN + t + TOOL_CLOSE + more, TURN_CLOSE) <==> Contains(t, TURN_CLOSE) || Contains(more, TURN_CLOSE)
  {
    Markers();
    Different();
    MarkerIsFree(TOOL_CLOSE, TURN_CLOSE);
    FreeFront();
    ContainsConcat(t, TOOL_CLOSE, TURN_CLOSE);
    ContainsBehindMarker(t + TOOL_CLOSE, more, TURN_CLOSE);
    ContainsBehindMarker(TOOL_OPEN, t + TOOL_CLOSE + more, TURN_CLOSE);
    Assoc3(TOOL_OPEN, t, TOOL_CLOSE, more);
  }

  lemma FreeFront()
    ensures !Contains(TOOL_OPEN, TURN_CLOSE)
  {
    Markers();
    Starts(TURN_CLOSE, TOOL_OPEN);
    MarkerIsFree(TOOL_OPEN, TURN_CLOSE);
    assert TOOL_OPEN[1] == '|' && TURN_CLOSE[1] == 't';
  }

  lemma {:induction false} SystemExact(system: string, tools: string)
    requires tools == "" || TOOL_OPEN <= tools
    ensures var c := Cut(system + tools, TOOL_OPEN);
            (if c.None? then system + tools else c.value.0) == system <==> !Contains(system, TOOL_OPEN)
  {
    Markers();
    if tools == "" {
      assert system + tools == system;
      CutFindsMarker(system, TOOL_OPEN);
    } else {
      var tail := tools[|TOOL_OPEN|..];
      assert tools == TOOL_OPEN + tail;
      Assoc(system, TOOL_OPEN, tail);
      CutMarker(system, TOOL_OPEN, tail);
      var s := system + TOOL_OPEN + tail;
      HoldsInside(system, TOOL_OPEN, tail);
      CutFindsMarker(s, TOOL_OPEN);
      var c := Cut(s, TOOL_OPEN).value;
      if c.0 == system {
        SameTail(system + TOOL_OPEN, c.1, tail);
      }
    }
  }

  lemma {:induction false} InsideExact(b: Block)
    ensures ReadInside(b.thinking, InsideText(b)) == Some(b) <==> !Contains(b.system, TOOL_OPEN) && NoneHolds(b.tools, TOOL_CLOSE)
  {
    var tools := PlainToolsText(b.tools);
    ToolsHold(b.tools);
    SystemExact(b.system, tools);
    ToolsExact(b.tools);
    assert (b.system + tools)[|b.system|..] == tools;
  }

  lemma {:induction false} InsideHolds(b: Block)
    ensures Contains(InsideText(b), TURN_CLOSE) <==> Contains(b.system, TURN_CLOSE) || !NoneHolds(b.tools, TURN_CLOSE)
  {
    Markers();
    ToolsHold(b.tools);
    ContainsConcat(b.system, PlainToolsText(b.tools), TURN_CLOSE);
  }

  lemma {:induction false} ThinkOpens(b: Block, tail: string)
    ensures THINK <= InsideText(b) + (TURN_CLOSE + tail) <==> THINK <= b.system
  {
    var tools := PlainToolsText(b.tools);
    var behind := tools + (TURN_CLOSE + tail);
    Markers();
    Different();
    ToolsHold(b.tools);
    Starts(THINK, TOOL_OPEN);
    Starts(THINK, TURN_CLOSE);
    if tools == "" {
      assert behind == TURN_CLOSE + tail;
    } else {
      assert behind == TOOL_OPEN + (tools[|TOOL_OPEN|..] + (TURN_CLOSE + tail));
    }
    InFront(b.system, behind, THINK);
    Assoc(b.system, tools, TURN_CLOSE + tail);
  }

  lemma {:induction false} BlockExact(b: Block, rest: string)
    ensures ReadBlock(BlockBody(b) + rest) == Some((b, rest)) <==> BlockReadable(b)
  {
    var inside, tail := InsideText(b), "\n" + rest;
    var u := inside + TURN_CLOSE + tail;
    var s := BlockBody(b) + rest;
    BlockOpens(if b.thinking then THINK else "", inside, TURN_CLOSE, rest);
    assert b.thinking ==> s[|THINK|..] == u;
    Assoc(inside, TURN_CLOSE, tail);
    ThinkOpens(b, tail);
    Markers();
    CutLeaves(inside, TURN_CLOSE, tail);
    InsideHolds(b);
    InsideExact(b);
    BlockFrom(s, u, b, rest);
  }

  lemma {:induction false} BlockOpens(k: string, inside: string, close: string, rest: string)
    ensures k + (inside + (close + "\n")) + rest == k + (inside + close + ("\n" + rest))
    ensures k == "" ==> k + (inside + (close + "\n")) + rest == inside + close + ("\n" + rest)
  {
  }

  lemma {:induction false} BlockFrom(s: string, u: string, b: Block, rest: string)
    requires b.thinking ==> THINK <= s && s[|THINK|..] == u
    requires !b.thinking ==> s == u
    requires u == InsideText(b) + TURN_CLOSE + ("\n" + rest)
    requires (var c := Cut(u, TURN_CLOSE); c.Some? && c.value.1 == "\n" + rest) <==> !Contains(InsideText(b), TURN_CLOSE)
    requires !Contains(InsideText(b), TURN_CLOSE) ==> Cut(u, TURN_CLOSE) == Some((InsideText(b), "\n" + rest))
    ensures ReadBlock(s) == Some((b, rest))
            <==> (THINK <= s <==> b.thinking) && !Contains(InsideText(b), TURN_CLOSE)
                 && ReadInside(b.thinking, InsideText(b)) == Some(b)
  {
    assert ("\n" + rest)[1..] == rest;
    if ReadBlock(s) == Some((b, rest)) {
      BlockKeeps(s, b, rest);
    }
  }

  lemma {:induction false} BlockKeeps(s: string, b: Block, rest: string)
    requires ReadBlock(s) == Some((b, rest))
    ensures (THINK <= s <==> b.thinking)
    ensures var c := Cut(if b.thinking then s[|THINK|..] else s, TURN_CLOSE); c.Some? && c.value.1 == "\n" + rest
  {
    var c := Cut(if THINK <= s then s[|THINK|..] else s, TURN_CLOSE).value;
    InsideIsSound(THINK <= s, c.0);
    LineEndFirst(c.1, rest);
  }

  lemma LineEndFirst(s: string, rest: string)
    ensures s != "" && s[0] == '\n' && s[1..] == rest <==> s == "\n" + rest
  {
  }

  // -- Whole prompts -------------------------------------------------------------------------

  lemma {:induction false} WithBlock(b: Block, rest: string)
    ensures ReadFront(FrontText(Some(b)) + rest) == (Some(b), rest) <==> BlockReadable(b)
  {
    BlockExact(b, rest);
    Assoc(TURN_OPEN + "system" + "\n", BlockBody(b), rest);
    RoleExact("system", BlockBody(b) + rest);
  }

  lemma {:induction false} WithoutBlock(ts: seq<Turn>, e: Ending)
    requires (forall t :: t in ts ==> TurnReadable(t)) && (ts != [] ==> ts[0].role != "system")
    ensures var s := TurnsText(ts) + EndingText(e); ReadFront(s) == (None, s)
  {
    var s := TurnsText(ts) + EndingText(e);
    if ts == [] {
      assert s == EndingText(e);
      EndingHasNoBlock(e);
    } else {
      assert ts == [ts[0]] + ts[1..] && ts[0] in ts;
      TurnInFront(ts[0], ts[1..], EndingText(e));
      RoleExact(ts[0].role, BodyText(ts[0]) + (TurnsText(ts[1..]) + EndingText(e)));
    }
  }

  lemma {:induction false} EndingHasNoBlock(e: Ending)
    ensures ReadFront(EndingText(e)) == (None, EndingText(e))
  {
    var tail := if e.emptyThought then NO_THOUGHT else "";
    if e.opensModelTurn {
      assert EndingText(e) == TURN_OPEN + "model" + "\n" + tail;
      RoleExact("model", tail);
      NoSystemLine(EndingText(e));
    } else {
      assert EndingText(e) == tail;
      assert TURN_OPEN[2] == 't' && CHANNEL_OPEN[2] == 'c';
      NoSystemLine(tail);
    }
  }

  lemma NoSystemLine(s: string)
    requires ReadRole(s).Some? ==> ReadRole(s).value.0 != "system"
    ensures ReadFront(s) == (None, s)
  {
  }

  /** The text of what may be read is read as just that, exactly when it is readable. */
  lemma {:induction false} DecodedExact(d: Decoded)
    requires DecodedOk(d)
    ensures ReadPrompt(DecodedText(d)) == Some(d) <==> DecodedReadable(d)
  {
    var rest := TurnsText(d.turns) + EndingText(d.ending);
    var s := FrontText(d.block) + rest;
    TurnsExact(d.turns, d.ending);
    BehindBos(s);
    if d.block.Some? {
      WithBlock(d.block.value, rest);
    } else {
      assert s == rest;
      if DecodedReadable(d) {
        WithoutBlock(d.turns, d.ending);
      }
    }
    if ReadPrompt(DecodedText(d)) == Some(d) {
      FrontKeeps(d);
    }
  }

  lemma BehindBos(s: string)
    ensures BOS <= BOS + s && (BOS + s)[|BOS|..] == s
  {
  }

  lemma {:induction false} FrontKeeps(d: Decoded)
    requires ReadPrompt(DecodedText(d)) == Some(d)
    ensures var rest := TurnsText(d.turns) + EndingText(d.ending);
            && ReadFront(FrontText(d.block) + rest) == (d.block, rest)
            && ReadTurns(rest) == Some((d.turns, d.ending))
  {
    var rest := TurnsText(d.turns) + EndingText(d.ending);
    var s := FrontText(d.block) + rest;
    BehindBos(s);
    FrontIsSound(s);
    TurnsAreSound(ReadFront(s).1);
  }

  lemma {:induction false} MessageIsOk(m: Message)
    ensures TurnOk(TurnOf(m))
  {
    ResponsesAreBraced(m.responses);
    match m.content
    case TextContent(text) => assert text == "" ==> Shown(RoleOf(m), text) == "";
    case _ =>
  }

  lemma {:induction false} NormalIsOk(c: Conversation)
    requires c.messages != []
    ensures DecodedOk(Normal(c))
  {
    var ms := LoopMessages(c);
    forall t | t in TurnsOf(ms) ensures TurnOk(t) {
      var i :| 0 <= i < |ms| && TurnsOf(ms)[i] == t;
      MessageIsOk(ms[i]);
    }
  }

  /** Reading a prompt gives back its conversation, up to what the template forgets, exactly
      when the conversation is readable. */
  lemma {:induction false} PromptRoundTrip(c: Conversation)
    requires c.messages != []
    ensures ReadPrompt(PromptText(c).value) == Some(Normal(c)) <==> Readable(c)
  {
    PromptIsDecodedText(c);
    NormalIsOk(c);
    DecodedExact(Normal(c));
  }

  /** Two readable conversations with the same prompt differ only in what the template
      forgets. */
  lemma {:induction false} PromptIsUnambiguous(c: Conversation, d: Conversation)
    requires c.messages != [] && d.messages != []
    requires Readable(c) && Readable(d) && PromptText(c) == PromptText(d)
    ensures Normal(c) == Normal(d)
  {
    PromptRoundTrip(c);
    PromptRoundTrip(d);
  }

  /** Nor do their calls differ in more: mappings that print readably agree but for the order
      of insertion, at every depth. */
  lemma {:induction false} ArgumentsAreUnambiguous(c: Conversation, d: Conversation, i: nat, k: nat)
    requires c.messages != [] && d.messages != []
    requires Readable(c) && Readable(d) && PromptText(c) == PromptText(d)
    requires i < |LoopMessages(c)| && k < |LoopMessages(c)[i].calls|
    ensures i < |LoopMessages(d)| && k < |LoopMessages(d)[i].calls|
    ensures var x, y := LoopMessages(c)[i].calls[k], LoopMessages(d)[i].calls[k];
            && x.name == y.name && Body(x.arguments) == Body(y.arguments)
            && (x.arguments.Mapping? && y.arguments.Mapping?
                && Printable(Canon(Map(x.arguments.entries)), false) && Printable(Canon(Map(y.arguments.entries)), false) ==>
                  Canon(Map(x.arguments.entries)) == Canon(Map(y.arguments.entries)))
  {
    PromptIsUnambiguous(c, d);
    var ms, ns := LoopMessages(c), LoopMessages(d);
    assert |TurnsOf(ms)| == |TurnsOf(ns)| && TurnsOf(ms)[i] == TurnsOf(ns)[i];
    PairsOfCalls(ms[i].calls);
    PairsOfCalls(ns[i].calls);
    var x, y := ms[i].calls[k], ns[i].calls[k];
    if x.arguments.Mapping? && y.arguments.Mapping? {
      ArgumentsRoundTrip(x.arguments.entries);
      ArgumentsRoundTrip(y.arguments.entries);
    }
  }

  lemma {:induction false} PairsOfCalls(calls: seq<ToolCall>)
    ensures |CallPairs(calls)| == |calls|
    ensures forall k :: 0 <= k < |calls| ==> CallPairs(calls)[k] == (calls[k].name, Body(calls[k].arguments))
  {
    if calls != [] {
      PairsOfCalls(calls[1..]);
      assert CallPairs(calls)[1..] == CallPairs(calls[1..]);
    }
  }
}
