/** Reading a prompt back: a reader for the template's markup, what it should find in the
    prompt of a conversation, and that it reads nothing that does not print back. */
module Decoding {
  import opened Options
  import opened Text
  import opened Thinking
  import opened Dictsort
  import opened Arguments
  import opened ToolCalls
  import opened Conversation

  type Braced = (string, string)

  datatype Turn = Turn(
    role: string,
    calls: seq<Braced>,
    responses: seq<Braced>,
    content: string,
    closed: bool)

  datatype Block = Block(thinking: bool, system: string, tools: seq<string>)

  datatype Ending = Ending(opensModelTurn: bool, emptyThought: bool)

  datatype Decoded = Decoded(block: Option<Block>, turns: seq<Turn>, ending: Ending)

  lemma Markers()
    ensures IsMarker(TURN_OPEN) && IsMarker(TURN_CLOSE) && IsMarker(CHANNEL_OPEN) && IsMarker(CHANNEL_CLOSE)
    ensures IsMarker(RESPONSE_OPEN) && IsMarker(RESPONSE_CLOSE) && IsMarker(CALL_OPEN) && IsMarker(CALL_CLOSE)
    ensures IsMarker(TOOL_OPEN) && IsMarker(TOOL_CLOSE) && IsMarker(THINK)
  {
  }

  // -- The reader ------------------------------------------------------------------

  /** `prefix name{body}`. */
  function ReadInner(inner: string, prefix: string): Option<Braced> {
    if !(prefix <= inner) then None else
    var n := Cut(inner[|prefix|..], "{");
    if n.None? || n.value.1 == "" || n.value.1[|n.value.1| - 1] != '}' then None
    else Some((n.value.0, n.value.1[..|n.value.1| - 1]))
  }

  /** The same between an opening and a closing marker. */
  function ReadBraced(s: string, open: string, prefix: string, close: string): (r: Option<(Braced, string)>)
    requires open != "" && close != ""
    ensures r.Some? ==> |r.value.1| < |s|
  {
    if !(open <= s) then None else
    var c := Cut(s[|open|..], close);
    if c.None? then None else
    var b := ReadInner(c.value.0, prefix);
    if b.None? then None else Some((b.value, c.value.1))
  }

  /** As many of them as the opening markers announce. */
  function ReadAll(s: string, open: string, prefix: string, close: string): (r: Option<(seq<Braced>, string)>)
    requires open != "" && close != ""
    ensures r.Some? ==> |r.value.1| <= |s|
    decreases |s|
  {
    if !(open <= s) then Some(([], s)) else
    var b := ReadBraced(s, open, prefix, close);
    if b.None? then None else
    var more := ReadAll(b.value.1, open, prefix, close);
    if more.None? then None else Some(([b.value.0] + more.value.0, more.value.1))
  }

  /** What may follow a message: the end, another turn or the empty thought. */
  predicate AtTurn(s: string) {
    s == "" || s == NO_THOUGHT || TURN_OPEN <= s
  }

  /** The content of a turn and whether the turn is closed: behind tool responses it may stay
      open, and then there is no content. */
  function ReadTail(responded: bool, s: string): (r: Option<(string, bool, string)>)
    ensures r.Some? ==> |r.value.2| <= |s|
  {
    if responded && AtTurn(s) then Some(("", false, s)) else
    var c := Cut(s, TURN_CLOSE);
    if c.None? || c.value.1 == "" || c.value.1[0] != '\n' then None
    else Some((c.value.0, true, c.value.1[1..]))
  }

  /** What stands behind the role line of a turn. */
  function ReadTurnBody(role: string, s: string): (r: Option<(Turn, string)>)
    ensures r.Some? ==> |r.value.1| <= |s|
  {
    var calls := ReadAll(s, CALL_OPEN, CALL, CALL_CLOSE);
    if calls.None? then None else
    var responses := ReadAll(calls.value.1, RESPONSE_OPEN, RESPONSE, RESPONSE_CLOSE);
    if responses.None? then None else
    var tail := ReadTail(responses.value.0 != [], responses.value.1);
    if tail.None? then None
    else Some((Turn(role, calls.value.0, responses.value.0, tail.value.0, tail.value.1), tail.value.2))
  }

  function EndingText(e: Ending): string {
    (if e.opensModelTurn then TURN_OPEN + "model" + "\n" else "") + (if e.emptyThought then NO_THOUGHT else "")
  }

  function ReadEnding(s: string): Option<Ending> {
    if s == EndingText(Ending(false, false)) then Some(Ending(false, false))
    else if s == EndingText(Ending(false, true)) then Some(Ending(false, true))
    else if s == EndingText(Ending(true, false)) then Some(Ending(true, false))
    else if s == EndingText(Ending(true, true)) then Some(Ending(true, true))
    else None
  }

  /** The role line of a turn, and the rest. */
  function ReadRole(s: string): (r: Option<(string, string)>)
    ensures r.Some? ==> |r.value.1| < |s|
  {
    if TURN_OPEN <= s then Cut(s[|TURN_OPEN|..], "\n") else None
  }

  function ReadTurns(s: string): Option<(seq<Turn>, Ending)>
    decreases |s|
  {
    var e := ReadEnding(s);
    if e.Some? then Some(([], e.value)) else
    var role := ReadRole(s);
    if role.None? then None else
    var t := ReadTurnBody(role.value.0, role.value.1);
    if t.None? then None else
    var more := ReadTurns(t.value.1);
    if more.None? then None else Some(([t.value.0] + more.value.0, more.value.1))
  }

  function ReadTools(s: string): Option<seq<string>>
    decreases |s|
  {
    if s == "" then Some([])
    else if !(TOOL_OPEN <= s) then None
    else
      var c := Cut(s[|TOOL_OPEN|..], TOOL_CLOSE);
      if c.None? then None else
      var more := ReadTools(c.value.1);
      if more.None? then None else Some([c.value.0] + more.value)
  }

  /** The system text in front of the first tool, and the tools. */
  function ReadInside(thinking: bool, inside: string): Option<Block> {
    var t := Cut(inside, TOOL_OPEN);
    var system := if t.None? then inside else t.value.0;
    var tools := ReadTools(inside[|system|..]);
    if tools.None? then None else Some(Block(thinking, system, tools.value))
  }

  function ReadBlock(s: string): Option<(Block, string)> {
    var thinking := THINK <= s;
    var c := Cut(if thinking then s[|THINK|..] else s, TURN_CLOSE);
    if c.None? || c.value.1 == "" || c.value.1[0] != '\n' then None else
    var b := ReadInside(thinking, c.value.0);
    if b.None? then None else Some((b.value, c.value.1[1..]))
  }

  /** The system block in front, if there is one, and what follows. */
  function ReadFront(s: string): (Option<Block>, string) {
    var first := ReadRole(s);
    var b := if first.Some? && first.value.0 == "system" then ReadBlock(first.value.1) else None;
    if b.Some? then (Some(b.value.0), b.value.1) else (None, s)
  }

  function ReadPrompt(text: string): Option<Decoded> {
    if !(BOS <= text) then None else
    var (block, rest) := ReadFront(text[|BOS|..]);
    var t := ReadTurns(rest);
    if t.None? then None else Some(Decoded(block, t.value.0, t.value.1))
  }

  // -- The text of what is read ------------------------------------------------------

  function InnerText(b: Braced, prefix: string): string {
    prefix + b.0 + "{" + b.1 + "}"
  }

  function BracedText(b: Braced, open: string, prefix: string, close: string): string {
    open + InnerText(b, prefix) + close
  }

  function BracedTexts(bs: seq<Braced>, open: string, prefix: string, close: string): string {
    if bs == [] then "" else BracedText(bs[0], open, prefix, close) + BracedTexts(bs[1..], open, prefix, close)
  }

  function CallTexts(t: Turn): string {
    BracedTexts(t.calls, CALL_OPEN, CALL, CALL_CLOSE)
  }

  function ResponseTexts(t: Turn): string {
    BracedTexts(t.responses, RESPONSE_OPEN, RESPONSE, RESPONSE_CLOSE)
  }

  function TailText(t: Turn): string {
    t.content + (if t.closed then TURN_CLOSE + "\n" else "")
  }

  function BodyText(t: Turn): string {
    CallTexts(t) + (ResponseTexts(t) + TailText(t))
  }

  function TurnText(t: Turn): string {
    TURN_OPEN + t.role + "\n" + BodyText(t)
  }

  function TurnsText(ts: seq<Turn>): string {
    if ts == [] then "" else TurnText(ts[0]) + TurnsText(ts[1..])
  }

  function PlainToolsText(tools: seq<string>): string {
    if tools == [] then "" else TOOL_OPEN + tools[0] + TOOL_CLOSE + PlainToolsText(tools[1..])
  }

  function InsideText(b: Block): string {
    b.system + PlainToolsText(b.tools)
  }

  /** A system block behind its role line. */
  function BlockBody(b: Block): string {
    (if b.thinking then THINK else "") + (InsideText(b) + (TURN_CLOSE + "\n"))
  }

  function FrontText(block: Option<Block>): string {
    if block.None? then "" else TURN_OPEN + "system" + "\n" + BlockBody(block.value)
  }

  function DecodedText(d: Decoded): string {
    BOS + (FrontText(d.block) + (TurnsText(d.turns) + EndingText(d.ending)))
  }

  // -- Whatever is read prints back ----------------------------------------------------

  lemma Assoc3(a: string, b: string, c: string, d: string)
    ensures a + b + c + d == a + (b + c + d)
  {
  }

  lemma {:induction false} InnerIsSound(inner: string, prefix: string)
    requires ReadInner(inner, prefix).Some?
    ensures inner == InnerText(ReadInner(inner, prefix).value, prefix)
  {
    var (name, tail) := Cut(inner[|prefix|..], "{").value;
    assert tail == tail[..|tail| - 1] + "}";
    assert inner == prefix + (name + "{" + tail);
  }

  lemma {:induction false} BracedIsSound(s: string, open: string, prefix: string, close: string)
    requires open != "" && close != "" && ReadBraced(s, open, prefix, close).Some?
    ensures var (b, rest) := ReadBraced(s, open, prefix, close).value; s == BracedText(b, open, prefix, close) + rest
  {
    var c := Cut(s[|open|..], close).value;
    InnerIsSound(c.0, prefix);
    assert s == open + (c.0 + close + c.1);
    Assoc3(open, c.0, close, c.1);
  }

  lemma {:induction false} AllIsSound(s: string, open: string, prefix: string, close: string)
    requires open != "" && close != "" && ReadAll(s, open, prefix, close).Some?
    ensures var (bs, rest) := ReadAll(s, open, prefix, close).value; s == BracedTexts(bs, open, prefix, close) + rest
    decreases |s|
  {
    if !(open <= s) {
      assert "" + s == s;
    } else {
      var (b, rest) := ReadBraced(s, open, prefix, close).value;
      var (bs, last) := ReadAll(rest, open, prefix, close).value;
      BracedIsSound(s, open, prefix, close);
      AllIsSound(rest, open, prefix, close);
      Assoc(BracedText(b, open, prefix, close), BracedTexts(bs, open, prefix, close), last);
      assert ([b] + bs)[1..] == bs;
    }
  }

  lemma {:induction false} TailIsSound(responded: bool, s: string)
    requires ReadTail(responded, s).Some?
    ensures var (content, closed, rest) := ReadTail(responded, s).value;
            s == content + (if closed then TURN_CLOSE + "\n" else "") + rest
  {
    if responded && AtTurn(s) {
      assert "" + "" + s == s;
    } else {
      var (content, tail) := Cut(s, TURN_CLOSE).value;
      assert tail == "\n" + tail[1..];
      Assoc3("", content, TURN_CLOSE, tail);
      assert content + (TURN_CLOSE + "\n") + tail[1..] == content + TURN_CLOSE + ("\n" + tail[1..]);
    }
  }

  lemma {:induction false} BodyIsSound(role: string, s: string)
    requires ReadTurnBody(role, s).Some?
    ensures var (t, rest) := ReadTurnBody(role, s).value; t.role == role && s == BodyText(t) + rest
  {
    var (calls, a) := ReadAll(s, CALL_OPEN, CALL, CALL_CLOSE).value;
    var (responses, b) := ReadAll(a, RESPONSE_OPEN, RESPONSE, RESPONSE_CLOSE).value;
    AllIsSound(s, CALL_OPEN, CALL, CALL_CLOSE);
    AllIsSound(a, RESPONSE_OPEN, RESPONSE, RESPONSE_CLOSE);
    TailIsSound(responses != [], b);
    var (t, rest) := ReadTurnBody(role, s).value;
    BodyGroups(CallTexts(t), ResponseTexts(t), TailText(t), rest);
  }

  lemma BodyGroups(a: string, b: string, c: string, rest: string)
    ensures a + (b + c) + rest == a + (b + (c + rest))
  {
  }

  lemma {:induction false} RoleIsSound(s: string)
    requires ReadRole(s).Some?
    ensures var (role, rest) := ReadRole(s).value; s == TURN_OPEN + role + "\n" + rest && '\n' !in role
  {
    var (role, rest) := ReadRole(s).value;
    assert s == TURN_OPEN + (role + "\n" + rest);
    Assoc3(TURN_OPEN, role, "\n", rest);
    CutChar(role, '\n', rest);
  }

  lemma {:induction false} EndingIsSound(s: string)
    ensures ReadEnding(s).Some? ==> s == EndingText(ReadEnding(s).value)
  {
  }

  /** However a list of turns is read, it prints back to the text it was read from. */
  lemma {:induction false} TurnsAreSound(s: string)
    requires ReadTurns(s).Some?
    ensures var (ts, e) := ReadTurns(s).value; s == TurnsText(ts) + EndingText(e)
    decreases |s|
  {
    EndingIsSound(s);
    if ReadEnding(s).Some? {
      assert "" + s == s;
    } else {
      var (role, body) := ReadRole(s).value;
      var (t, rest) := ReadTurnBody(role, body).value;
      RoleIsSound(s);
      BodyIsSound(role, body);
      TurnsAreSound(rest);
      var (ts, e) := ReadTurns(rest).value;
      TurnInFront(t, ts, EndingText(e));
    }
  }

  lemma {:induction false} TurnInFront(t: Turn, ts: seq<Turn>, ending: string)
    ensures TurnsText([t] + ts) + ending == TurnText(t) + (TurnsText(ts) + ending)
    ensures TurnText(t) + (TurnsText(ts) + ending) == TURN_OPEN + t.role + "\n" + (BodyText(t) + (TurnsText(ts) + ending))
  {
    assert ([t] + ts)[1..] == ts;
    Assoc(TurnText(t), TurnsText(ts), ending);
    Assoc(TURN_OPEN + t.role + "\n", BodyText(t), TurnsText(ts) + ending);
  }

  lemma {:induction false} ToolsAreSound(s: string)
    requires ReadTools(s).Some?
    ensures s == PlainToolsText(ReadTools(s).value)
    decreases |s|
  {
    if s != "" {
      var (t, rest) := Cut(s[|TOOL_OPEN|..], TOOL_CLOSE).value;
      ToolsAreSound(rest);
      assert s == TOOL_OPEN + (t + TOOL_CLOSE + rest);
      Assoc3(TOOL_OPEN, t, TOOL_CLOSE, rest);
      assert ([t] + ReadTools(rest).value)[1..] == ReadTools(rest).value;
    }
  }

  lemma {:induction false} InsideIsSound(thinking: bool, inside: string)
    requires ReadInside(thinking, inside).Some?
    ensures inside == InsideText(ReadInside(thinking, inside).value) && ReadInside(thinking, inside).value.thinking == thinking
  {
    var b := ReadInside(thinking, inside).value;
    assert b.system <= inside;
    PrefixAndRest(inside, b.system);
    ToolsAreSound(inside[|b.system|..]);
  }

  lemma PrefixAndRest(s: string, prefix: string)
    requires prefix <= s
    ensures s == prefix + s[|prefix|..]
  {
  }

  lemma {:induction false} BlockIsSound(s: string)
    requires ReadBlock(s).Some?
    ensures var (b, rest) := ReadBlock(s).value; s == BlockBody(b) + rest
  {
    var k := if THINK <= s then THINK else "";
    var u := if THINK <= s then s[|THINK|..] else s;
    var (inside, tail) := Cut(u, TURN_CLOSE).value;
    InsideIsSound(THINK <= s, inside);
    assert s == k + u;
    BlockGroups(s, k, inside, TURN_CLOSE, tail);
  }

  lemma {:induction false} BlockGroups(s: string, k: string, inside: string, close: string, tail: string)
    requires s == k + (inside + close + tail) && tail != "" && tail[0] == '\n'
    ensures s == k + (inside + (close + "\n")) + tail[1..]
  {
    assert tail == "\n" + tail[1..];
  }

  /** The reader accepts nothing but prompts: what it reads prints back to the text. */
  lemma {:induction false} PromptIsSound(text: string)
    requires ReadPrompt(text).Some?
    ensures text == DecodedText(ReadPrompt(text).value)
  {
    var s := text[|BOS|..];
    var (block, rest) := ReadFront(s);
    TurnsAreSound(rest);
    FrontIsSound(s);
    assert text == BOS + s;
  }

  lemma {:induction false} FrontIsSound(s: string)
    ensures var (block, rest) := ReadFront(s); s == FrontText(block) + rest
  {
    var (block, rest) := ReadFront(s);
    if block.Some? {
      RoleIsSound(s);
      var body := ReadRole(s).value.1;
      BlockIsSound(body);
      Assoc(TURN_OPEN + "system" + "\n", BlockBody(block.value), rest);
    } else {
      assert "" + s == s;
    }
  }

  // -- What the reader should find -------------------------------------------------

  function CallPairs(calls: seq<ToolCall>): seq<Braced> {
    if calls == [] then []
    else [(calls[0].name, Body(calls[0].arguments))] + CallPairs(calls[1..])
  }

  function ResponsePairs(rs: seq<ToolResponse>): seq<Braced> {
    if rs == [] then []
    else [(ResponseName(rs[0]), ResponseBody(rs[0].response))] + ResponsePairs(rs[1..])
  }

  function TurnOf(m: Message): Turn {
    Turn(RoleOf(m), CallPairs(m.calls), ResponsePairs(m.responses), ContentText(RoleOf(m), m.content), Closed(m))
  }

  function TurnsOf(ms: seq<Message>): (ts: seq<Turn>)
    ensures |ts| == |ms| && forall i :: 0 <= i < |ms| ==> ts[i] == TurnOf(ms[i])
  {
    if ms == [] then [] else [TurnOf(ms[0])] + TurnsOf(ms[1..])
  }

  function Trims(texts: seq<string>): (r: seq<string>)
    ensures |r| == |texts| && forall i :: 0 <= i < |texts| ==> r[i] == Trim(texts[i])
  {
    if texts == [] then [] else [Trim(texts[0])] + Trims(texts[1..])
  }

  /** The conversation up to what the template itself forgets: roles as printed, texts as
      shown, arguments as printed, the leading system message in the system block. */
  function Normal(c: Conversation): Decoded
    requires c.messages != []
  {
    Decoded(
      if HasSystemBlock(c) then Some(Block(c.thinking, SystemText(c), Trims(c.tools))) else None,
      TurnsOf(LoopMessages(c)),
      Ending(OpensModelTurn(c), c.addGenerationPrompt && !c.thinking))
  }

  lemma {:induction false} CallsAreBraced(calls: seq<ToolCall>)
    ensures RenderCalls(calls) == BracedTexts(CallPairs(calls), CALL_OPEN, CALL, CALL_CLOSE)
  {
    if calls != [] {
      CallsAreBraced(calls[1..]);
      var p := CallPairs(calls);
      assert p[1..] == CallPairs(calls[1..]);
      assert RenderCall(calls[0]) == BracedText(p[0], CALL_OPEN, CALL, CALL_CLOSE);
    }
  }

  lemma {:induction false} ResponsesAreBraced(rs: seq<ToolResponse>)
    ensures ResponsesText(rs) == BracedTexts(ResponsePairs(rs), RESPONSE_OPEN, RESPONSE, RESPONSE_CLOSE)
    ensures ResponsePairs(rs) == [] <==> rs == []
  {
    if rs != [] {
      ResponsesAreBraced(rs[1..]);
      var p := ResponsePairs(rs);
      assert p[1..] == ResponsePairs(rs[1..]);
      assert ResponseText(rs[0]) == BracedText(p[0], RESPONSE_OPEN, RESPONSE, RESPONSE_CLOSE);
    }
  }

  lemma {:induction false} MessageIsTurn(m: Message)
    ensures MessageText(m) == TurnText(TurnOf(m))
  {
    CallsAreBraced(m.calls);
    ResponsesAreBraced(m.responses);
  }

  lemma {:induction false} SplitMessages(ms: seq<Message>)
    requires ms != []
    ensures MessagesText(ms) == MessageText(ms[0]) + MessagesText(ms[1..])
  {
  }

  lemma {:induction false} MessagesAreTurns(ms: seq<Message>)
    ensures MessagesText(ms) == TurnsText(TurnsOf(ms))
  {
    if ms != [] {
      SplitMessages(ms);
      MessageIsTurn(ms[0]);
      MessagesAreTurns(ms[1..]);
      assert TurnsOf(ms)[1..] == TurnsOf(ms[1..]);
    }
  }

  lemma {:induction false} ToolsArePlain(tools: seq<string>)
    ensures ToolsText(tools) == PlainToolsText(Trims(tools))
  {
    if tools != [] {
      ToolsArePlain(tools[1..]);
      assert Trims(tools)[1..] == Trims(tools[1..]);
    }
  }

  lemma {:induction false} PromptShape(c: Conversation)
    requires c.messages != []
    ensures PromptText(c)
            == Some(BOS + (BlockText(c) + (MessagesText(LoopMessages(c)) + EndingText(Normal(c).ending))))
  {
    var block, ms, g := BlockText(c), MessagesText(LoopMessages(c)), GenerationText(c);
    Assoc(BOS, block, ms + g);
    assert g == EndingText(Normal(c).ending);
  }

  /** The prompt is the text of what the reader should find. */
  lemma {:induction false} PromptIsDecodedText(c: Conversation)
    requires c.messages != []
    ensures PromptText(c) == Some(DecodedText(Normal(c)))
  {
    PromptShape(c);
    MessagesAreTurns(LoopMessages(c));
    FrontShape(c);
  }

  lemma {:induction false} FrontShape(c: Conversation)
    requires c.messages != []
    ensures BlockText(c) == FrontText(Normal(c).block)
  {
    ToolsArePlain(c.tools);
    if HasSystemBlock(c) {
      Assoc(SystemText(c), ToolsText(c.tools), TURN_CLOSE + "\n");
    }
  }
}
