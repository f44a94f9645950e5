/** Turn structure: how the turn markers of a prompt pair up. */
module Turns {
  import opened Options
  import opened Text
  import opened Thinking
  import opened Arguments
  import opened ToolCalls
  import opened Conversation
  import opened Decoding
  import opened Prompts

  // -- The turn markers of a text ---------------------------------------------------

  /** The turn markers in order: true where a turn opens, false where one closes. */
  function Events(s: string): seq<bool>
    decreases |s|
  {
    if s == "" then []
    else if TURN_OPEN <= s then [true] + Events(s[|TURN_OPEN|..])
    else if TURN_CLOSE <= s then [false] + Events(s[|TURN_CLOSE|..])
    else Events(s[1..])
  }

  ghost predicate NoTurnMarker(s: string) {
    !Contains(s, TURN_OPEN) && !Contains(s, TURN_CLOSE)
  }

  lemma {:induction false} NoEvents(s: string)
    requires NoTurnMarker(s)
    ensures Events(s) == []
  {
    if s != "" {
      assert s[0..] == s;
      assert forall i :: 0 <= i <= |s| - 1 ==> s[1..][i..] == s[i + 1..];
      NoEvents(s[1..]);
    }
  }

  /** No turn marker runs from a into b. */
  ghost predicate Apart(a: string, b: string) {
    forall i :: 0 <= i < |a| ==>
      (TURN_OPEN <= (a + b)[i..] ==> TURN_OPEN <= a[i..]) && (TURN_CLOSE <= (a + b)[i..] ==> TURN_CLOSE <= a[i..])
  }

  lemma {:induction false} ApartAtMarker(a: string, b: string)
    requires AtMarker(b)
    ensures Apart(a, b)
  {
    Markers();
    forall i | 0 <= i < |a|
      ensures TURN_OPEN <= (a + b)[i..] ==> TURN_OPEN <= a[i..]
      ensures TURN_CLOSE <= (a + b)[i..] ==> TURN_CLOSE <= a[i..]
    {
      NoSpan(a, b, TURN_OPEN, i);
      NoSpan(a, b, TURN_CLOSE, i);
    }
  }

  lemma {:induction false} ApartDrop(a: string, b: string, n: nat)
    requires Apart(a, b) && n <= |a|
    ensures Apart(a[n..], b) && (a + b)[n..] == a[n..] + b
  {
    assert (a + b)[n..] == a[n..] + b;
    forall i | 0 <= i < |a| - n
      ensures TURN_OPEN <= (a[n..] + b)[i..] ==> TURN_OPEN <= a[n..][i..]
      ensures TURN_CLOSE <= (a[n..] + b)[i..] ==> TURN_CLOSE <= a[n..][i..]
    {
      assert (a[n..] + b)[i..] == (a + b)[n + i..] && a[n..][i..] == a[n + i..];
    }
  }

  lemma {:induction false} EventsConcat(a: string, b: string)
    requires Apart(a, b)
    ensures Events(a + b) == Events(a) + Events(b)
    decreases |a|
  {
    if a == "" {
      assert a + b == b;
    } else {
      var (events, n) := Head(a);
      SameHead(a, b);
      ApartDrop(a, b, n);
      EventsConcat(a[n..], b);
      HeadFirst(a);
      HeadFirst(a + b);
      Assoc(events, Events(a[n..]), Events(b));
    }
  }

  /** The turn marker a text opens with, and what it takes; or a character that is none. */
  function Head(s: string): (r: (seq<bool>, nat))
    requires s != ""
    ensures 0 < r.1 <= |s|
  {
    if TURN_OPEN <= s then ([true], |TURN_OPEN|) else if TURN_CLOSE <= s then ([false], |TURN_CLOSE|) else ([], 1)
  }

  lemma {:induction false} HeadFirst(s: string)
    requires s != ""
    ensures Events(s) == Head(s).0 + Events(s[Head(s).1..])
  {
    assert [] + Events(s[1..]) == Events(s[1..]);
  }

  lemma {:induction false} SameHead(a: string, b: string)
    requires Apart(a, b) && a != ""
    ensures Head(a + b) == Head(a)
  {
    assert (a + b)[0..] == a + b && a[0..] == a;
    assert TURN_OPEN <= a ==> TURN_OPEN <= a + b;
    assert TURN_CLOSE <= a ==> TURN_CLOSE <= a + b;
  }

  /** A turn: the marker that opens it, a text without turn markers, what comes behind. */
  lemma {:induction false} TurnEvents(inside: string, tail: string)
    requires NoTurnMarker(inside) && AtMarker(tail)
    ensures Events(TURN_OPEN + (inside + tail)) == [true] + Events(tail)
  {
    var s := TURN_OPEN + (inside + tail);
    assert s[|TURN_OPEN|..] == inside + tail;
    ApartAtMarker(inside, tail);
    EventsConcat(inside, tail);
    NoEvents(inside);
  }

  lemma {:induction false} CloseEvents(tail: string)
    requires AtMarker(tail)
    ensures Events(TURN_CLOSE + "\n" + tail) == [false] + Events(tail)
  {
    var s := TURN_CLOSE + "\n" + tail;
    assert s[1] == 't' && s[|TURN_CLOSE|..] == "\n" + tail;
    assert ("\n" + tail)[0] == '\n' && ("\n" + tail)[1..] == tail;
  }

  // -- One turn at a time -----------------------------------------------------------

  /** Follow the markers: None when a turn opens while one is open or closes while none is,
      else whether one is open at the end. */
  function Walk(events: seq<bool>, open: bool): Option<bool> {
    if events == [] then Some(open)
    else if events[0] == open then None
    else Walk(events[1..], events[0])
  }

  function Depth(events: seq<bool>): int {
    if events == [] then 0 else (if events[0] then 1 else -1) + Depth(events[1..])
  }

  lemma {:induction false} WalkConcat(a: seq<bool>, b: seq<bool>, open: bool)
    ensures Walk(a + b, open) == if Walk(a, open).None? then None else Walk(b, Walk(a, open).value)
    ensures Depth(a + b) == Depth(a) + Depth(b)
  {
    if a == [] {
      assert a + b == b;
    } else {
      assert (a + b)[1..] == a[1..] + b;
      WalkConcat(a[1..], b, a[0]);
    }
  }

  // -- The events of a prompt -------------------------------------------------------

  /** A message between the marker that opens its turn and its end. */
  function Inside(m: Message): string {
    RoleOf(m) + "\n" + (RenderCalls(m.calls) + (ResponsesText(m.responses) + ContentText(RoleOf(m), m.content)))
  }

  function BlockInside(c: Conversation): string
    requires c.messages != []
  {
    "system" + "\n" + ((if c.thinking then THINK else "") + (SystemText(c) + ToolsText(c.tools)))
  }

  function MessageEvents(m: Message): seq<bool> {
    if Closed(m) then [true, false] else [true]
  }

  function MessagesEvents(ms: seq<Message>): seq<bool> {
    if ms == [] then [] else MessageEvents(ms[0]) + MessagesEvents(ms[1..])
  }

  lemma Regrouped(o: string, r: string, a: string, b: string, c: string, d: string, rest: string)
    ensures o + r + "\n" + (a + (b + (c + d))) + rest == o + (r + "\n" + (a + (b + c)) + (d + rest))
  {
    assert (a + (b + (c + d))) + rest == (a + (b + c)) + (d + rest);
  }

  lemma {:induction false} MessageSplits(m: Message, rest: string)
    ensures MessageText(m) + rest == TURN_OPEN + (Inside(m) + (CloseText(m) + rest))
  {
    Regrouped(TURN_OPEN, RoleOf(m), RenderCalls(m.calls), ResponsesText(m.responses),
              ContentText(RoleOf(m), m.content), CloseText(m), rest);
  }

  lemma {:induction false} CloseTextEvents(m: Message, rest: string)
    requires AtMarker(rest)
    ensures Events(CloseText(m) + rest) == MessageEvents(m)[1..] + Events(rest) && AtMarker(CloseText(m) + rest)
  {
    if Closed(m) {
      CloseEvents(rest);
    } else {
      assert "" + rest == rest;
    }
  }

  lemma {:induction false} EventsOfMessage(m: Message, rest: string)
    requires NoTurnMarker(Inside(m)) && AtMarker(rest)
    ensures Events(MessageText(m) + rest) == MessageEvents(m) + Events(rest)
    ensures AtMarker(MessageText(m) + rest)
  {
    MessageSplits(m, rest);
    CloseTextEvents(m, rest);
    TurnEvents(Inside(m), CloseText(m) + rest);
    Assoc([true], MessageEvents(m)[1..], Events(rest));
    assert [true] + MessageEvents(m)[1..] == MessageEvents(m);
  }

  /** However it goes on, this text shows these events first. */
  ghost predicate Shows(text: string, events: seq<bool>) {
    forall rest: string :: AtMarker(rest) ==>
      AtMarker(text + rest) && Events(text + rest) == events + Events(rest)
  }

  lemma {:induction false} MessageShows(m: Message)
    requires NoTurnMarker(Inside(m))
    ensures Shows(MessageText(m), MessageEvents(m))
  {
    forall rest: string | AtMarker(rest)
      ensures AtMarker(MessageText(m) + rest) && Events(MessageText(m) + rest) == MessageEvents(m) + Events(rest)
    {
      EventsOfMessage(m, rest);
    }
  }

  lemma {:induction false} ShowsBoth(a: string, x: seq<bool>, b: string, y: seq<bool>)
    requires Shows(a, x) && Shows(b, y)
    ensures Shows(a + b, x + y)
  {
    forall rest: string | AtMarker(rest)
      ensures AtMarker(a + b + rest) && Events(a + b + rest) == x + y + Events(rest)
    {
      Assoc(a, b, rest);
      assert Events(a + (b + rest)) == x + Events(b + rest);
      assert x + (y + Events(rest)) == x + y + Events(rest);
    }
  }

  lemma {:induction false} MessagesShow(ms: seq<Message>)
    requires forall m :: m in ms ==> NoTurnMarker(Inside(m))
    ensures Shows(MessagesText(ms), MessagesEvents(ms))
  {
    if ms == [] {
      assert forall rest: string :: "" + rest == rest;
      assert forall rest: string :: [] + Events(rest) == Events(rest);
    } else {
      assert ms[0] in ms;
      MessageShows(ms[0]);
      MessagesShow(ms[1..]);
      SplitMessages(ms);
      ShowsBoth(MessageText(ms[0]), MessageEvents(ms[0]), MessagesText(ms[1..]), MessagesEvents(ms[1..]));
    }
  }

  function BlockEvents(c: Conversation): seq<bool>
    requires c.messages != []
  {
    if HasSystemBlock(c) then [true, false] else []
  }

  lemma {:induction false} BlockShows(c: Conversation)
    requires c.messages != [] && NoTurnMarker(BlockInside(c))
    ensures Shows(BlockText(c), BlockEvents(c))
  {
    forall rest: string | AtMarker(rest)
      ensures AtMarker(BlockText(c) + rest) && Events(BlockText(c) + rest) == BlockEvents(c) + Events(rest)
    {
      if HasSystemBlock(c) {
        BlockRegrouped(if c.thinking then THINK else "", SystemText(c), ToolsText(c.tools), rest);
        ClosedTurnEvents(BlockInside(c), rest);
      } else {
        assert "" + rest == rest;
        assert [] + Events(rest) == Events(rest);
      }
    }
  }

  lemma {:induction false} ClosedTurnEvents(inside: string, rest: string)
    requires NoTurnMarker(inside) && AtMarker(rest)
    ensures Events(TURN_OPEN + (inside + (TURN_CLOSE + "\n" + rest))) == [true, false] + Events(rest)
  {
    TurnEvents(inside, TURN_CLOSE + "\n" + rest);
    CloseEvents(rest);
    assert [true] + ([false] + Events(rest)) == [true, false] + Events(rest);
  }

  lemma BlockRegrouped(k: string, t: string, u: string, rest: string)
    ensures TURN_OPEN + "system" + "\n" + (k + (t + (u + (TURN_CLOSE + "\n")))) + rest
            == TURN_OPEN + ("system" + "\n" + (k + (t + u)) + (TURN_CLOSE + "\n" + rest))
  {
    assert (k + (t + (u + (TURN_CLOSE + "\n")))) + rest == (k + (t + u)) + (TURN_CLOSE + "\n" + rest);
  }

  lemma {:induction false} OpenTurnEvents(inside: string)
    requires NoTurnMarker(inside)
    ensures Events(TURN_OPEN + inside) == [true]
  {
    TurnEvents(inside, "");
    assert inside + "" == inside;
  }

  lemma {:induction false} EndingEvents(e: Ending)
    ensures AtMarker(EndingText(e))
    ensures Events(EndingText(e)) == if e.opensModelTurn then [true] else []
  {
    var tail := if e.emptyThought then NO_THOUGHT else "";
    EndingFree(e.emptyThought, TURN_OPEN);
    EndingFree(e.emptyThought, TURN_CLOSE);
    if e.opensModelTurn {
      Assoc3(TURN_OPEN, "model", "\n", tail);
      OpenTurnEvents("model" + "\n" + tail);
    } else {
      NoTurnEvents(tail);
    }
  }

  lemma {:induction false} NoTurnEvents(tail: string)
    requires NoTurnMarker(tail)
    ensures Events("" + tail) == []
  {
    assert "" + tail == tail;
    NoEvents(tail);
  }

  lemma {:induction false} EndingFree(emptyThought: bool, m: string)
    requires m == TURN_OPEN || m == TURN_CLOSE
    ensures var tail := if emptyThought then NO_THOUGHT else ""; !Contains(tail, m) && !Contains("model" + "\n" + tail, m)
  {
    Markers();
    assert CHANNEL_OPEN[2] == 'c' && TURN_OPEN[2] == 't' && CHANNEL_CLOSE[1] == 'c' && TURN_CLOSE[1] == 't';
    EmptyThoughtFree(m);
    PlainIsFree("", m);
    PlainInFront("model" + "\n", if emptyThought then NO_THOUGHT else "", m);
  }

  lemma {:induction false} EmptyThoughtFree(m: string)
    requires IsMarker(m) && m != CHANNEL_OPEN && m != CHANNEL_CLOSE
    ensures !Contains(NO_THOUGHT, m)
  {
    Markers();
    MarkerIsFree(CHANNEL_OPEN, m);
    MarkerIsFree(CHANNEL_CLOSE, m);
    PlainInFront("thought\n", CHANNEL_CLOSE, m);
    ContainsBehindMarker(CHANNEL_OPEN, "thought\n" + CHANNEL_CLOSE, m);
    Assoc(CHANNEL_OPEN, "thought\n", CHANNEL_CLOSE);
  }

  /** No text of the conversation shows a turn marker. */
  ghost predicate TurnMarkersAreTheTemplates(c: Conversation)
    requires c.messages != []
  {
    NoTurnMarker(BlockInside(c)) && forall m :: m in LoopMessages(c) ==> NoTurnMarker(Inside(m))
  }

  function PromptEvents(c: Conversation): seq<bool>
    requires c.messages != []
  {
    BlockEvents(c) + (MessagesEvents(LoopMessages(c)) + (if OpensModelTurn(c) then [true] else []))
  }

  /** The turn markers of a prompt are those the template prints, in its order. */
  lemma {:induction false} EventsOfPrompt(c: Conversation)
    requires c.messages != [] && TurnMarkersAreTheTemplates(c)
    ensures Events(PromptText(c).value) == PromptEvents(c)
  {
    var e := Normal(c).ending;
    var ms := MessagesText(LoopMessages(c));
    var rest := ms + EndingText(e);
    PromptShape(c);
    EndingEvents(e);
    MessagesShow(LoopMessages(c));
    BlockShows(c);
    var s := BlockText(c) + rest;
    assert Events(s) == PromptEvents(c);
    BosIsFree(s);
  }

  lemma {:induction false} BosIsFree(s: string)
    requires AtMarker(s)
    ensures Events(BOS + s) == Events(s)
  {
    ApartAtMarker(BOS, s);
    EventsConcat(BOS, s);
    assert IsMarker(BOS);
    Markers();
    assert BOS[1] == 'b' && TURN_OPEN[1] == '|' && TURN_CLOSE[1] == 't';
    MarkerIsFree(BOS, TURN_OPEN);
    MarkerIsFree(BOS, TURN_CLOSE);
    NoEvents(BOS);
  }

  // -- Turn structure ---------------------------------------------------------------

  /** Tool responses and no content: the one kind of message that leaves its turn open. */
  predicate BareResponses(m: Message) {
    && m.responses != []
    && match m.content
       case Absent => true
       case TextContent(text) => text == ""
       case Parts(items, _) => items == []
  }

  lemma BareStaysOpen(m: Message)
    ensures TurnOf(m).closed <==> !BareResponses(m)
  {
  }

  /** Tool responses, and no medium behind them. */
  predicate EndsInResponses(m: Message) {
    && m.responses != []
    && (m.content.Parts? ==>
          forall i :: 0 <= i < |m.content.items| ==>
            !m.content.items[i].ImagePart? && !m.content.items[i].AudioPart? && !m.content.items[i].VideoPart?)
  }

  lemma {:induction false} PartsTypeIs(items: seq<Part>, before: MessageType)
    requires before == ResponseType || before == ImageType || before == AudioType || before == VideoType
    ensures PartsType(items, before) == ResponseType
            <==> before == ResponseType
                 && forall i :: 0 <= i < |items| ==> !items[i].ImagePart? && !items[i].AudioPart? && !items[i].VideoPart?
  {
    if items != [] {
      PartsTypeIs(items[1..], PartType(items[0], before));
      assert items == [items[0]] + items[1..];
    }
  }

  lemma {:induction false} PartsTypeKeeps(items: seq<Part>, before: MessageType)
    requires before != ResponseType
    ensures PartsType(items, before) != ResponseType
  {
    if items != [] {
      PartsTypeKeeps(items[1..], PartType(items[0], before));
    }
  }

  lemma {:induction false} ResponseTypeIs(m: Message)
    ensures TypeOf(m) == ResponseType <==> EndsInResponses(m)
  {
    if m.content.Parts? {
      if m.responses != [] {
        PartsTypeIs(m.content.items, ResponseType);
      } else {
        PartsTypeKeeps(m.content.items, if m.calls != [] then CallType else NoType);
      }
    }
  }

  /** The prompt opens a turn for the model: asked to, unless the last message ends in tool
      responses. */
  predicate OpensForModel(c: Conversation)
    requires c.messages != []
  {
    var ms := LoopMessages(c);
    c.addGenerationPrompt && !(ms != [] && EndsInResponses(ms[|ms| - 1]))
  }

  lemma {:induction false} OpensForModelIs(c: Conversation)
    requires c.messages != []
    ensures OpensModelTurn(c) <==> OpensForModel(c)
  {
    var ms := LoopMessages(c);
    if ms != [] {
      ResponseTypeIs(ms[|ms| - 1]);
    }
  }

  /** The messages that leave their turn open. */
  function Unclosed(ms: seq<Message>): nat {
    if ms == [] then 0 else (if BareResponses(ms[0]) then 1 else 0) + Unclosed(ms[1..])
  }

  ghost predicate OnlyLastUnclosed(ms: seq<Message>) {
    forall i :: 0 <= i < |ms| - 1 ==> !BareResponses(ms[i])
  }

  lemma {:induction false} MessagesDepth(ms: seq<Message>)
    ensures Depth(MessagesEvents(ms)) == Unclosed(ms)
  {
    if ms != [] {
      MessagesDepth(ms[1..]);
      WalkConcat(MessageEvents(ms[0]), MessagesEvents(ms[1..]), false);
      assert MessageEvents(ms[0])[1..] == if Closed(ms[0]) then [false] else [];
    }
  }

  lemma {:induction false} LastUnclosedStep(ms: seq<Message>)
    requires ms != []
    ensures OnlyLastUnclosed(ms) <==> OnlyLastUnclosed(ms[1..]) && (|ms| > 1 ==> !BareResponses(ms[0]))
  {
    if OnlyLastUnclosed(ms[1..]) && (|ms| > 1 ==> !BareResponses(ms[0])) {
      forall i | 0 <= i < |ms| - 1 ensures !BareResponses(ms[i]) {
        assert i > 0 ==> ms[i] == ms[1..][i - 1];
      }
    }
  }

  lemma {:induction false} MessagesWalk(ms: seq<Message>)
    ensures Walk(MessagesEvents(ms), false).Some? <==> OnlyLastUnclosed(ms)
    ensures Walk(MessagesEvents(ms), true).Some? <==> ms == []
    ensures OnlyLastUnclosed(ms) ==>
              Walk(MessagesEvents(ms), false) == Some(ms != [] && !Closed(ms[|ms| - 1]))
  {
    if ms != [] {
      var head, tail := MessageEvents(ms[0]), MessagesEvents(ms[1..]);
      MessagesWalk(ms[1..]);
      WalkConcat(head, tail, false);
      WalkConcat(head, tail, true);
      assert [false][1..] == [];
      assert head[1..] == if Closed(ms[0]) then [false] else [];
      assert Walk(head[1..], true) == Some(!Closed(ms[0]));
      assert Walk(head, false) == Some(!Closed(ms[0]));
      LastUnclosedStep(ms);
    }
  }

  /** Behind bare tool responses the template does not open a turn for the model. */
  lemma UnclosedIsResponse(m: Message)
    ensures !Closed(m) ==> TypeOf(m) == ResponseType
  {
  }

  /** How many turns a prompt leaves open. */
  lemma {:induction false} OpenTurns(c: Conversation)
    requires c.messages != [] && TurnMarkersAreTheTemplates(c)
    ensures Depth(Events(PromptText(c).value))
            == Unclosed(LoopMessages(c)) + (if OpensForModel(c) then 1 else 0)
  {
    var ms := MessagesEvents(LoopMessages(c));
    var last := if OpensModelTurn(c) then [true] else [];
    OpensForModelIs(c);
    EventsOfPrompt(c);
    MessagesDepth(LoopMessages(c));
    WalkConcat(ms, last, false);
    WalkConcat(BlockEvents(c), ms + last, false);
    assert [true, false][1..] == [false];
  }

  /** The system block closes its turn. */
  lemma {:induction false} BehindBlock(c: Conversation, events: seq<bool>)
    requires c.messages != []
    ensures Walk(BlockEvents(c) + events, false) == Walk(events, false)
  {
    WalkConcat(BlockEvents(c), events, false);
    assert [true, false][1..] == [false];
  }

  /** Following the turn markers of a prompt: through the messages, then the last marker. */
  lemma {:induction false} PromptWalk(c: Conversation)
    requires c.messages != []
    ensures var ms := LoopMessages(c);
            Walk(PromptEvents(c), false)
            == if !OnlyLastUnclosed(ms) then None
               else Walk(if OpensModelTurn(c) then [true] else [], ms != [] && !Closed(ms[|ms| - 1]))
  {
    var last := if OpensModelTurn(c) then [true] else [];
    BehindBlock(c, MessagesEvents(LoopMessages(c)) + last);
    LoopWalk(LoopMessages(c), last);
  }

  lemma {:induction false} LoopWalk(ms: seq<Message>, last: seq<bool>)
    ensures Walk(MessagesEvents(ms) + last, false)
            == if !OnlyLastUnclosed(ms) then None else Walk(last, ms != [] && !Closed(ms[|ms| - 1]))
  {
    MessagesWalk(ms);
    WalkConcat(MessagesEvents(ms), last, false);
  }

  /** Every turn is closed before the next opens exactly when no message but the last leaves
      its turn open. */
  lemma {:induction false} OneTurnAtATime(c: Conversation)
    requires c.messages != [] && TurnMarkersAreTheTemplates(c)
    ensures Walk(Events(PromptText(c).value), false).Some? <==> OnlyLastUnclosed(LoopMessages(c))
  {
    var ms := LoopMessages(c);
    EventsOfPrompt(c);
    PromptWalk(c);
    if ms != [] {
      UnclosedIsResponse(ms[|ms| - 1]);
    }
  }

  /** Then a prompt for generation ends in exactly one open turn, unless the last message
      has tool responses, a content and no medium in it: behind it no turn is open, because
      the template takes the model's turn to be still open. */
  lemma {:induction false} GenerationTurn(c: Conversation)
    requires c.messages != [] && TurnMarkersAreTheTemplates(c)
    requires c.addGenerationPrompt && OnlyLastUnclosed(LoopMessages(c))
    ensures var ms := LoopMessages(c);
            Walk(Events(PromptText(c).value), false)
            == Some(!(ms != [] && EndsInResponses(ms[|ms| - 1]) && !BareResponses(ms[|ms| - 1])))
  {
    var ms := LoopMessages(c);
    EventsOfPrompt(c);
    PromptWalk(c);
    if ms != [] {
      UnclosedIsResponse(ms[|ms| - 1]);
      ResponseTypeIs(ms[|ms| - 1]);
    }
  }

  // -- Texts without turn markers leave the template's ------------------------------

  ghost predicate PairsFree(bs: seq<Braced>, m: string) {
    forall b :: b in bs ==> !Contains(b.0, m) && !Contains(b.1, m)
  }

  lemma {:induction false} BracedTextsFree(bs: seq<Braced>, open: string, prefix: string, close: string, m: string)
    requires Foreign(m) && IsMarker(open) && IsMarker(close) && m != open && m != close
    requires '<' !in prefix && PairsFree(bs, m)
    ensures !Contains(BracedTexts(bs, open, prefix, close), m)
    ensures AtMarker(BracedTexts(bs, open, prefix, close))
  {
    if bs == [] {
      PlainIsFree("", m);
    } else {
      var b := bs[0];
      assert b in bs;
      var inner := InnerText(b, prefix);
      InnerHolds(b, prefix, m);
      MarkerIsFree(open, m);
      MarkerIsFree(close, m);
      ContainsBehindMarker(open, inner, m);
      ContainsConcat(open + inner, close, m);
      BracedTextsFree(bs[1..], open, prefix, close, m);
      ContainsConcat(open + inner + close, BracedTexts(bs[1..], open, prefix, close), m);
    }
  }

  /** A message whose role, names, printed bodies and shown content are free of turn
      markers prints no turn marker inside its turn. */
  lemma {:induction false} InsideIsFree(m: Message, mark: string)
    requires mark == TURN_OPEN || mark == TURN_CLOSE
    requires !Contains(RoleOf(m), mark) && !Contains(ContentText(RoleOf(m), m.content), mark)
    requires PairsFree(CallPairs(m.calls), mark) && PairsFree(ResponsePairs(m.responses), mark)
    ensures !Contains(Inside(m), mark)
  {
    var content := ContentText(RoleOf(m), m.content);
    var cs, rs := CallPairs(m.calls), ResponsePairs(m.responses);
    TurnMarkersDiffer(mark);
    BracedTextsFree(cs, CALL_OPEN, CALL, CALL_CLOSE, mark);
    BracedTextsFree(rs, RESPONSE_OPEN, RESPONSE, RESPONSE_CLOSE, mark);
    var behind := BracedTexts(rs, RESPONSE_OPEN, RESPONSE, RESPONSE_CLOSE) + content;
    BehindBraced(rs, RESPONSE_OPEN, RESPONSE, RESPONSE_CLOSE, content, mark);
    BehindBraced(cs, CALL_OPEN, CALL, CALL_CLOSE, behind, mark);
    BehindRole(RoleOf(m), BracedTexts(cs, CALL_OPEN, CALL, CALL_CLOSE) + behind, mark);
    CallsAreBraced(m.calls);
    ResponsesAreBraced(m.responses);
  }

  lemma {:induction false} TurnMarkersDiffer(mark: string)
    requires mark == TURN_OPEN || mark == TURN_CLOSE
    ensures Foreign(mark) && IsMarker(CALL_OPEN) && IsMarker(CALL_CLOSE)
    ensures IsMarker(RESPONSE_OPEN) && IsMarker(RESPONSE_CLOSE)
    ensures mark != CALL_OPEN && mark != CALL_CLOSE && mark != RESPONSE_OPEN && mark != RESPONSE_CLOSE
  {
    Markers();
    assert mark[1] != ESCAPE[1] || mark[2] != ESCAPE[2];
    assert mark[3] == 'u' || mark[2] == 'u';
    assert CALL_OPEN[2] == 't' && CALL_OPEN[3] == 'o' && CALL_CLOSE[2] == 'o' && CALL_CLOSE[3] == 'o';
    assert RESPONSE_OPEN[2] == 't' && RESPONSE_OPEN[3] == 'o' && RESPONSE_CLOSE[2] == 'o' && RESPONSE_CLOSE[3] == 'o';
  }

  lemma {:induction false} BehindRole(role: string, behind: string, mark: string)
    requires IsMarker(mark) && '\n' !in mark && !Contains(role, mark) && !Contains(behind, mark)
    ensures !Contains(role + "\n" + behind, mark)
  {
    PlainInFront("\n", behind, mark);
    assert Stops("\n" + behind, mark);
    ContainsConcat(role, "\n" + behind, mark);
    Assoc(role, "\n", behind);
  }

  lemma {:induction false} BehindBraced(bs: seq<Braced>, open: string, prefix: string, close: string, tail: string, m: string)
    requires IsMarker(m) && IsMarker(close)
    requires !Contains(BracedTexts(bs, open, prefix, close), m) && !Contains(tail, m)
    ensures !Contains(BracedTexts(bs, open, prefix, close) + tail, m)
  {
    var s := BracedTexts(bs, open, prefix, close);
    BracedEnds(bs, open, prefix, close);
    if bs == [] {
      assert s + tail == tail;
    } else {
      ContainsBehindMarker(s, tail, m);
    }
  }

  lemma {:induction false} BracedEnds(bs: seq<Braced>, open: string, prefix: string, close: string)
    requires IsMarker(close)
    ensures var s := BracedTexts(bs, open, prefix, close); bs != [] ==> s != "" && s[|s| - 1] == '>'
  {
    if bs != [] {
      BracedEnds(bs[1..], open, prefix, close);
    }
  }
}
