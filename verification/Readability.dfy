/** Which conversations are readable, said of their input texts. */
module Readability {
  import opened Options
  import opened Text
  import opened Thinking
  import opened Dictsort
  import opened Arguments
  import opened ToolCalls
  import opened Conversation
  import opened Decoding
  import opened Prompts

  // -- Contents in parts ---------------------------------------------------------------

  predicate IsMedium(p: Part) {
    p.ImagePart? || p.AudioPart? || p.VideoPart?
  }

  /** The runs of texts between the media, joined as shown: parts of other kinds show nothing
      and part nothing. */
  function Runs(role: string, items: seq<Part>): (r: seq<string>)
    ensures |r| >= 1
  {
    if items == [] then [""] else
    var more := Runs(role, items[1..]);
    if IsMedium(items[0]) then [""] + more else [PartText(role, items[0]) + more[0]] + more[1..]
  }

  /** The text from the first medium on. */
  function FromMedium(role: string, items: seq<Part>): string {
    if items == [] then ""
    else if IsMedium(items[0]) then PartsText(role, items)
    else FromMedium(role, items[1..])
  }

  lemma {:induction false} FirstRunInFront(role: string, items: seq<Part>)
    ensures PartsText(role, items) == Runs(role, items)[0] + FromMedium(role, items)
  {
    if items != [] {
      FirstRunInFront(role, items[1..]);
      if !IsMedium(items[0]) {
        Assoc(PartText(role, items[0]), Runs(role, items[1..])[0], FromMedium(role, items[1..]));
      }
    }
  }

  /** A marker that is no medium and holds no line break. */
  predicate Ordinary(m: string) {
    IsMarker(m) && '\n' !in m && m != "<|image|>" && m != AUDIO && m != "<|video|>"
  }

  lemma {:induction false} InBlankLines(medium: string, rest: string, m: string)
    requires IsMarker(medium) && IsMarker(m) && m != medium
    ensures Contains("\n\n" + medium + "\n\n" + rest, m) <==> Contains(rest, m)
    ensures Contains(medium + rest, m) <==> Contains(rest, m)
  {
    MarkerIsFree(medium, m);
    ContainsBehindMarker(medium, rest, m);
    PlainInFront("\n\n", rest, m);
    ContainsBehindMarker(medium, "\n\n" + rest, m);
    PlainInFront("\n\n", medium + ("\n\n" + rest), m);
    assert "\n\n" + medium + "\n\n" + rest == "\n\n" + (medium + ("\n\n" + rest));
  }

  /** A medium in front adds no ordinary marker, and opens like none. */
  lemma {:induction false} MediumInFront(role: string, p: Part, rest: string, m: string)
    requires IsMedium(p) && Ordinary(m)
    ensures var s := PartText(role, p) + rest;
            && (Contains(s, m) <==> Contains(rest, m))
            && s != "" && (s[0] == '\n' || s[0] == '<') && !(m <= s)
  {
    match p
    case ImagePart =>
      assert IMAGE == "\n\n" + "<|image|>" + "\n\n";
      InBlankLines("<|image|>", rest, m);
    case VideoPart =>
      assert VIDEO == "\n\n" + "<|video|>" + "\n\n";
      InBlankLines("<|video|>", rest, m);
    case AudioPart =>
      InBlankLines(AUDIO, rest, m);
      Starts(m, AUDIO);
  }

  ghost predicate SomeHolds(texts: seq<string>, m: string) {
    exists i :: 0 <= i < |texts| && Contains(texts[i], m)
  }

  lemma {:induction false} FirstHolds(text: string, texts: seq<string>, m: string)
    ensures SomeHolds([text] + texts, m) <==> Contains(text, m) || SomeHolds(texts, m)
  {
    var all := [text] + texts;
    if SomeHolds(texts, m) {
      var i :| 0 <= i < |texts| && Contains(texts[i], m);
      assert all[i + 1] == texts[i];
    }
    if Contains(text, m) {
      assert all[0] == text;
    }
    if i :| 0 <= i < |all| && Contains(all[i], m) && i > 0 {
      assert texts[i - 1] == all[i];
    }
  }

  /** Behind the first run, a text opens with a medium: no marker runs on into it. */
  lemma {:induction false} RunThenMedium(run: string, behind: string, m: string)
    requires Ordinary(m) && !(m <= behind) && (behind == "" || behind[0] == '\n' || behind[0] == '<')
    ensures Contains(run + behind, m) <==> Contains(run, m) || Contains(behind, m)
    ensures m <= run + behind <==> m <= run
  {
    assert Stops(behind, m) || AtMarker(behind);
    ContainsConcat(run, behind, m);
    if run == "" {
      assert run + behind == behind;
    } else {
      NoSpan(run, behind, m, 0);
      assert (run + behind)[0..] == run + behind && run[0..] == run;
    }
  }

  lemma {:induction false} FromMediumHolds(role: string, items: seq<Part>, m: string)
    requires Ordinary(m)
    ensures var s := FromMedium(role, items);
            && (Contains(s, m) <==> SomeHolds(Runs(role, items)[1..], m))
            && !(m <= s) && (s == "" || s[0] == '\n' || s[0] == '<')
  {
    if items == [] {
      PlainIsFree("", m);
    } else {
      FromMediumHolds(role, items[1..], m);
      if IsMedium(items[0]) {
        var more := Runs(role, items[1..]);
        MediumInFront(role, items[0], PartsText(role, items[1..]), m);
        FirstRunInFront(role, items[1..]);
        RunThenMedium(more[0], FromMedium(role, items[1..]), m);
        FirstHolds(more[0], more[1..], m);
        assert more == [more[0]] + more[1..];
        assert Runs(role, items)[1..] == more;
      } else {
        assert Runs(role, items)[1..] == Runs(role, items[1..])[1..];
      }
    }
  }

  /** A marker shows in a content of parts exactly when one run of texts holds it, and in its
      front exactly when the first run opens with it. */
  lemma {:induction false} RunsHold(role: string, items: seq<Part>, m: string)
    requires Ordinary(m)
    ensures Contains(PartsText(role, items), m) <==> SomeHolds(Runs(role, items), m)
    ensures m <= PartsText(role, items) <==> m <= Runs(role, items)[0]
  {
    var runs := Runs(role, items);
    FirstRunInFront(role, items);
    FromMediumHolds(role, items, m);
    RunThenMedium(runs[0], FromMedium(role, items), m);
    FirstHolds(runs[0], runs[1..], m);
    assert runs == [runs[0]] + runs[1..];
  }

  lemma OrdinaryMarkers()
    ensures Ordinary(TURN_OPEN) && Ordinary(TURN_CLOSE) && Ordinary(CALL_OPEN) && Ordinary(RESPONSE_OPEN)
  {
    Markers();
    assert TURN_OPEN[2] == 't' && CALL_OPEN[2] == 't' && RESPONSE_OPEN[2] == 't' && TURN_CLOSE[1] == 't';
  }

  /** So a content of parts is readable exactly when its runs are. */
  lemma {:induction false} PartsReadable(m: Message)
    requires m.content.Parts?
    ensures var runs := Runs(RoleOf(m), m.content.items);
            ContentReadable(TurnOf(m)) <==>
              && !SomeHolds(runs, TURN_CLOSE) && !(RESPONSE_OPEN <= runs[0])
              && (m.responses == [] ==> !(CALL_OPEN <= runs[0])) && (m.responses != [] ==> !(TURN_OPEN <= runs[0]))
  {
    var role, items := RoleOf(m), m.content.items;
    OrdinaryMarkers();
    ResponsesAreBraced(m.responses);
    ContentReadableBy(TurnOf(m));
    RunsHold(role, items, TURN_CLOSE);
    RunsHold(role, items, RESPONSE_OPEN);
    RunsHold(role, items, CALL_OPEN);
    RunsHold(role, items, TURN_OPEN);
  }

  // -- Calls and responses --------------------------------------------------------------

  ghost predicate CallTextsFree(c: ToolCall) {
    && '{' !in c.name && !Contains(c.name, CALL_CLOSE)
    && match c.arguments
       case Mapping(entries) => TextsFree(Map(entries), CALL_CLOSE)
       case Literal(text) => !Contains(text, CALL_CLOSE)
       case Other => true
  }

  ghost predicate ResponseTextsFree(r: ToolResponse) {
    '{' !in ResponseName(r) && !Contains(ResponseName(r), RESPONSE_CLOSE) && TextsFree(r.response, RESPONSE_CLOSE)
  }

  lemma ForeignCloses()
    ensures Foreign(RESPONSE_CLOSE) && Foreign(CALL_CLOSE)
  {
    Markers();
    assert RESPONSE_CLOSE[1] == 't' && CALL_CLOSE[1] == 't' && ESCAPE[1] == '|';
  }

  lemma {:induction false} CallBodyFree(a: CallArguments)
    requires match a
             case Mapping(entries) => TextsFree(Map(entries), CALL_CLOSE)
             case Literal(text) => !Contains(text, CALL_CLOSE)
             case Other => true
    ensures !Contains(Body(a), CALL_CLOSE)
  {
    ForeignCloses();
    match a {
      case Mapping(entries) =>
        SortPermutes(entries);
        FormatEntriesFree(Sort(entries), false, Map(entries), CALL_CLOSE);
      case Literal(text) =>
      case Other => PlainIsFree("", CALL_CLOSE);
    }
  }

  lemma {:induction false} ResponseBodyFree(v: Value)
    requires TextsFree(v, RESPONSE_CLOSE)
    ensures !Contains(ResponseBody(v), RESPONSE_CLOSE)
  {
    ForeignCloses();
    match v
    case Map(entries) =>
      SortPermutes(entries);
      FormatEntriesFree(Sort(entries), false, v, RESPONSE_CLOSE);
    case _ =>
      FormatFree(v, false, RESPONSE_CLOSE);
      PlainInFront("value:", Format(v, false), RESPONSE_CLOSE);
  }

  lemma {:induction false} CallsReadable(calls: seq<ToolCall>)
    requires forall c :: c in calls ==> CallTextsFree(c)
    ensures AllReadable(CallPairs(calls), CALL_CLOSE)
  {
    if calls != [] {
      assert calls[0] in calls;
      CallBodyFree(calls[0].arguments);
      CallsReadable(calls[1..]);
    }
  }

  lemma {:induction false} ResponsesReadable(rs: seq<ToolResponse>)
    requires forall r :: r in rs ==> ResponseTextsFree(r)
    ensures AllReadable(ResponsePairs(rs), RESPONSE_CLOSE)
  {
    if rs != [] {
      assert rs[0] in rs;
      ResponseBodyFree(rs[0].response);
      ResponsesReadable(rs[1..]);
    }
  }

  // -- Whole conversations ----------------------------------------------------------------

  /** What a text of a message must not hold. */
  const TURN_MARKERS := {TURN_OPEN, TURN_CLOSE, CALL_OPEN, RESPONSE_OPEN}
  const CHANNEL_MARKERS := {CHANNEL_OPEN, CHANNEL_CLOSE}

  /** What a text of the system block must not hold. */
  const BLOCK_MARKERS := {THINK, TOOL_OPEN, TURN_CLOSE}

  ghost predicate FreeOf(text: string, markers: set<string>) {
    forall m :: m in markers ==> !Contains(text, m)
  }

  lemma {:induction false} TrimFreeOf(text: string, markers: set<string>)
    requires FreeOf(text, markers)
    ensures FreeOf(Trim(text), markers)
  {
    forall m | m in markers ensures !Contains(Trim(text), m) {
      TrimKeepsFree(text, m);
    }
  }

  /** A text of a message holds no special marker; a content of parts holds none in a run. */
  ghost predicate ContentPlain(role: string, content: Content) {
    match content
    case Absent => true
    case TextContent(text) => FreeOf(text, TURN_MARKERS + CHANNEL_MARKERS)
    case Parts(items, _) => forall run :: run in Runs(role, items) ==> FreeOf(run, TURN_MARKERS)
  }

  ghost predicate MessagePlain(m: Message) {
    && '\n' !in m.role
    && (forall c :: c in m.calls ==> CallTextsFree(c))
    && (forall r :: r in m.responses ==> ResponseTextsFree(r))
    && ContentPlain(RoleOf(m), m.content)
  }

  ghost predicate SystemPlain(content: Content) {
    match content
    case Absent => true
    case TextContent(text) => FreeOf(text, BLOCK_MARKERS)
    case Parts(_, printed) => FreeOf(printed, BLOCK_MARKERS)
  }

  /** No text of the conversation holds a special marker, no role a line break and no name a
      brace. */
  ghost predicate ConversationPlain(c: Conversation)
    requires c.messages != []
  {
    && (forall m :: m in LoopMessages(c) ==> MessagePlain(m))
    && (IsSystem(c.messages[0].role) ==> SystemPlain(c.messages[0].content))
    && forall t :: t in c.tools ==> !Contains(t, TOOL_CLOSE) && !Contains(t, TURN_CLOSE)
  }

  /** A content that holds no turn marker is readable. */
  lemma {:induction false} FreeIsReadable(t: Turn)
    requires FreeOf(t.content, TURN_MARKERS)
    ensures ContentReadable(t)
  {
    assert TURN_CLOSE in TURN_MARKERS;
    forall m | m in Openers(t) ensures !(m <= t.content) {
      assert m in TURN_MARKERS;
      assert t.content[0..] == t.content;
    }
  }

  lemma {:induction false} TextShown(role: string, text: string)
    requires FreeOf(text, TURN_MARKERS + CHANNEL_MARKERS)
    ensures Shown(role, text) == Trim(text) && FreeOf(Trim(text), TURN_MARKERS)
  {
    assert CHANNEL_OPEN in TURN_MARKERS + CHANNEL_MARKERS && CHANNEL_CLOSE in TURN_MARKERS + CHANNEL_MARKERS;
    ScanKeepsPlainText(text);
    TrimFreeOf(text, TURN_MARKERS);
  }

  lemma {:induction false} RunsReadable(m: Message)
    requires m.content.Parts? && ContentPlain(RoleOf(m), m.content)
    ensures FreeOf(TurnOf(m).content, TURN_MARKERS)
  {
    var role, items := RoleOf(m), m.content.items;
    OrdinaryMarkers();
    forall k | k in TURN_MARKERS ensures !Contains(PartsText(role, items), k) {
      RunsHold(role, items, k);
      forall i | 0 <= i < |Runs(role, items)| ensures !Contains(Runs(role, items)[i], k) {
        assert Runs(role, items)[i] in Runs(role, items);
      }
    }
  }

  lemma {:induction false} ContentReads(m: Message)
    requires ContentPlain(RoleOf(m), m.content)
    ensures ContentReadable(TurnOf(m))
  {
    match m.content
    case TextContent(text) =>
      TextShown(RoleOf(m), text);
      FreeIsReadable(TurnOf(m));
    case Parts(_, _) =>
      RunsReadable(m);
      FreeIsReadable(TurnOf(m));
    case Absent =>
      Markers();
      PlainIsFree("", TURN_CLOSE);
  }

  lemma {:induction false} MessagesReadable(ms: seq<Message>)
    requires forall m :: m in ms ==> MessagePlain(m)
    ensures forall i :: 0 <= i < |ms| ==> TurnReadable(TurnOf(ms[i]))
    ensures forall i :: 0 <= i < |ms| && ms[i].content.TextContent? ==> TurnOf(ms[i]).content == Trim(ms[i].content.text)
  {
    forall i | 0 <= i < |ms|
      ensures TurnReadable(TurnOf(ms[i]))
      ensures ms[i].content.TextContent? ==> TurnOf(ms[i]).content == Trim(ms[i].content.text)
    {
      assert ms[i] in ms;
      CallsReadable(ms[i].calls);
      ResponsesReadable(ms[i].responses);
      ContentReads(ms[i]);
      if ms[i].content.TextContent? {
        TextShown(RoleOf(ms[i]), ms[i].content.text);
      }
    }
  }

  /** The system text that is shown holds no marker of the block. */
  lemma {:induction false} SystemFree(c: Conversation)
    requires c.messages != [] && (IsSystem(c.messages[0].role) ==> SystemPlain(c.messages[0].content))
    ensures FreeOf(SystemText(c), BLOCK_MARKERS)
  {
    Markers();
    forall m | m in BLOCK_MARKERS ensures !Contains("", m) {
      PlainIsFree("", m);
    }
    TrimFreeOf("", BLOCK_MARKERS);
    if IsSystem(c.messages[0].role) {
      match c.messages[0].content
      case Absent =>
      case TextContent(text) => TrimFreeOf(text, BLOCK_MARKERS);
      case Parts(_, printed) => TrimFreeOf(printed, BLOCK_MARKERS);
    }
  }

  lemma {:induction false} FrontReadable(c: Conversation)
    requires c.messages != [] && ConversationPlain(c) && HasSystemBlock(c)
    ensures BlockReadable(Normal(c).block.value)
  {
    SystemFree(c);
    assert THINK in BLOCK_MARKERS && TOOL_OPEN in BLOCK_MARKERS && TURN_CLOSE in BLOCK_MARKERS;
    assert SystemText(c)[0..] == SystemText(c);
    forall t | t in Trims(c.tools) ensures !Contains(t, TURN_CLOSE) && !Contains(t, TOOL_CLOSE) {
      var i :| 0 <= i < |c.tools| && Trims(c.tools)[i] == t;
      TrimKeepsFree(c.tools[i], TURN_CLOSE);
      TrimKeepsFree(c.tools[i], TOOL_CLOSE);
    }
  }

  /** The prompt of a conversation whose texts hold no special marker reads back, and shows
      every text trimmed. */
  lemma {:induction false} PlainConversationsRead(c: Conversation)
    requires c.messages != [] && ConversationPlain(c)
    ensures Readable(c) && ReadPrompt(PromptText(c).value) == Some(Normal(c))
    ensures forall i :: 0 <= i < |LoopMessages(c)| && LoopMessages(c)[i].content.TextContent? ==>
              Normal(c).turns[i].content == Trim(LoopMessages(c)[i].content.text)
  {
    MessagesReadable(LoopMessages(c));
    if HasSystemBlock(c) {
      FrontReadable(c);
    }
    PromptRoundTrip(c);
  }

  /** Two such conversations with one prompt: the same roles, texts, calls and tools. */
  lemma {:induction false} PlainConversationsAreUnambiguous(c: Conversation, d: Conversation)
    requires c.messages != [] && d.messages != [] && ConversationPlain(c) && ConversationPlain(d)
    requires PromptText(c) == PromptText(d)
    ensures Normal(c) == Normal(d)
  {
    PlainConversationsRead(c);
    PlainConversationsRead(d);
  }
}
