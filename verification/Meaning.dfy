/** What the parts of a conversation become in the prompt, said without the names the template
    has for it: roles, thoughts, system messages, media, tool responses and open turns. */
module Meaning {
  import opened Options
  import opened Text
  import opened Thinking
  import opened Dictsort
  import opened Arguments
  import opened ToolCalls
  import opened Conversation
  import opened Decoding
  import opened Prompts
  import opened Response

  // -- Roles ---------------------------------------------------------------------------

  /** The assistant's turns are the model's; every other role keeps its name. */
  lemma {:induction false} AssistantIsModel(m: Message)
    ensures m.role == "assistant" ==> TurnOf(m).role == "model"
    ensures m.role != "assistant" ==> TurnOf(m).role == m.role
  {
  }

  /** Thoughts are removed from the texts of the model, under either name, and from no
      others. */
  lemma {:induction false} OnlyModelsLoseThoughts(m: Message)
    requires m.content.TextContent?
    ensures m.role == "assistant" || m.role == "model" ==> TurnOf(m).content == Trim(Scan(m.content.text, false))
    ensures m.role != "assistant" && m.role != "model" ==> TurnOf(m).content == Trim(m.content.text)
  {
  }

  lemma {:induction false} PlainMessageText(m: Message)
    requires m.calls == [] && m.responses == []
    ensures MessageText(m) == "<|turn>" + TurnOf(m).role + "\n" + TurnOf(m).content + "<turn|>\n"
  {
    var t := TurnOf(m).content;
    assert RenderCalls([]) == "" && ResponsesText([]) == "";
    assert TURN_CLOSE + "\n" == "<turn|>\n";
    assert "" + ("" + (t + (TURN_CLOSE + "\n"))) == t + "<turn|>\n";
  }

  /** A message of a conversation stands in its prompt. */
  lemma {:induction false} MessageInPrompt(c: Conversation, i: nat)
    requires c.messages != [] && i < |LoopMessages(c)|
    ensures var ms := LoopMessages(c);
            PromptText(c) == Some(BOS + BlockText(c) + MessagesText(ms[..i]) + MessageText(ms[i])
                                  + (MessagesText(ms[i + 1..]) + GenerationText(c)))
  {
    var ms := LoopMessages(c);
    var a, b, d := MessagesText(ms[..i]), MessageText(ms[i]), MessagesText(ms[i + 1..]);
    assert ms == ms[..i + 1] + ms[i + 1..];
    EachConcat(ms[..i + 1], ms[i + 1..], MessageText);
    EachRound(ms, i, MessageText);
    InPlace(BOS + BlockText(c), a, b, d, GenerationText(c));
  }

  lemma InPlace(front: string, a: string, b: string, d: string, last: string)
    ensures front + (a + b + d + last) == front + a + b + (d + last)
  {
  }

  /** A response of the model that comes back as an assistant message: the prompt holds a turn
      of the model with the trimmed content, and nothing of the thought. */
  lemma {:induction false} ReplayInPrompt(c: Conversation, i: nat, thought: string, content: string)
    requires c.messages != [] && i < |LoopMessages(c)|
    requires LoopMessages(c)[i]
             == Message("assistant", [], [], TextContent("<|channel>thought\n" + thought + "<channel|>" + content))
    requires !Contains(thought, CHANNEL_CLOSE)
    requires !Contains(content, CHANNEL_OPEN) && !Contains(content, CHANNEL_CLOSE)
    ensures var ms := LoopMessages(c);
            PromptText(c) == Some(BOS + BlockText(c) + MessagesText(ms[..i])
                                  + ("<|turn>" + "model" + "\n" + Trim(content) + "<turn|>\n")
                                  + (MessagesText(ms[i + 1..]) + GenerationText(c)))
  {
    MessageInPrompt(c, i);
    var m := LoopMessages(c)[i];
    PlainMessageText(m);
    OnlyModelsLoseThoughts(m);
    ThoughtGoes(thought, content);
  }

  lemma {:induction false} ThoughtGoes(thought: string, content: string)
    requires !Contains(thought, CHANNEL_CLOSE)
    requires !Contains(content, CHANNEL_OPEN) && !Contains(content, CHANNEL_CLOSE)
    ensures Scan("<|channel>thought\n" + thought + "<channel|>" + content, false) == content
  {
    Markers();
    var t := "thought\n" + thought;
    assert "<|channel>thought\n" + thought + "<channel|>" + content == CHANNEL_OPEN + t + CHANNEL_CLOSE + content;
    PlainInFront("thought\n", thought, CHANNEL_CLOSE);
    ScanThoughtBlock(t, content);
    ScanKeepsPlainText(content);
  }

  /** The schema takes a response apart at its channel markers, letter by letter. */
  lemma {:induction false} ResponseApart(thought: string, content: string)
    requires !Contains(thought, CHANNEL_CLOSE)
    requires !Contains(content, CALL_OPEN) && !Contains(content, TURN_CLOSE)
    ensures ParseResponse("<|channel>" + "thought\n" + thought + "<channel|>" + content)
            == Parsed(Some(thought), if content == "" then None else Some(content), None)
  {
    ResponseRoundTrip(Some(thought), content, [], false);
    assert RenderCalls([]) == "";
    assert content + ("" + "") == content;
    assert ResponseFormat(Some(thought), content, [], false) == THOUGHT_OPEN + thought + CHANNEL_CLOSE + content;
  }

  // -- The leading message -----------------------------------------------------------------

  /** A leading message of the system or the developer goes into the system block, trimmed,
      and is no turn; any other leading message is the first turn. */
  lemma {:induction false} LeadingMessage(c: Conversation)
    requires c.messages != []
    ensures var first := c.messages[0];
            if first.role == "system" || first.role == "developer"
            then |Normal(c).turns| == |c.messages| - 1 && Normal(c).block.Some?
                 && (first.content.TextContent? ==> Normal(c).block.value.system == Trim(first.content.text))
            else |Normal(c).turns| == |c.messages| && Normal(c).turns[0] == TurnOf(first)
                 && (Normal(c).block.Some? <==> c.thinking || c.tools != [])
                 && (Normal(c).block.Some? ==> Normal(c).block.value.system == "")
  {
  }

  // -- Media ---------------------------------------------------------------------------------

  /** What each part shows. */
  lemma {:induction false} PartsShow(role: string, text: string)
    ensures PartsText(role, [ImagePart]) == "\n\n<|image|>\n\n"
    ensures PartsText(role, [AudioPart]) == "<|audio|>"
    ensures PartsText(role, [VideoPart]) == "\n\n<|video|>\n\n"
    ensures PartsText(role, [OtherPart]) == ""
    ensures role != "model" ==> PartsText(role, [TextPart(text)]) == Trim(text)
    ensures PartsText("model", [TextPart(text)]) == Trim(Scan(text, false))
  {
    var show := part => PartText(role, part);
    EachOne(ImagePart, show);
    EachOne(AudioPart, show);
    EachOne(VideoPart, show);
    EachOne(OtherPart, show);
    EachOne(TextPart(text), show);
    EachOne(TextPart(text), part => PartText("model", part));
  }

  // -- Tool responses --------------------------------------------------------------------------

  /** A response that is a mapping prints its entries, any other value stands behind `value:`,
      and a response without a name is unknown. */
  lemma {:induction false} ResponseShows(r: ToolResponse)
    ensures !r.response.Map? ==> ResponseBody(r.response) == "value:" + Format(r.response, false)
    ensures r.response.Map? ==> "{" + ResponseBody(r.response) + "}" == Format(r.response, false)
    ensures ResponseName(r) == if r.name == None then "unknown" else r.name.value
  {
  }

  /** The printed mapping of a response reads back, sorted, exactly when it is printable. */
  lemma {:induction false} ResponseRoundTrips(v: Value)
    requires v.Map?
    ensures ReadValue("{" + ResponseBody(v) + "}", false) == Some((Canon(v), "")) <==> Printable(Canon(v), false)
  {
    var text := "{" + ResponseBody(v) + "}";
    assert text == Format(v, false) && text + "" == text;
    FormatRoundTrip(v, false, "");
  }

  lemma {:induction false} PairsOfResponses(rs: seq<ToolResponse>)
    ensures |ResponsePairs(rs)| == |rs|
    ensures forall k :: 0 <= k < |rs| ==> ResponsePairs(rs)[k] == (ResponseName(rs[k]), ResponseBody(rs[k].response))
  {
    if rs != [] {
      PairsOfResponses(rs[1..]);
      assert ResponsePairs(rs)[1..] == ResponsePairs(rs[1..]);
    }
  }

  /** Readable conversations with one prompt have the same tool responses: printable mappings
      agree but for the order of insertion. */
  lemma {:induction false} ResponsesAreUnambiguous(c: Conversation, d: Conversation, i: nat, k: nat)
    requires c.messages != [] && d.messages != []
    requires Readable(c) && Readable(d) && PromptText(c) == PromptText(d)
    requires i < |LoopMessages(c)| && k < |LoopMessages(c)[i].responses|
    ensures i < |LoopMessages(d)| && k < |LoopMessages(d)[i].responses|
    ensures var x, y := LoopMessages(c)[i].responses[k], LoopMessages(d)[i].responses[k];
            && ResponseName(x) == ResponseName(y)
            && (x.response.Map? && y.response.Map?
                && Printable(Canon(x.response), false) && Printable(Canon(y.response), false) ==>
                  Canon(x.response) == Canon(y.response))
  {
    PromptIsUnambiguous(c, d);
    var ms, ns := LoopMessages(c), LoopMessages(d);
    assert |TurnsOf(ms)| == |TurnsOf(ns)| && TurnsOf(ms)[i] == TurnsOf(ns)[i];
    PairsOfResponses(ms[i].responses);
    PairsOfResponses(ns[i].responses);
    var x, y := ms[i].responses[k], ns[i].responses[k];
    if x.response.Map? && y.response.Map? {
      ResponseRoundTrips(x.response);
      ResponseRoundTrips(y.response);
    }
  }

  // -- Values -----------------------------------------------------------------------------------

  /** What each kind of argument prints. */
  lemma {:induction false} ValuesShow(s: string, x: Value, y: Value, escapeKeys: bool)
    ensures Format(Str(s), escapeKeys) == "<|\"|>" + s + "<|\"|>" && Format(Scalar(s), escapeKeys) == s
    ensures Format(Bool(true), escapeKeys) == "true" && Format(Bool(false), escapeKeys) == "false"
    ensures Format(List([x, y]), escapeKeys) == "[" + (Format(x, escapeKeys) + ("," + Format(y, escapeKeys))) + "]"
    ensures Format(List([]), escapeKeys) == "[" + "" + "]" && Format(Map([]), escapeKeys) == "{" + "" + "}"
  {
    var last := [y];
    assert last[1..] == [] && [x, y][1..] == last;
    assert FormatItems(last, escapeKeys) == Format(y, escapeKeys) + "";
    assert Sort<Value>([]) == [];
  }

  lemma {:induction false} KeysShow(k: string, x: Value)
    ensures Format(Map([Item(k, x)]), false) == "{" + (k + ":" + Format(x, false) + "") + "}"
    ensures Format(Map([Item(k, x)]), true) == "{" + ("<|\"|>" + k + "<|\"|>" + ":" + Format(x, true) + "") + "}"
  {
    var items := [Item(k, x)];
    assert items[1..] == [] && Sort(items) == items;
  }

  // -- Calls ------------------------------------------------------------------------------------

  /** A mapping prints its entries between the braces, a text stands there as it is, and
      anything else leaves them empty. */
  lemma {:induction false} CallShows(name: string, entries: seq<Item<Value>>, text: string)
    ensures RenderCall(ToolCall(name, Mapping(entries)))
            == "<|tool_call>" + ("call:" + name + Format(Map(entries), false)) + "<tool_call|>"
    ensures RenderCall(ToolCall(name, Literal(text))) == "<|tool_call>" + ("call:" + name + "{" + text + "}") + "<tool_call|>"
    ensures RenderCall(ToolCall(name, Other)) == "<|tool_call>" + ("call:" + name + "{" + "" + "}") + "<tool_call|>"
  {
    var body := Body(Mapping(entries));
    assert Format(Map(entries), false) == "{" + body + "}";
    assert CALL + name + "{" + body + "}" == CALL + name + ("{" + body + "}");
  }

  // -- Two prompts, piece by piece -----------------------------------------------------------------

  const SYSTEM := Message("system", [], [], TextContent(" Be brief. "))
  const USER := Message("user", [], [], TextContent("hi"))
  const CALLING := Message("assistant", [ToolCall("f", Literal("x"))], [ToolResponse(None, Bool(true))], Absent)

  const USER_TEXT := "<|turn>" + "user" + "\n" + "hi" + "<turn|>\n"
  const CALL_TEXT := "<|tool_call>" + ("call:" + "f" + "{" + "x" + "}") + "<tool_call|>"
  const RESPONSE_TEXT := "<|tool_response>" + ("response:" + "unknown" + "{" + ("value:" + "true") + "}") + "<tool_response|>"
  const CALLING_TEXT := "<|turn>" + "model" + "\n" + (CALL_TEXT + (RESPONSE_TEXT + ("" + "")))
  const BLOCK_TEXT := "<|turn>" + "system" + "\n" + ("<|think|>" + ("Be brief." + ("<|tool>" + "decl" + "<tool|>" + ("<turn|>" + "\n"))))

  lemma {:induction false} UserText()
    ensures MessageText(USER) == USER_TEXT
  {
    PlainMessageText(USER);
    TrimmedStays("hi");
  }

  lemma {:induction false} CallingText()
    ensures MessageText(CALLING) == CALLING_TEXT
  {
    var call, response := ToolCall("f", Literal("x")), ToolResponse(None, Bool(true));
    EachOne(call, RenderCall);
    EachOne(response, ResponseText);
    assert RenderCalls(CALLING.calls) == RenderCall(call) == CALL_TEXT;
    assert ResponsesText(CALLING.responses) == ResponseText(response) == RESPONSE_TEXT;
  }

  lemma {:induction false} LeftTrims(c: char, text: string)
    requires IsSpace(c) && text != "" && !IsSpace(text[0])
    ensures TrimLeft([c] + text) == text
  {
    assert ([c] + text)[1..] == text;
  }

  lemma {:induction false} RightTrims(text: string, c: char)
    requires IsSpace(c) && text != "" && !IsSpace(text[|text| - 1])
    ensures TrimRight(text + [c]) == text
  {
    var s := text + [c];
    assert s[..|s| - 1] == text;
  }

  /** Blanks go, at both ends. */
  lemma {:induction false} BlanksGo(c: char, text: string, d: char)
    requires c in " \t\n\r" && d in " \t\n\r" && text != "" && !IsSpace(text[0]) && !IsSpace(text[|text| - 1])
    ensures Trim([c] + text + [d]) == text
  {
    assert [c] + text + [d] == [c] + (text + [d]);
    assert (text + [d])[0] == text[0];
    LeftTrims(c, text + [d]);
    RightTrims(text, d);
  }

  lemma {:induction false} BlockTextOf(c: Conversation)
    requires c.messages != [] && c.messages[0] == SYSTEM && c.thinking && c.tools == ["\tdecl\n"]
    ensures BlockText(c) == BLOCK_TEXT
  {
    BlanksGo(' ', "Be brief.", ' ');
    assert " Be brief. " == [' '] + "Be brief." + [' '];
    BlanksGo('\t', "decl", '\n');
    assert "\tdecl\n" == ['\t'] + "decl" + ['\n'];
    EachOne("\tdecl\n", ToolText);
  }

  /** With everything in it: thinking, a system message, a tool, a question and a call whose
      response the model is to go on from. */
  lemma {:induction false} LongPrompt()
    ensures PromptText(Conversation(true, ["\tdecl\n"], [SYSTEM, USER, CALLING], true))
            == Some("<bos>" + BLOCK_TEXT + USER_TEXT + CALLING_TEXT)
  {
    var c := Conversation(true, ["\tdecl\n"], [SYSTEM, USER, CALLING], true);
    BlockTextOf(c);
    UserText();
    CallingText();
    assert LoopMessages(c) == [USER, CALLING];
    TwoTexts(USER, CALLING);
    assert GenerationText(c) == "" + "";
    Put(BOS, BlockText(c), MessageText(USER), MessageText(CALLING));
  }

  lemma {:induction false} TwoTexts(m: Message, n: Message)
    ensures MessagesText([m, n]) == MessageText(m) + MessageText(n)
  {
    var ms := [m, n];
    assert ms[1..] == [n];
    SplitMessages(ms);
    EachOne(n, MessageText);
  }

  lemma Put(a: string, b: string, x: string, y: string)
    ensures a + b + (x + y + ("" + "")) == a + b + x + y
  {
  }

  /** A question alone, for a model that is not to think. */
  lemma {:induction false} ShortPrompt()
    ensures PromptText(Conversation(false, [], [USER], true))
            == Some("<bos>" + USER_TEXT + ("<|turn>" + "model" + "\n" + ("<|channel>" + "thought\n" + "<channel|>")))
  {
    var c := Conversation(false, [], [USER], true);
    UserText();
    EachOne(USER, MessageText);
    assert LoopMessages(c) == [USER] && LastType(c) == NoType;
    assert GenerationText(c) == TURN_OPEN + "model" + "\n" + NO_THOUGHT;
    PutOne(BOS, MessageText(USER), GenerationText(c));
  }

  lemma PutOne(a: string, x: string, y: string)
    ensures a + "" + (x + y) == a + x + y
  {
  }
}
