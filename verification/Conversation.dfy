/** The chat template: from a conversation to the prompt text.

    The functions say what each block prints; the methods are the template's own loops,
    which extend the output and overwrite `ns.prev_message_type` step by step. */
module Conversation {
  import opened Options
  import opened Text
  import opened Thinking
  import opened Dictsort
  import opened Arguments
  import opened ToolCalls

  const BOS := "<bos>"
  const TURN_OPEN := "<|turn>"
  const TURN_CLOSE := "<turn|>"
  const RESPONSE_OPEN := "<|tool_response>"
  const RESPONSE_CLOSE := "<tool_response|>"
  const TOOL_OPEN := "<|tool>"
  const TOOL_CLOSE := "<tool|>"
  const THINK := "<|think|>"
  const IMAGE := "\n\n<|image|>\n\n"
  const AUDIO := "<|audio|>"
  const VIDEO := "\n\n<|video|>\n\n"
  const RESPONSE := "response:"
  const NO_THOUGHT := CHANNEL_OPEN + "thought\n" + CHANNEL_CLOSE

  datatype Part = TextPart(text: string) | ImagePart | AudioPart | VideoPart | OtherPart

  /** A list of parts also carries its text as the host prints a list: the leading system
      block, which trims its content whatever it is, shows that text. */
  datatype Content = Absent | TextContent(text: string) | Parts(items: seq<Part>, printed: string) {
    /** The template's `not message['content']`, negated. */
    predicate Truthy() {
      match this
      case Absent => false
      case TextContent(text) => text != ""
      case Parts(items, _) => items != []
    }
  }

  datatype ToolResponse = ToolResponse(name: Option<string>, response: Value)

  datatype Message = Message(
    role: string,
    calls: seq<ToolCall>,
    responses: seq<ToolResponse>,
    content: Content)

  datatype MessageType =
    NoType | ThinkType | ToolType | CallType | ResponseType | ImageType | AudioType | VideoType

  /** Tool declarations come as the text the declaration macro prints. */
  datatype Conversation = Conversation(
    thinking: bool,
    tools: seq<string>,
    messages: seq<Message>,
    addGenerationPrompt: bool)

  // -- What each block prints ------------------------------------------------------

  function RoleOf(m: Message): string {
    if m.role == "assistant" then "model" else m.role
  }

  /** A text as shown: assistant texts without their thoughts, all texts trimmed. */
  function Shown(role: string, text: string): string {
    if role == "model" then Visible(text) else Trim(text)
  }

  function PartText(role: string, part: Part): string {
    match part
    case TextPart(text) => Shown(role, text)
    case ImagePart => IMAGE
    case AudioPart => AUDIO
    case VideoPart => VIDEO
    case OtherPart => ""
  }

  function PartsText(role: string, items: seq<Part>): string {
    Each(items, part => PartText(role, part))
  }

  function ContentText(role: string, content: Content): string {
    match content
    case Absent => ""
    case TextContent(text) => Shown(role, text)
    case Parts(items, _) => PartsText(role, items)
  }

  function ResponseName(r: ToolResponse): string {
    if r.name.Some? then r.name.value else "unknown"
  }

  function ResponseBody(v: Value): string {
    match v
    case Map(entries) =>
      SortPermutes(entries);
      FormatEntries(Sort(entries), false, v)
    case _ => "value:" + Format(v, false)
  }

  function ResponseInner(name: string, body: string): string {
    RESPONSE + name + "{" + body + "}"
  }

  function ResponseText(r: ToolResponse): string {
    RESPONSE_OPEN + ResponseInner(ResponseName(r), ResponseBody(r.response)) + RESPONSE_CLOSE
  }

  function ResponsesText(responses: seq<ToolResponse>): string {
    Each(responses, ResponseText)
  }

  /** A turn stays open only to let the model go on behind bare tool responses. */
  predicate Closed(m: Message) {
    !(m.responses != [] && !m.content.Truthy())
  }

  function CloseText(m: Message): string {
    if Closed(m) then TURN_CLOSE + "\n" else ""
  }

  function MessageText(m: Message): string {
    TURN_OPEN + RoleOf(m) + "\n"
    + (RenderCalls(m.calls) + (ResponsesText(m.responses) + (ContentText(RoleOf(m), m.content) + CloseText(m))))
  }

  function MessagesText(ms: seq<Message>): string {
    Each(ms, MessageText)
  }

  function PartType(part: Part, before: MessageType): MessageType {
    match part
    case ImagePart => ImageType
    case AudioPart => AudioType
    case VideoPart => VideoType
    case _ => before
  }

  function PartsType(items: seq<Part>, before: MessageType): MessageType {
    if items == [] then before else PartsType(items[1..], PartType(items[0], before))
  }

  /** `ns.prev_message_type` behind a message. */
  function TypeOf(m: Message): MessageType {
    var before :=
      if m.responses != [] then ResponseType
      else if m.calls != [] then CallType
      else NoType;
    match m.content
    case Parts(items, _) => PartsType(items, before)
    case _ => before
  }

  predicate IsSystem(role: string) {
    role == "system" || role == "developer"
  }

  predicate HasSystemBlock(c: Conversation)
    requires c.messages != []
  {
    c.thinking || c.tools != [] || IsSystem(c.messages[0].role)
  }

  function SystemText(c: Conversation): string
    requires c.messages != []
  {
    if !IsSystem(c.messages[0].role) then ""
    else match c.messages[0].content
      case Absent => Trim("")
      case TextContent(text) => Trim(text)
      case Parts(_, printed) => Trim(printed)
  }

  function ToolText(declaration: string): string {
    TOOL_OPEN + Trim(declaration) + TOOL_CLOSE
  }

  function ToolsText(tools: seq<string>): string {
    Each(tools, ToolText)
  }

  function BlockText(c: Conversation): string
    requires c.messages != []
  {
    if !HasSystemBlock(c) then "" else
    TURN_OPEN + "system" + "\n"
    + ((if c.thinking then THINK else "") + (SystemText(c) + (ToolsText(c.tools) + (TURN_CLOSE + "\n"))))
  }

  function LoopMessages(c: Conversation): seq<Message>
    requires c.messages != []
  {
    if IsSystem(c.messages[0].role) then c.messages[1..] else c.messages
  }

  function LastType(c: Conversation): MessageType
    requires c.messages != []
  {
    var ms := LoopMessages(c);
    if ms != [] then TypeOf(ms[|ms| - 1])
    else if c.tools != [] then ToolType
    else if c.thinking then ThinkType
    else NoType
  }

  predicate OpensModelTurn(c: Conversation)
    requires c.messages != []
  {
    c.addGenerationPrompt && !LastType(c).ResponseType?
  }

  function GenerationText(c: Conversation): string
    requires c.messages != []
  {
    (if OpensModelTurn(c) then TURN_OPEN + "model" + "\n" else "")
    + (if c.addGenerationPrompt && !c.thinking then NO_THOUGHT else "")
  }

  /** The prompt.  Without messages the template fails: it asks for the role of the first. */
  function PromptText(c: Conversation): Option<string> {
    if c.messages == [] then None
    else Some(BOS + BlockText(c) + (MessagesText(LoopMessages(c)) + GenerationText(c)))
  }

  // -- The template's loops --------------------------------------------------------

  lemma {:induction false} PartsTypeRound(items: seq<Part>, i: nat, before: MessageType)
    requires i < |items|
    ensures PartsType(items[..i + 1], before) == PartType(items[i], PartsType(items[..i], before))
  {
    if i > 0 {
      PartsTypeRound(items[1..], i - 1, PartType(items[0], before));
      assert items[..i + 1][1..] == items[1..][..i] && items[..i][1..] == items[1..][..i - 1];
    }
  }

  method ShowText(role: string, text: string) returns (shown: string)
    ensures shown == Shown(role, text)
  {
    if role == "model" {
      shown := StripThinking(text);
    } else {
      shown := Trim(text);
    }
  }

  method ShowContent(role: string, content: Content, before: MessageType)
    returns (text: string, messageType: MessageType)
    ensures text == ContentText(role, content)
    ensures messageType == if content.Parts? then PartsType(content.items, before) else before
  {
    text, messageType := "", before;
    match content {
      case Absent =>
      case TextContent(t) =>
        text := ShowText(role, t);
      case Parts(items, _) =>
        for i := 0 to |items|
          invariant text == PartsText(role, items[..i])
          invariant messageType == PartsType(items[..i], before)
        {
          EachRound(items, i, part => PartText(role, part));
          PartsTypeRound(items, i, before);
          match items[i] {
            case TextPart(t) =>
              var shown := ShowText(role, t);
              text := text + shown;
            case ImagePart =>
              text, messageType := text + IMAGE, ImageType;
            case AudioPart =>
              text, messageType := text + AUDIO, AudioType;
            case VideoPart =>
              text, messageType := text + VIDEO, VideoType;
            case OtherPart =>
          }
        }
        assert items[..|items|] == items;
    }
  }

  method ShowCalls(calls: seq<ToolCall>) returns (text: string)
    ensures text == RenderCalls(calls)
  {
    text := "";
    for i := 0 to |calls|
      invariant text == RenderCalls(calls[..i])
    {
      EachRound(calls, i, RenderCall);
      text := text + RenderCall(calls[i]);
    }
    assert calls[..|calls|] == calls;
  }

  method ShowResponses(responses: seq<ToolResponse>) returns (text: string)
    ensures text == ResponsesText(responses)
  {
    text := "";
    for i := 0 to |responses|
      invariant text == ResponsesText(responses[..i])
    {
      EachRound(responses, i, ResponseText);
      text := text + ResponseText(responses[i]);
    }
    assert responses[..|responses|] == responses;
  }

  /** One round of the message loop. */
  method ShowMessage(m: Message) returns (text: string, messageType: MessageType)
    ensures text == MessageText(m)
    ensures messageType == TypeOf(m)
  {
    messageType := NoType;
    var role := if m.role == "assistant" then "model" else m.role;
    var calls, responses := "", "";
    if m.calls != [] {
      calls := ShowCalls(m.calls);
      messageType := CallType;
    }
    if m.responses != [] {
      responses := ShowResponses(m.responses);
      messageType := ResponseType;
    }
    var content;
    content, messageType := ShowContent(role, m.content, messageType);
    var close := "";
    if !(m.responses != [] && !m.content.Truthy()) {
      close := TURN_CLOSE + "\n";
    }
    text := TURN_OPEN + role + "\n" + (calls + (responses + (content + close)));
  }

  method ShowSystemBlock(c: Conversation) returns (text: string, messageType: MessageType)
    requires c.messages != []
    ensures text == BlockText(c)
    ensures messageType == if c.tools != [] then ToolType else if c.thinking then ThinkType else NoType
  {
    text, messageType := "", NoType;
    if c.thinking || c.tools != [] || IsSystem(c.messages[0].role) {
      var think, system, tools := "", "", "";
      if c.thinking {
        think, messageType := THINK, ThinkType;
      }
      if IsSystem(c.messages[0].role) {
        match c.messages[0].content {
          case Absent => system := Trim("");
          case TextContent(t) => system := Trim(t);
          case Parts(_, printed) => system := Trim(printed);
        }
      }
      if c.tools != [] {
        for i := 0 to |c.tools|
          invariant tools == ToolsText(c.tools[..i])
        {
          EachRound(c.tools, i, ToolText);
          tools := tools + ToolText(c.tools[i]);
        }
        assert c.tools[..|c.tools|] == c.tools;
        messageType := ToolType;
      }
      text := TURN_OPEN + "system" + "\n" + (think + (system + (tools + (TURN_CLOSE + "\n"))));
    }
  }

  /** The message loop. */
  method ShowMessages(ms: seq<Message>, before: MessageType) returns (text: string, messageType: MessageType)
    ensures text == MessagesText(ms)
    ensures messageType == if ms == [] then before else TypeOf(ms[|ms| - 1])
  {
    text, messageType := "", before;
    for i := 0 to |ms|
      invariant text == MessagesText(ms[..i])
      invariant messageType == if i == 0 then before else TypeOf(ms[i - 1])
    {
      EachRound(ms, i, MessageText);
      var t;
      t, messageType := ShowMessage(ms[i]);
      text := text + t;
    }
    assert ms[..|ms|] == ms;
  }

  /** The whole template. */
  method ShowPrompt(c: Conversation) returns (r: Option<string>)
    ensures r == PromptText(c)
  {
    if c.messages == [] {
      return None;
    }
    var block, messageType := ShowSystemBlock(c);
    var ms := if IsSystem(c.messages[0].role) then c.messages[1..] else c.messages;
    var text;
    text, messageType := ShowMessages(ms, messageType);
    assert messageType == LastType(c);
    var open, thought := "", "";
    if c.addGenerationPrompt {
      if messageType != ResponseType {
        open := TURN_OPEN + "model" + "\n";
      }
      if !c.thinking {
        thought := NO_THOUGHT;
      }
    }
    r := Some(BOS + block + (text + (open + thought)));
  }
}
