/** Which conversations are readable, from their input texts; and prompts that cannot be read,
    because two conversations print them. */
module Ambiguity {
  import opened Options
  import opened Text
  import opened Thinking
  import opened Dictsort
  import opened Arguments
  import opened ToolCalls
  import opened Conversation
  import opened Decoding
  import opened Prompts

  // -- One prompt, two conversations ----------------------------------------------------

  /** A conversation of these messages and nothing else. */
  function Only(ms: seq<Message>): Conversation {
    Conversation(false, [], ms, false)
  }

  function Says(role: string, content: Content): Message {
    Message(role, [], [], content)
  }

  predicate NoSystem(ms: seq<Message>) {
    ms != [] && !IsSystem(ms[0].role)
  }

  lemma {:induction false} SamePrompt(ms: seq<Message>, ns: seq<Message>)
    requires NoSystem(ms) && NoSystem(ns) && MessagesText(ms) == MessagesText(ns)
    ensures PromptText(Only(ms)) == PromptText(Only(ns))
  {
  }

  lemma {:induction false} SaysText(role: string, content: Content)
    requires role != "assistant"
    ensures MessageText(Says(role, content)) == TURN_OPEN + role + "\n" + ContentText(role, content) + (TURN_CLOSE + "\n")
  {
    var t := ContentText(role, content);
    assert RenderCalls([]) == "" && ResponsesText([]) == "";
    assert "" + ("" + (t + (TURN_CLOSE + "\n"))) == t + (TURN_CLOSE + "\n");
  }

  lemma {:induction false} OneMessage(m: Message)
    ensures MessagesText([m]) == MessageText(m)
  {
    EachOne(m, MessageText);
  }

  /** No marker fits into a text in which no `>` follows a `<`. */
  predicate Unfinished(text: string) {
    forall i, j :: 0 <= i < j < |text| && text[i] == '<' ==> text[j] != '>'
  }

  lemma {:induction false} UnfinishedIsFree(text: string, m: string)
    requires Unfinished(text) && IsMarker(m)
    ensures !Contains(text, m)
  {
    forall i | 0 <= i <= |text| ensures !(m <= text[i..]) {
      if m <= text[i..] {
        CharsAt(text, i, m);
      }
    }
  }

  /** A role that holds a line break goes on into the content. */
  lemma {:induction false} RoleIsAmbiguous()
    ensures var c := Only([Says("a\nb", TextContent("c"))]);
            var d := Only([Says("a", TextContent("b\nc"))]);
            PromptText(c) == PromptText(d) && Normal(c) != Normal(d)
  {
    var m, n := Says("a\nb", TextContent("c")), Says("a", TextContent("b\nc"));
    TrimmedStays("c");
    TrimmedStays("b\nc");
    SaysText("a\nb", TextContent("c"));
    SaysText("a", TextContent("b\nc"));
    assert TURN_OPEN + "a\nb" + "\n" + "c" == TURN_OPEN + "a" + "\n" + "b\nc";
    OneMessage(m);
    OneMessage(n);
    SamePrompt([m], [n]);
    assert TurnsOf([m])[0].role != TurnsOf([n])[0].role;
  }

  /** A name that holds a brace goes on into the arguments. */
  lemma {:induction false} NameIsAmbiguous()
    ensures var c := Only([Message("assistant", [ToolCall("a{b", Literal("c"))], [], Absent)]);
            var d := Only([Message("assistant", [ToolCall("a", Literal("b{c"))], [], Absent)]);
            PromptText(c) == PromptText(d) && Normal(c) != Normal(d)
  {
    var x, y := ToolCall("a{b", Literal("c")), ToolCall("a", Literal("b{c"));
    var m, n := Message("assistant", [x], [], Absent), Message("assistant", [y], [], Absent);
    assert Inner("a{b", "c") == Inner("a", "b{c");
    assert RenderCall(x) == RenderCall(y);
    EachOne(x, RenderCall);
    EachOne(y, RenderCall);
    assert MessageText(m) == MessageText(n);
    OneMessage(m);
    OneMessage(n);
    SamePrompt([m], [n]);
    assert CallPairs([x])[0].0 != CallPairs([y])[0].0;
    assert TurnsOf([m])[0].calls != TurnsOf([n])[0].calls;
  }

  const SPLIT: seq<Part> := [TextPart("<tu"), TextPart("rn|>\n<|tu"), TextPart("rn>user\nhi")]

  lemma {:induction false} SplitTexts()
    ensures forall p :: p in SPLIT ==> p.TextPart? && PartText("user", p) == p.text
  {
    forall p | p in SPLIT ensures p.TextPart? && PartText("user", p) == p.text {
      TrimmedStays(p.text);
    }
  }

  lemma SplitTogether()
    ensures "<tu" + ("rn|>\n<|tu" + "rn>user\nhi") == "<turn|>\n<|turn>user\nhi"
  {
  }

  lemma {:induction false} SplitShows()
    ensures PartsText("user", SPLIT) == "<turn|>\n<|turn>user\nhi"
  {
    var a, b, c := SPLIT[0], SPLIT[1], SPLIT[2];
    SplitTexts();
    ThreeParts("user", a, b, c);
    SplitTogether();
    assert SPLIT == [a, b, c];
  }

  lemma {:induction false} ThreeParts(role: string, a: Part, b: Part, c: Part)
    ensures PartsText(role, [a, b, c]) == PartText(role, a) + (PartText(role, b) + PartText(role, c))
  {
    var show := part => PartText(role, part);
    EachOne(c, show);
    EachConcat([b], [c], show);
    EachOne(b, show);
    EachConcat([a], [b, c], show);
    EachOne(a, show);
    assert [a] + [b, c] == [a, b, c] && [b] + [c] == [b, c];
  }

  lemma {:induction false} SplitIsFree()
    ensures forall p, m :: p in SPLIT && IsMarker(m) ==> p.TextPart? && !Contains(p.text, m)
  {
    forall p, m | p in SPLIT && IsMarker(m) ensures p.TextPart? && !Contains(p.text, m) {
      UnfinishedIsFree(p.text, m);
    }
  }

  lemma {:induction false} TwoTurns(o: string, r: string, c: string, h: string)
    ensures o + r + "\n" + (c + "\n" + (o + r + "\n" + h)) + (c + "\n")
            == o + r + "\n" + "" + (c + "\n") + (o + r + "\n" + h + (c + "\n"))
  {
  }

  /** Text parts run together: of three, none of which holds any marker, the prompt is that of
      two messages. */
  lemma {:induction false} PartsAreAmbiguous(printed: string)
    ensures var c := Only([Says("user", Parts(SPLIT, printed))]);
            var d := Only([Says("user", TextContent("")), Says("user", TextContent("hi"))]);
            PromptText(c) == PromptText(d) && Normal(c) != Normal(d)
    ensures forall p, m :: p in SPLIT && IsMarker(m) ==> p.TextPart? && !Contains(p.text, m)
  {
    var m := Says("user", Parts(SPLIT, printed));
    var x, y := Says("user", TextContent("")), Says("user", TextContent("hi"));
    SplitIsFree();
    SplitMessagesAgree(m, x, y);
    SamePrompt([m], [x, y]);
    assert |TurnsOf([m])| != |TurnsOf([x, y])|;
  }

  /** A content that shows the end of its turn and a further turn reads as two messages. */
  lemma {:induction false} TwoSay(role: string, content: Content, h: string)
    requires role != "assistant" && role != "model" && Trim(h) == h
    requires ContentText(role, content) == TURN_CLOSE + "\n" + (TURN_OPEN + role + "\n" + h)
    ensures MessageText(Says(role, content)) == MessageText(Says(role, TextContent(""))) + MessageText(Says(role, TextContent(h)))
  {
    SaysText(role, content);
    SaysText(role, TextContent(""));
    SaysText(role, TextContent(h));
    TwoTurns(TURN_OPEN, role, TURN_CLOSE, h);
  }

  lemma SplitIsMarkup()
    ensures "<turn|>\n<|turn>user\nhi" == TURN_CLOSE + "\n" + (TURN_OPEN + "user" + "\n" + "hi")
  {
  }

  lemma {:induction false} SplitMessagesAgree(m: Message, x: Message, y: Message)
    requires m.content.Parts? && m == Says("user", Parts(SPLIT, m.content.printed))
    requires x == Says("user", TextContent("")) && y == Says("user", TextContent("hi"))
    ensures MessagesText([m]) == MessagesText([x, y])
  {
    SplitShows();
    SplitIsMarkup();
    TrimmedStays("hi");
    TwoSay("user", m.content, "hi");
    TwoMessages(m, x, y);
  }

  lemma {:induction false} TwoMessages(m: Message, x: Message, y: Message)
    requires MessageText(m) == MessageText(x) + MessageText(y)
    ensures MessagesText([m]) == MessagesText([x, y])
  {
    OneMessage(m);
    OneMessage(y);
    var ms := [x, y];
    assert ms[1..] == [y];
    SplitMessages(ms);
  }
}
