/** The `strip_thinking` macro: removing thought channels from an assistant message. */
module Thinking {
  import opened Options
  import opened Text

  const CHANNEL_OPEN := "<|channel>"
  const CHANNEL_CLOSE := "<channel|>"

  lemma ChannelMarkers()
    ensures IsMarker(CHANNEL_OPEN) && IsMarker(CHANNEL_CLOSE)
  {
  }

  /** The one-pass reading of the macro: outside a thought every character is kept, an
      opening marker starts a thought, everything up to and including the next closing
      marker is dropped, and a closing marker outside a thought is dropped by itself. */
  function Scan(s: string, inThought: bool): string
    decreases |s|
  {
    if s == "" then ""
    else if CHANNEL_CLOSE <= s then Scan(s[|CHANNEL_CLOSE|..], false)
    else if inThought then Scan(s[1..], true)
    else if CHANNEL_OPEN <= s then Scan(s[|CHANNEL_OPEN|..], true)
    else [s[0]] + Scan(s[1..], false)
  }

  /** What an assistant message shows once its thoughts are removed. */
  function Visible(text: string): string {
    Trim(Scan(text, false))
  }

  /** `part.split('<|channel>')[0]`, or the part itself without an opening marker. */
  function BeforeThought(part: string): string {
    var c := Cut(part, CHANNEL_OPEN);
    if c.None? then part else c.value.0
  }

  function BeforeThoughts(parts: seq<string>): string {
    if parts == [] then "" else BeforeThought(parts[0]) + BeforeThoughts(parts[1..])
  }

  lemma BeforeThoughtsAppend(parts: seq<string>, part: string)
    ensures BeforeThoughts(parts + [part]) == BeforeThoughts(parts) + BeforeThought(part)
  {
    if parts != [] {
      BeforeThoughtsAppend(parts[1..], part);
      assert (parts + [part])[1..] == parts[1..] + [part];
    }
  }

  /** A closing marker does not start in a part that is free of it. */
  lemma {:induction false} NotClosing(part: string, tail: string)
    requires part != "" && !Contains(part, CHANNEL_CLOSE) && AtMarker(tail)
    ensures !(CHANNEL_CLOSE <= part + tail)
    ensures forall n :: 0 <= n <= |part| ==> !Contains(part[n..], CHANNEL_CLOSE)
    ensures CHANNEL_OPEN <= part + tail <==> CHANNEL_OPEN <= part
  {
    ChannelMarkers();
    assert (part + tail)[0..] == part + tail && part[0..] == part;
    NoSpan(part, tail, CHANNEL_CLOSE, 0);
    NoSpan(part, tail, CHANNEL_OPEN, 0);
    forall n | 0 <= n <= |part| ensures !Contains(part[n..], CHANNEL_CLOSE) {
      forall i | 0 <= i <= |part| - n ensures !(CHANNEL_CLOSE <= part[n..][i..]) {
        assert part[n..][i..] == part[n + i..];
      }
    }
  }

  lemma {:induction false} ScanDropsThought(part: string, tail: string)
    requires !Contains(part, CHANNEL_CLOSE) && AtMarker(tail)
    ensures Scan(part + tail, true) == Scan(tail, true)
  {
    if part == "" {
      assert part + tail == tail;
    } else {
      NotClosing(part, tail);
      assert (part + tail)[1..] == part[1..] + tail;
      ScanDropsThought(part[1..], tail);
    }
  }

  lemma {:induction false} ScanPart(part: string, tail: string)
    requires !Contains(part, CHANNEL_CLOSE)
    requires tail == "" || CHANNEL_CLOSE <= tail
    ensures Scan(part + tail, false) == BeforeThought(part) + Scan(tail, false)
    decreases |part|
  {
    if part == "" {
      assert part + tail == tail;
    } else {
      NotClosing(part, tail);
      if CHANNEL_OPEN <= part {
        ScanOpen(part, tail);
        ScanDropsThought(part[|CHANNEL_OPEN|..], tail);
        ScanTail(tail);
        assert "" + Scan(tail, false) == Scan(tail, false);
      } else {
        ScanChar(part, tail);
        ScanPart(part[1..], tail);
        Assoc([part[0]], BeforeThought(part[1..]), Scan(tail, false));
      }
    }
  }

  lemma {:induction false} ScanTail(tail: string)
    requires tail == "" || CHANNEL_CLOSE <= tail
    ensures Scan(tail, true) == Scan(tail, false)
  {
  }

  lemma {:induction false} ScanOpen(part: string, tail: string)
    requires CHANNEL_OPEN <= part && !(CHANNEL_CLOSE <= part + tail)
    ensures Scan(part + tail, false) == Scan(part[|CHANNEL_OPEN|..] + tail, true)
    ensures BeforeThought(part) == ""
  {
    assert (part + tail)[|CHANNEL_OPEN|..] == part[|CHANNEL_OPEN|..] + tail;
  }

  lemma {:induction false} ScanChar(part: string, tail: string)
    requires part != "" && !(CHANNEL_CLOSE <= part + tail) && !(CHANNEL_OPEN <= part + tail)
    requires !(CHANNEL_OPEN <= part)
    ensures Scan(part + tail, false) == [part[0]] + Scan(part[1..] + tail, false)
    ensures BeforeThought(part) == [part[0]] + BeforeThought(part[1..])
  {
    assert (part + tail)[1..] == part[1..] + tail;
    assert part == [part[0]] + part[1..];
  }

  /** Split on the closing marker, cut every part at its first opening marker, join: the
      same as the one-pass scanner, on every string. */
  lemma {:induction false} SplitAndCutIsScan(text: string)
    ensures BeforeThoughts(Split(text, CHANNEL_CLOSE)) == Scan(text, false)
    decreases |text|
  {
    var c := Cut(text, CHANNEL_CLOSE);
    assert !Contains(Split(text, CHANNEL_CLOSE)[0], CHANNEL_CLOSE);
    if c.None? {
      assert text + "" == text;
      ScanPart(text, "");
      FirstThought(text, []);
    } else {
      var (a, b) := c.value;
      ScanPart(a, CHANNEL_CLOSE + b);
      Assoc(a, CHANNEL_CLOSE, b);
      ScanAtClose(b);
      SplitAndCutIsScan(b);
      FirstThought(a, Split(b, CHANNEL_CLOSE));
    }
  }

  lemma {:induction false} FirstThought(part: string, parts: seq<string>)
    ensures BeforeThoughts([part] + parts) == BeforeThought(part) + BeforeThoughts(parts)
  {
    assert ([part] + parts)[1..] == parts;
  }

  lemma {:induction false} ScanAtClose(rest: string)
    ensures Scan(CHANNEL_CLOSE + rest, false) == Scan(rest, false)
  {
    assert (CHANNEL_CLOSE + rest)[|CHANNEL_CLOSE|..] == rest;
  }

  /** The macro, as the template runs it: a loop over the parts that extends `ns.result`. */
  method StripThinking(text: string) returns (r: string)
    ensures r == Visible(text)
  {
    var parts := Split(text, CHANNEL_CLOSE);
    var result := "";
    for i := 0 to |parts|
      invariant result == BeforeThoughts(parts[..i])
    {
      var c := Cut(parts[i], CHANNEL_OPEN);
      BeforeThoughtsAppend(parts[..i], parts[i]);
      assert parts[..i + 1] == parts[..i] + [parts[i]];
      if c.Some? {
        result := result + c.value.0;
      } else {
        result := result + parts[i];
      }
    }
    assert parts[..|parts|] == parts;
    SplitAndCutIsScan(text);
    r := Trim(result);
  }

  /** A thought block in front of a text disappears, with everything in it. */
  lemma {:induction false} ScanThoughtBlock(thought: string, rest: string)
    requires !Contains(thought, CHANNEL_CLOSE)
    ensures Scan(CHANNEL_OPEN + thought + CHANNEL_CLOSE + rest, false) == Scan(rest, false)
  {
    var tail := CHANNEL_CLOSE + rest;
    Opens(thought + tail);
    ScanDropsThought(thought, tail);
    ScanTail(tail);
    ScanAtClose(rest);
    Assoc(CHANNEL_OPEN + thought, CHANNEL_CLOSE, rest);
    Assoc(CHANNEL_OPEN, thought, tail);
  }

  lemma {:induction false} Opens(rest: string)
    ensures Scan(CHANNEL_OPEN + rest, false) == Scan(rest, true)
  {
    var s := CHANNEL_OPEN + rest;
    assert s[|CHANNEL_OPEN|..] == rest;
    assert s[1] == CHANNEL_OPEN[1] == '|' && CHANNEL_CLOSE[1] == 'c';
  }

  /** Without channel markers the scanner keeps the text. */
  lemma {:induction false} ScanKeepsPlainText(text: string)
    requires !Contains(text, CHANNEL_OPEN) && !Contains(text, CHANNEL_CLOSE)
    ensures Scan(text, false) == text
  {
    assert text + "" == text;
    ScanPart(text, "");
    CutFindsMarker(text, CHANNEL_OPEN);
  }

  lemma {:induction false} ScanShrinks(s: string, inThought: bool)
    ensures |Scan(s, inThought)| <= |s|
    ensures !inThought && |Scan(s, inThought)| == |s| ==>
              !Contains(s, CHANNEL_OPEN) && !Contains(s, CHANNEL_CLOSE)
    decreases |s|
  {
    if s == "" {
    } else if CHANNEL_CLOSE <= s {
      ScanShrinks(s[|CHANNEL_CLOSE|..], false);
    } else if inThought {
      ScanShrinks(s[1..], true);
    } else if CHANNEL_OPEN <= s {
      ScanShrinks(s[|CHANNEL_OPEN|..], true);
    } else {
      ScanShrinks(s[1..], false);
      assert s[0..] == s;
      assert forall i :: 1 <= i <= |s| ==> s[i..] == s[1..][i - 1..];
    }
  }

  /** A text is its own visible part exactly when it is trimmed and holds no channel marker. */
  lemma {:induction false} VisibleIsItself(v: string)
    ensures Visible(v) == v <==> Trimmed(v) && !Contains(v, CHANNEL_OPEN) && !Contains(v, CHANNEL_CLOSE)
  {
    var a, b := TrimSplits(Scan(v, false));
    ScanShrinks(v, false);
    if Trimmed(v) && !Contains(v, CHANNEL_OPEN) && !Contains(v, CHANNEL_CLOSE) {
      ScanKeepsPlainText(v);
      TrimmedStays(v);
    }
  }

  /** A second pass changes nothing exactly when the first left no channel marker.  It can
      leave one: the two halves around a thought may join into a new marker, as in
      `<|chan<channel|>nel>`. */
  lemma {:induction false} StableIffNoMarkerLeft(text: string)
    ensures Visible(Visible(text)) == Visible(text) <==>
              !Contains(Visible(text), CHANNEL_OPEN) && !Contains(Visible(text), CHANNEL_CLOSE)
  {
    var a, b := TrimSplits(Scan(text, false));
    VisibleIsItself(Visible(text));
  }

  /** Two pieces too short to hold a marker, around a closing marker, can join into one. */
  lemma {:induction false} MarkerCanReform()
    ensures Visible(CHANNEL_OPEN[..6] + CHANNEL_CLOSE + CHANNEL_OPEN[6..]) == CHANNEL_OPEN
  {
    var part, rest := CHANNEL_OPEN[..6], CHANNEL_OPEN[6..];
    var tail := CHANNEL_CLOSE + rest;
    ScanPart(part, tail);
    CutFindsMarker(part, CHANNEL_OPEN);
    assert tail[|CHANNEL_CLOSE|..] == rest;
    ScanKeepsPlainText(rest);
    assert part + tail == part + CHANNEL_CLOSE + rest;
    assert part + rest == CHANNEL_OPEN;
  }
}
