/** The streamed answer: upstream chunks are batched by the engine and sent by the server.

    JSON stays abstract: a codec gives `json.loads`, `json.dumps` and, for values that are
    Python strings, their text. */
module Streaming {
  import opened Options
  import opened Text
  import opened Batching

  datatype Codec<!J> = Codec(loads: string -> Option<J>, dumps: J -> string, asText: J -> Option<string>)

  datatype Item<+J> = Raw(text: string) | Value(value: J)

  /** What the engine yields: a joined text in raw mode, else a list; a single object when
      the upstream refuses the request, and that one has an `error` key. */
  datatype Sent<+J> = Whole(text: string) | Several(items: seq<Item<J>>) | Single(value: J, isError: bool)

  /** The upstream's answer to a streaming request. */
  datatype Upstream<+J> = Streams(answer: Answer) | Refusal(error: J)

  /** The chunks that come, and whether the upstream then raises: at any chunk, or before the
      first, where starting the engine or the request itself fails. */
  datatype Answer = Answer(chunks: seq<string>, breaksOff: bool)

  datatype Admission<+J> = Skip | Keep(item: Item<J>) | Fail

  const PREFIX := "data: "
  const END := "\n\n"
  const DONE := "[DONE]"

  predicate Has(s: string, p: string)
    requires p != ""
  {
    Cut(s, p).Some?
  }

  function Frame(payload: string): string {
    PREFIX + payload + END
  }

  function StripNewlines(s: string): string {
    if s != "" && s[|s| - 1] == '\n' then StripNewlines(s[..|s| - 1]) else s
  }

  /** `chunk.removeprefix("data: ").rstrip("\n\n")`. */
  function Unframe(chunk: string): string {
    StripNewlines(if PREFIX <= chunk then chunk[|PREFIX|..] else chunk)
  }

  // -- What is sent ------------------------------------------------------------------

  /** What the engine does with one upstream chunk. */
  function Admit<J>(chunk: string, raw: bool, codec: Codec<J>): Admission<J> {
    if !Has(chunk, "data") then Skip
    else if raw then Keep(Raw(chunk))
    else if Has(chunk, DONE) then Skip
    else
      var v := codec.loads(Unframe(chunk));
      if v.None? then Fail else Keep(Value(v.value))
  }

  /** The items of a stream up to the first chunk that does not parse, and whether one does
      not. */
  function Admitted<J>(chunks: seq<string>, raw: bool, codec: Codec<J>): (seq<Item<J>>, bool) {
    if chunks == [] then ([], false)
    else
      match Admit(chunks[0], raw, codec)
      case Skip => Admitted(chunks[1..], raw, codec)
      case Fail => ([], true)
      case Keep(item) =>
        var more := Admitted(chunks[1..], raw, codec);
        ([item] + more.0, more.1)
  }

  function ItemText<J>(item: Item<J>, codec: Codec<J>): string {
    match item
    case Raw(text) => text
    case Value(v) =>
      var t := codec.asText(v);
      if t.Some? then t.value else Frame(codec.dumps(v))
  }

  function ItemsText<J>(items: seq<Item<J>>, codec: Codec<J>): string {
    Each(items, item => ItemText(item, codec))
  }

  function SentText<J>(sent: Sent<J>, codec: Codec<J>): string {
    match sent
    case Whole(text) => text
    case Several(items) => ItemsText(items, codec)
    case Single(v, _) => Frame(codec.dumps(v))
  }

  predicate IsError<J>(sent: Sent<J>) {
    sent.Single? && sent.isError
  }

  /** What the server takes of the engine's yields: an error object is the last. */
  function Served<J>(yielded: seq<Sent<J>>): seq<Sent<J>> {
    if yielded == [] || IsError(yielded[0]) then yielded[..if yielded == [] then 0 else 1]
    else [yielded[0]] + Served(yielded[1..])
  }

  predicate Refused<J>(yielded: seq<Sent<J>>) {
    exists i :: 0 <= i < |yielded| && IsError(yielded[i])
  }

  /** A batch as it is yielded.  In raw mode all items are raw and are joined. */
  function Outgoing<J>(batch: seq<Item<J>>, raw: bool, codec: Codec<J>): Sent<J> {
    if raw then Whole(ItemsText(batch, codec)) else Several(batch)
  }

  function OutgoingAll<J>(batches: seq<seq<Item<J>>>, raw: bool, codec: Codec<J>): seq<Sent<J>> {
    if batches == [] then [] else [Outgoing(batches[0], raw, codec)] + OutgoingAll(batches[1..], raw, codec)
  }

  lemma {:induction false} OutgoingOneMore<J>(batches: seq<seq<Item<J>>>, batch: seq<Item<J>>, raw: bool, codec: Codec<J>)
    ensures OutgoingAll(batches + [batch], raw, codec)
            == OutgoingAll(batches, raw, codec) + [Outgoing(batch, raw, codec)]
  {
    if batches == [] {
      assert batches + [batch] == [batch] && [batch][1..] == [];
    } else {
      OutgoingOneMore(batches[1..], batch, raw, codec);
      assert (batches + [batch])[1..] == batches[1..] + [batch];
    }
  }

  // -- The engine's loop -------------------------------------------------------------

  lemma {:induction false} AdmittedRound<J>(chunks: seq<string>, i: nat, raw: bool, codec: Codec<J>)
    requires i < |chunks| && !Admitted(chunks[..i], raw, codec).1
    ensures var before := Admitted(chunks[..i], raw, codec).0;
            match Admit(chunks[i], raw, codec)
            case Skip => Admitted(chunks[..i + 1], raw, codec) == (before, false)
            case Keep(item) => Admitted(chunks[..i + 1], raw, codec) == (before + [item], false)
            case Fail => Admitted(chunks, raw, codec) == (before, true)
  {
    assert chunks[..i + 1][0] == chunks[0];
    if i > 0 {
      assert chunks[..i][0] == chunks[0];
      assert chunks[..i][1..] == chunks[1..][..i - 1];
      assert chunks[..i + 1][1..] == chunks[1..][..i];
      AdmittedRound(chunks[1..], i - 1, raw, codec);
      var more := Admitted(chunks[1..][..i - 1], raw, codec).0;
      if Admit(chunks[0], raw, codec).Keep? && Admit(chunks[i], raw, codec).Keep? {
        var first, last := Admit(chunks[0], raw, codec).item, Admit(chunks[i], raw, codec).item;
        assert [first] + (more + [last]) == [first] + more + [last];
      }
    } else {
      assert chunks[..1][1..] == [];
      assert chunks[..0] == [];
      if Admit(chunks[0], raw, codec).Keep? {
        var item := Admit(chunks[0], raw, codec).item;
        assert [item] + [] == [] + [item];
      }
    }
  }

  /** What the loop does with an admitted item: put it in the batch, yield a full batch. */
  method AddItem<J>(item: Item<J>, raw: bool, codec: Codec<J>, batchSize: BatchSize, batch: seq<Item<J>>,
                    yielded: seq<Sent<J>>, s: Setting, ghost items: seq<Item<J>>, ghost batches: seq<seq<Item<J>>>)
    returns (batch': seq<Item<J>>, yielded': seq<Sent<J>>, ghost batches': seq<seq<Item<J>>>)
    requires batchSize.Valid() && batchSize.Numbers() == s && batchSize.updates == |batches|
    requires InProgress(items, batches, batch, s) && yielded == OutgoingAll(batches, raw, codec)
    modifies batchSize`currentBatchSize, batchSize`updates
    ensures batchSize.Valid() && batchSize.Numbers() == s && batchSize.updates == |batches'|
    ensures InProgress(items + [item], batches', batch', s) && yielded' == OutgoingAll(batches', raw, codec)
  {
    OneMore(items, batches, batch, item, s);
    OutgoingOneMore(batches, batch + [item], raw, codec);
    batch', yielded', batches' := batch + [item], yielded, batches;
    if |batch'| as real >= batchSize.currentBatchSize {
      yielded' := yielded + [Outgoing(batch', raw, codec)];
      batches' := batches + [batch'];
      batch' := [];
      batchSize.Update();
    }
  }

  lemma {:induction false} BrokenOff<J>(items: seq<Item<J>>, batches: seq<seq<Item<J>>>, pending: seq<Item<J>>, s: Setting)
    requires InProgress(items, batches, pending, s)
    ensures FullBatches(items, s, 0) == batches
  {
    ProgressIsBatches(batches, pending, s, 0);
  }

  /** Behind the loop: what is pending goes out as a last batch. */
  method LastItems<J>(raw: bool, codec: Codec<J>, batch: seq<Item<J>>, yielded: seq<Sent<J>>, s: Setting,
                      ghost items: seq<Item<J>>, ghost batches: seq<seq<Item<J>>>)
    returns (all: seq<Sent<J>>)
    requires InProgress(items, batches, batch, s) && yielded == OutgoingAll(batches, raw, codec)
    ensures all == OutgoingAll(Batches(items, s, 0), raw, codec)
  {
    ProgressIsBatches(batches, batch, s, 0);
    OutgoingOneMore(batches, batch, raw, codec);
    assert batches + [] == batches;
    all := yielded;
    if batch != [] {
      all := yielded + [Outgoing(batch, raw, codec)];
    }
  }

  /** The batching loop over the chunks of a streamed answer.  It fails, and yields nothing
      more, at a chunk that does not parse and where the answer breaks off. */
  method BatchChunks<J>(answer: Answer, raw: bool, codec: Codec<J>, s: Setting)
    returns (yielded: seq<Sent<J>>, failed: bool)
    ensures failed == Fails(answer, raw, codec)
    ensures var items := Admitted(answer.chunks, raw, codec).0;
            yielded == OutgoingAll(if failed then FullBatches(items, s, 0) else Batches(items, s, 0), raw, codec)
  {
    var chunks := answer.chunks;
    yielded, failed := [], false;
    var batch: seq<Item<J>> := [];
    var batchSize := new BatchSize(s.max, s.min, s.growth);
    ghost var items: seq<Item<J>>, batches: seq<seq<Item<J>>> := [], [];
    for i := 0 to |chunks|
      invariant fresh(batchSize) && batchSize.Valid() && batchSize.Numbers() == s
      invariant !failed && Admitted(chunks[..i], raw, codec) == (items, false)
      invariant InProgress(items, batches, batch, s) && batchSize.updates == |batches|
      invariant yielded == OutgoingAll(batches, raw, codec)
    {
      AdmittedRound(chunks, i, raw, codec);
      match Admit(chunks[i], raw, codec) {
        case Skip =>
        case Fail =>
          BrokenOff(items, batches, batch, s);
          failed := true;
          return;
        case Keep(item) =>
          batch, yielded, batches := AddItem(item, raw, codec, batchSize, batch, yielded, s, items, batches);
          items := items + [item];
      }
    }
    assert chunks[..|chunks|] == chunks;
    if answer.breaksOff {
      BrokenOff(items, batches, batch, s);
      failed := true;
      return;
    }
    yielded := LastItems(raw, codec, batch, yielded, s, items, batches);
  }

  // -- The server's loop -------------------------------------------------------------

  lemma {:induction false} ServedRound<J>(yielded: seq<Sent<J>>, i: nat)
    requires i <= |yielded| && forall j :: 0 <= j < i ==> !IsError(yielded[j])
    ensures i < |yielded| && IsError(yielded[i]) ==> Served(yielded) == yielded[..i + 1]
    ensures i == |yielded| ==> Served(yielded) == yielded
  {
    if i > 0 {
      ServedRound(yielded[1..], i - 1);
      assert i < |yielded| ==> yielded[..i + 1] == [yielded[0]] + yielded[1..][..i];
      assert yielded == [yielded[0]] + yielded[1..];
    }
  }

  /** The response body: the batches as they come, then `[DONE]`, or an error event when the
      engine failed; behind an error object, nothing. */
  method Serve<J>(yielded: seq<Sent<J>>, failed: bool, error: string, codec: Codec<J>) returns (wire: string)
    ensures wire == Each(Served(yielded), sent => SentText(sent, codec))
                    + (if Refused(yielded) then "" else Frame(if failed then error else DONE))
  {
    wire := "";
    for i := 0 to |yielded|
      invariant wire == Each(yielded[..i], sent => SentText(sent, codec))
      invariant forall j :: 0 <= j < i ==> !IsError(yielded[j])
    {
      EachRound(yielded, i, sent => SentText(sent, codec));
      ServedRound(yielded, i);
      match yielded[i] {
        case Single(v, isError) =>
          wire := wire + Frame(codec.dumps(v));
          if isError {
            return;
          }
        case Whole(text) => wire := wire + text;
        case Several(items) =>
          var part := "";
          for j := 0 to |items|
            invariant part == Each(items[..j], item => ItemText(item, codec))
          {
            EachRound(items, j, item => ItemText(item, codec));
            part := part + ItemText(items[j], codec);
          }
          assert items[..|items|] == items;
          wire := wire + part;
      }
    }
    assert yielded[..|yielded|] == yielded;
    ServedRound(yielded, |yielded|);
    wire := wire + Frame(if failed then error else DONE);
  }

  predicate Fails<J>(answer: Answer, raw: bool, codec: Codec<J>) {
    answer.breaksOff || Admitted(answer.chunks, raw, codec).1
  }

  /** The bytes sent for a streamed answer. */
  function Wire<J>(answer: Answer, raw: bool, codec: Codec<J>, s: Setting, error: string): string {
    var items := Admitted(answer.chunks, raw, codec).0;
    var batches := if Fails(answer, raw, codec) then FullBatches(items, s, 0) else Batches(items, s, 0);
    Each(OutgoingAll(batches, raw, codec), sent => SentText(sent, codec))
    + Frame(if Fails(answer, raw, codec) then error else DONE)
  }

  /** The same without batching: every item goes out as it comes. */
  function Unbatched<J>(answer: Answer, raw: bool, codec: Codec<J>, error: string): string {
    ItemsText(Admitted(answer.chunks, raw, codec).0, codec) + Frame(if Fails(answer, raw, codec) then error else DONE)
  }

  lemma {:induction false} NothingRefused<J>(batches: seq<seq<Item<J>>>, raw: bool, codec: Codec<J>)
    ensures !Refused(OutgoingAll(batches, raw, codec))
    ensures Served(OutgoingAll(batches, raw, codec)) == OutgoingAll(batches, raw, codec)
  {
    if batches != [] {
      NothingRefused(batches[1..], raw, codec);
      var all := OutgoingAll(batches, raw, codec);
      assert all[1..] == OutgoingAll(batches[1..], raw, codec);
      forall i | 0 <= i < |all| ensures !IsError(all[i]) {
        assert i > 0 ==> all[i] == all[1..][i - 1];
      }
    }
  }

  /** Engine and server together. */
  method Respond<J>(upstream: Upstream<J>, raw: bool, codec: Codec<J>, s: Setting, error: string) returns (wire: string)
    ensures upstream.Streams? ==> wire == Wire(upstream.answer, raw, codec, s, error)
    ensures upstream.Refusal? ==> wire == Frame(codec.dumps(upstream.error))
  {
    match upstream {
      case Refusal(e) =>
        var yielded := [Single(e, true)];
        wire := Serve(yielded, false, error, codec);
        assert IsError(yielded[0]) && yielded[..1] == yielded && yielded[1..] == [];
        assert Served(yielded) == yielded;
      case Streams(answer) =>
        var yielded, failed := BatchChunks(answer, raw, codec, s);
        var (items, _) := Admitted(answer.chunks, raw, codec);
        NothingRefused(if failed then FullBatches(items, s, 0) else Batches(items, s, 0), raw, codec);
        wire := Serve(yielded, failed, error, codec);
    }
  }

  // -- Batching is invisible ---------------------------------------------------------

  lemma {:induction false} SentIsItems<J>(batches: seq<seq<Item<J>>>, raw: bool, codec: Codec<J>)
    ensures Each(OutgoingAll(batches, raw, codec), sent => SentText(sent, codec)) == ItemsText(Flatten(batches), codec)
  {
    if batches != [] {
      var all := OutgoingAll(batches, raw, codec);
      assert all[1..] == OutgoingAll(batches[1..], raw, codec);
      assert SentText(all[0], codec) == ItemsText(batches[0], codec);
      SentIsItems(batches[1..], raw, codec);
      EachConcat(batches[0], Flatten(batches[1..]), item => ItemText(item, codec));
    }
  }

  /** The items behind the full batches: lost where the stream fails. */
  function Unsent<J>(answer: Answer, raw: bool, codec: Codec<J>, s: Setting): seq<Item<J>> {
    var items := Admitted(answer.chunks, raw, codec).0;
    items[Delivered(s, 0, |items|)..]
  }

  /** Whatever the batch sizes and the mode, the client receives what it would without
      batching, exactly when the stream does not fail, or what full batches leave prints
      nothing. */
  lemma {:induction false} BatchingIsInvisible<J>(answer: Answer, raw: bool, codec: Codec<J>, s: Setting, error: string)
    ensures Wire(answer, raw, codec, s, error) == Unbatched(answer, raw, codec, error)
            <==> (Fails(answer, raw, codec) ==> forall item :: item in Unsent(answer, raw, codec, s) ==> ItemText(item, codec) == "")
  {
    if Fails(answer, raw, codec) {
      WireOfFailed(answer, raw, codec, s, error);
      var items := Admitted(answer.chunks, raw, codec).0;
      var n := Delivered(s, 0, |items|);
      assert items == items[..n] + items[n..];
      EachConcat(items[..n], items[n..], item => ItemText(item, codec));
      LossShows(ItemsText(items[..n], codec), items[n..], codec, Frame(error));
    } else {
      WireOfItems(answer, raw, codec, s, error);
    }
  }

  lemma {:induction false} LossShows<J>(front: string, lost: seq<Item<J>>, codec: Codec<J>, last: string)
    ensures front + last == front + ItemsText(lost, codec) + last
            <==> forall item :: item in lost ==> ItemText(item, codec) == ""
  {
    PrintsNothing(lost, codec);
    if ItemsText(lost, codec) == "" {
      assert front + ItemsText(lost, codec) == front;
    } else {
      assert |front + last| < |front + ItemsText(lost, codec) + last|;
    }
  }

  lemma {:induction false} PrintsNothing<J>(items: seq<Item<J>>, codec: Codec<J>)
    ensures ItemsText(items, codec) == "" <==> forall item :: item in items ==> ItemText(item, codec) == ""
  {
    if items != [] {
      PrintsNothing(items[1..], codec);
      assert items == [items[0]] + items[1..];
      assert |ItemsText(items, codec)| == |ItemText(items[0], codec)| + |ItemsText(items[1..], codec)|;
    }
  }

  /** A failing stream sends the items of its full batches, and the error. */
  lemma {:induction false} WireOfFailed<J>(answer: Answer, raw: bool, codec: Codec<J>, s: Setting, error: string)
    requires Fails(answer, raw, codec)
    ensures var items := Admitted(answer.chunks, raw, codec).0;
            Wire(answer, raw, codec, s, error) == ItemsText(items[..Delivered(s, 0, |items|)], codec) + Frame(error)
  {
    var items := Admitted(answer.chunks, raw, codec).0;
    FullBatchesDeliver(items, s, 0);
    SentIsItems(FullBatches(items, s, 0), raw, codec);
  }

  /** Where every item prints something, a failing stream loses nothing exactly when the
      number of items before the failure is the sum of the first few quotas. */
  lemma {:induction false} FailureLosesNothing<J>(answer: Answer, raw: bool, codec: Codec<J>, s: Setting, error: string)
    requires forall item :: item in Admitted(answer.chunks, raw, codec).0 ==> ItemText(item, codec) != ""
    ensures Wire(answer, raw, codec, s, error) == Unbatched(answer, raw, codec, error)
            <==> (Fails(answer, raw, codec) ==> SumOfQuotas(s, 0, |Admitted(answer.chunks, raw, codec).0|))
  {
    var items := Admitted(answer.chunks, raw, codec).0;
    var lost := Unsent(answer, raw, codec, s);
    BatchingIsInvisible(answer, raw, codec, s, error);
    AllDelivered(s, 0, |items|);
    assert lost == [] <==> Delivered(s, 0, |items|) == |items|;
    PrintsSomething(items, lost, codec);
  }

  lemma {:induction false} PrintsSomething<J>(items: seq<Item<J>>, lost: seq<Item<J>>, codec: Codec<J>)
    requires (forall item :: item in items ==> ItemText(item, codec) != "") && forall item :: item in lost ==> item in items
    ensures (forall item :: item in lost ==> ItemText(item, codec) == "") <==> lost == []
  {
    if lost != [] {
      assert lost[0] in lost;
    }
  }

  /** In raw mode every chunk of data is admitted as it is, and prints: only an upstream that
      breaks off makes a stream fail, and then `FailureLosesNothing` says what is lost. */
  lemma {:induction false} RawFailsWithUpstream<J>(answer: Answer, codec: Codec<J>)
    ensures Fails(answer, true, codec) <==> answer.breaksOff
    ensures forall item :: item in Admitted(answer.chunks, true, codec).0 ==> ItemText(item, codec) != ""
  {
    RawAdmits(answer.chunks, codec);
  }

  lemma {:induction false} RawAdmits<J>(chunks: seq<string>, codec: Codec<J>)
    ensures !Admitted(chunks, true, codec).1
    ensures forall item :: item in Admitted(chunks, true, codec).0 ==> ItemText(item, codec) != ""
  {
    if chunks != [] {
      RawAdmits(chunks[1..], codec);
      CutFindsMarker(chunks[0], "data");
    }
  }

  lemma {:induction false} TwoAdmitted<J>(a: string, b: string, codec: Codec<J>)
    requires Has(a, "data") && Has(b, "data")
    ensures Admitted([a, b], true, codec) == ([Raw(a), Raw(b)], false)
  {
    var last := [b];
    assert last[1..] == [] && [a, b][1..] == last;
    var second: seq<Item<J>> := [Raw(b)];
    assert second + [] == second;
    assert Admitted(last, true, codec) == (second, false);
    assert [Raw(a)] + second == [Raw(a), Raw(b)];
  }

  /** With the documented sizes 1, 3, 9, ..., an upstream that breaks off behind two chunks
      costs the client the second. */
  lemma {:induction false} BreakLosesChunk<J>(codec: Codec<J>, error: string)
    ensures var answer := Answer([Frame("a"), Frame("b")], true);
            && Wire(answer, true, codec, Setting(50.0, 1.0, 3.0), error) == Frame("a") + Frame(error)
            && Unbatched(answer, true, codec, error) == Frame("a") + Frame("b") + Frame(error)
  {
    var s := Setting(50.0, 1.0, 3.0);
    var chunks := [Frame("a"), Frame("b")];
    FrameHasData("a");
    FrameHasData("b");
    var items: seq<Item<J>> := [Raw(Frame("a")), Raw(Frame("b"))];
    TwoAdmitted(Frame("a"), Frame("b"), codec);
    assert SizeAfter(s, 0) == 1.0 && SizeAfter(s, 1) == Min(1.0 * 3.0, 50.0);
    assert Fills(1, 1.0) && Fills(Quota(3.0), 3.0);
    assert Delivered(s, 0, 2) == 1;
    WireOfFailed(Answer(chunks, true), true, codec, s, error);
    assert items[..1] == [items[0]];
    EachOne(items[0], (item: Item<J>) => ItemText(item, codec));
    EachOne(items[1], (item: Item<J>) => ItemText(item, codec));
    EachConcat([items[0]], [items[1]], (item: Item<J>) => ItemText(item, codec));
    assert items == [items[0]] + [items[1]];
  }

  // -- Framing -----------------------------------------------------------------------

  /** Unframing undoes framing exactly for payloads that do not end in a newline. */
  lemma {:induction false} UnframeFrame(payload: string)
    ensures Unframe(Frame(payload)) == payload <==> payload == "" || payload[|payload| - 1] != '\n'
  {
    var f := Frame(payload);
    assert f == PREFIX + (payload + END);
    assert f[|PREFIX|..] == payload + END;
    var g, h := payload + END, payload + "\n";
    assert g[|g| - 1] == '\n' && g[..|g| - 1] == h;
    assert h[|h| - 1] == '\n' && h[..|h| - 1] == payload;
    assert StripNewlines(g) == StripNewlines(h) == StripNewlines(payload);
    assert Unframe(f) == StripNewlines(payload);
    if payload != "" && payload[|payload| - 1] == '\n' {
      StripShortens(payload[..|payload| - 1]);
    }
  }

  lemma {:induction false} StripShortens(s: string)
    ensures |StripNewlines(s)| <= |s|
  {
    if s != "" && s[|s| - 1] == '\n' {
      StripShortens(s[..|s| - 1]);
    }
  }

  /** The first line of a text and what follows it.  Lines end in LF, CR or CRLF. */
  function NextLine(s: string): (r: Option<(string, string)>)
    ensures r.Some? ==> |r.value.1| < |s|
  {
    if s == "" then None
    else if s[0] == '\n' then Some(("", s[1..]))
    else if s[0] == '\r' then Some(("", if |s| > 1 && s[1] == '\n' then s[2..] else s[1..]))
    else
      var r := NextLine(s[1..]);
      if r.None? then None else Some(([s[0]] + r.value.0, r.value.1))
  }

  /** What a line adds to the data buffer: the value of a `data` field, less one leading
      space, and a newline. */
  function DataOf(line: string): string {
    var c := Cut(line, ":");
    var field := if c.None? then line else c.value.0;
    var value := if c.None? then "" else if " " <= c.value.1 then c.value.1[1..] else c.value.1;
    if field == "data" then value + "\n" else ""
  }

  /** The events of a stream, as section 9.2.6 of the WHATWG HTML Living Standard interprets
      it: their data, in order.  An event not closed by a blank line is dropped. */
  function Events(s: string, buffer: string): seq<string>
    decreases |s|
  {
    var l := NextLine(s);
    if l.None? then []
    else if l.value.0 != "" then Events(l.value.1, buffer + DataOf(l.value.0))
    else if buffer == "" then Events(l.value.1, "")
    else [buffer[..|buffer| - 1]] + Events(l.value.1, "")
  }

  lemma {:induction false} LineEnds(line: string, rest: string)
    requires '\n' !in line && '\r' !in line
    ensures NextLine(line + "\n" + rest) == Some((line, rest))
  {
    var s := line + "\n" + rest;
    if line == "" {
      assert s == "\n" + rest;
    } else {
      assert s[1..] == line[1..] + "\n" + rest;
      LineEnds(line[1..], rest);
      assert [line[0]] + line[1..] == line;
    }
  }

  lemma {:induction false} FrameIsOneEvent(payload: string, rest: string)
    requires '\n' !in payload && '\r' !in payload
    ensures Events(Frame(payload) + rest, "") == [payload] + Events(rest, "")
  {
    var line := PREFIX + payload;
    LineEnds(line, "\n" + rest);
    LineEnds("", rest);
    assert Frame(payload) + rest == line + "\n" + ("\n" + rest);
    assert "" + "\n" + rest == "\n" + rest;
    CutChar("data", ':', " " + payload);
    assert line == "data" + ":" + (" " + payload);
    assert (" " + payload)[1..] == payload;
    assert "" + DataOf(line) == payload + "\n";
    assert (payload + "\n")[..|payload|] == payload;
  }

  /** Wherever it stands, this text is these events. */
  ghost predicate Says(text: string, data: seq<string>) {
    forall rest: string :: Events(text + rest, "") == data + Events(rest, "")
  }

  lemma {:induction false} SaysBoth(a: string, x: seq<string>, b: string, y: seq<string>)
    requires Says(a, x) && Says(b, y)
    ensures Says(a + b, x + y)
  {
    forall rest: string ensures Events(a + b + rest, "") == x + y + Events(rest, "") {
      Assoc(a, b, rest);
      Assoc(x, y, Events(rest, ""));
    }
  }

  lemma {:induction false} FrameSays(payload: string)
    requires '\n' !in payload && '\r' !in payload
    ensures Says(Frame(payload), [payload])
  {
    forall rest: string ensures Events(Frame(payload) + rest, "") == [payload] + Events(rest, "") {
      FrameIsOneEvent(payload, rest);
    }
  }

  /** Framed payloads without line ends come back as the events' data, in order. */
  lemma {:induction false} FramesSay(payloads: seq<string>)
    requires forall p :: p in payloads ==> '\n' !in p && '\r' !in p
    ensures Says(Each(payloads, Frame), payloads)
  {
    if payloads == [] {
      assert forall rest: string :: "" + rest == rest;
      assert forall rest: string :: [] + Events(rest, "") == Events(rest, "");
    } else {
      assert payloads[0] in payloads;
      FrameSays(payloads[0]);
      FramesSay(payloads[1..]);
      SaysBoth(Frame(payloads[0]), [payloads[0]], Each(payloads[1..], Frame), payloads[1..]);
      assert [payloads[0]] + payloads[1..] == payloads;
    }
  }

  // -- The two output modes ----------------------------------------------------------

  /** A payload that JSON writes back as it was, that is no JSON string, and that is one line. */
  ghost predicate Canonical<J>(payload: string, codec: Codec<J>) {
    && codec.loads(payload).Some?
    && codec.dumps(codec.loads(payload).value) == payload
    && codec.asText(codec.loads(payload).value).None?
    && '\n' !in payload && '\r' !in payload
  }

  function Frames(payloads: seq<string>): (r: seq<string>)
    ensures |r| == |payloads|
  {
    if payloads == [] then [] else [Frame(payloads[0])] + Frames(payloads[1..])
  }

  /** The payloads that do not mention `[DONE]`. */
  function Unmarked(payloads: seq<string>): seq<string> {
    if payloads == [] then []
    else (if Has(payloads[0], DONE) then [] else [payloads[0]]) + Unmarked(payloads[1..])
  }

  lemma {:induction false} DoneInFrame(payload: string)
    ensures Has(Frame(payload), DONE) <==> Has(payload, DONE)
  {
    var f := Frame(payload);
    CutFindsMarker(f, DONE);
    CutFindsMarker(payload, DONE);
    forall i | 0 <= i <= |f| && DONE <= f[i..] ensures Contains(payload, DONE) {
      DoneInside(payload, i);
    }
    if Contains(payload, DONE) {
      assert f == PREFIX + (payload + END);
      ContainsEither(payload, END, DONE);
      ContainsEither(PREFIX, payload + END, DONE);
    }
  }

  lemma {:induction false} DoneInside(payload: string, i: nat)
    requires i <= |Frame(payload)| && DONE <= Frame(payload)[i..]
    ensures Contains(payload, DONE)
  {
    var f := Frame(payload);
    CharsAt(f, i, DONE);
    assert f[i] == '[' && f[i + 5] == ']';
    var k := i - |PREFIX|;
    assert 0 <= k && k + 6 <= |payload|;
    assert payload[k..][..6] == f[i..][..6];
  }

  lemma {:induction false} FrameHasData(payload: string)
    ensures Has(Frame(payload), "data")
  {
    var f := Frame(payload);
    assert f[0..] == f && "data" <= f;
    CutFindsMarker(f, "data");
  }

  lemma {:induction false} RawItems<J>(chunks: seq<string>, codec: Codec<J>)
    requires forall c :: c in chunks ==> Has(c, "data")
    ensures var (items, failed) := Admitted(chunks, true, codec);
            !failed && ItemsText(items, codec) == Each(chunks, chunk => chunk)
  {
    if chunks != [] {
      assert chunks[0] in chunks;
      RawItems(chunks[1..], codec);
      var more := Admitted(chunks[1..], true, codec).0;
      assert ([Raw(chunks[0])] + more)[1..] == more;
    }
  }

  lemma {:induction false} FramesText(payloads: seq<string>)
    ensures Each(Frames(payloads), chunk => chunk) == Each(payloads, Frame)
    ensures forall c :: c in Frames(payloads) ==> Has(c, "data")
  {
    if payloads != [] {
      FrameHasData(payloads[0]);
      FramesText(payloads[1..]);
      assert Frames(payloads)[1..] == Frames(payloads[1..]);
    }
  }

  lemma {:induction false} RawWire<J>(payloads: seq<string>, codec: Codec<J>)
    ensures var (items, failed) := Admitted(Frames(payloads) + [Frame(DONE)], true, codec);
            !failed && ItemsText(items, codec) == Each(payloads, Frame) + Frame(DONE)
  {
    var last := [Frame(DONE)];
    FramesText(payloads);
    FrameHasData(DONE);
    RawItems(Frames(payloads) + last, codec);
    EachConcat(Frames(payloads), last, (chunk: string) => chunk);
    assert last[1..] == [];
    assert Each(last, chunk => chunk) == Frame(DONE);
  }

  lemma {:induction false} ParsedWire<J>(payloads: seq<string>, codec: Codec<J>)
    requires forall p :: p in payloads ==> Canonical(p, codec)
    ensures var (items, failed) := Admitted(Frames(payloads) + [Frame(DONE)], false, codec);
            !failed && ItemsText(items, codec) == Each(Unmarked(payloads), Frame)
  {
    var chunks := Frames(payloads) + [Frame(DONE)];
    if payloads == [] {
      DoneIsSkipped(codec);
      assert chunks == [Frame(DONE)] && chunks[1..] == [];
    } else {
      var p := payloads[0];
      assert p in payloads;
      FrameIsAdmitted(p, codec);
      assert chunks[1..] == Frames(payloads[1..]) + [Frame(DONE)];
      ParsedWire(payloads[1..], codec);
      UnmarkedFirst(payloads);
      if !Has(p, DONE) {
        var more := Admitted(chunks[1..], false, codec).0;
        var v := codec.loads(p).value;
        assert ([Value(v)] + more)[1..] == more;
      }
    }
  }

  lemma {:induction false} DoneIsSkipped<J>(codec: Codec<J>)
    ensures Admit(Frame(DONE), false, codec) == Skip
  {
    DoneInFrame(DONE);
    FrameHasData(DONE);
    assert DONE[0..] == DONE;
    CutFindsMarker(DONE, DONE);
  }

  /** Parsed mode drops a payload that mentions `[DONE]` and sends any other as it was. */
  lemma {:induction false} FrameIsAdmitted<J>(p: string, codec: Codec<J>)
    requires Canonical(p, codec)
    ensures Admit(Frame(p), false, codec) == if Has(p, DONE) then Skip else Keep(Value(codec.loads(p).value))
    ensures ItemText(Value(codec.loads(p).value), codec) == Frame(p)
  {
    DoneInFrame(p);
    FrameHasData(p);
    UnframeFrame(p);
  }

  lemma {:induction false} UnmarkedFirst(payloads: seq<string>)
    requires payloads != []
    ensures Each(Unmarked(payloads), Frame)
            == (if Has(payloads[0], DONE) then "" else Frame(payloads[0])) + Each(Unmarked(payloads[1..]), Frame)
  {
    var more := Unmarked(payloads[1..]);
    assert [] + more == more;
    assert ([payloads[0]] + more)[1..] == more;
  }

  lemma {:induction false} UnmarkedIsShorter(payloads: seq<string>)
    ensures |Each(Unmarked(payloads), Frame)| <= |Each(payloads, Frame)|
    ensures |Each(Unmarked(payloads), Frame)| == |Each(payloads, Frame)| <==>
              forall p :: p in payloads ==> !Has(p, DONE)
    ensures (forall p :: p in payloads ==> !Has(p, DONE)) ==> Unmarked(payloads) == payloads
  {
    if payloads != [] {
      UnmarkedIsShorter(payloads[1..]);
      var p := payloads[0];
      assert payloads == [p] + payloads[1..];
      var more := Unmarked(payloads[1..]);
      if Has(p, DONE) {
        assert Unmarked(payloads) == more;
      } else {
        assert Unmarked(payloads) == [p] + more && ([p] + more)[1..] == more;
      }
    }
  }

  /** Raw mode sends what parsed mode sends and the upstream's own `[DONE]` on top, exactly
      when no payload mentions `[DONE]`: parsed mode drops every chunk that does. */
  lemma {:induction false} ModesDifferByDone<J>(payloads: seq<string>, codec: Codec<J>, s: Setting, t: Setting, error: string)
    requires forall p :: p in payloads ==> Canonical(p, codec)
    ensures var chunks := Frames(payloads) + [Frame(DONE)];
            Wire(Answer(chunks, false), true, codec, s, error) == Wire(Answer(chunks, false), false, codec, t, error) + Frame(DONE)
            <==> forall p :: p in payloads ==> !Has(p, DONE)
  {
    var chunks := Frames(payloads) + [Frame(DONE)];
    RawWire(payloads, codec);
    ParsedWire(payloads, codec);
    WireOfItems(Answer(chunks, false), true, codec, s, error);
    WireOfItems(Answer(chunks, false), false, codec, t, error);
    UnmarkedIsShorter(payloads);
  }

  /** A client of parsed mode decodes the payloads it was meant to see, and one `[DONE]`. */
  lemma {:induction false} ClientDecodes<J>(payloads: seq<string>, codec: Codec<J>, s: Setting, error: string)
    requires forall p :: p in payloads ==> Canonical(p, codec)
    ensures Events(Wire(Answer(Frames(payloads) + [Frame(DONE)], false), false, codec, s, error), "") == Unmarked(payloads) + [DONE]
  {
    var chunks := Frames(payloads) + [Frame(DONE)];
    ParsedWire(payloads, codec);
    WireOfItems(Answer(chunks, false), false, codec, s, error);
    UnmarkedFrom(payloads);
    FramesSay(Unmarked(payloads));
    SaysWithDone(Each(Unmarked(payloads), Frame), Unmarked(payloads));
  }

  lemma {:induction false} SaysWithDone(text: string, data: seq<string>)
    requires Says(text, data)
    ensures Events(text + Frame(DONE), "") == data + [DONE]
  {
    FrameIsOneEvent(DONE, "");
    assert Frame(DONE) + "" == Frame(DONE);
  }

  /** A stream that does not fail goes out whole. */
  lemma {:induction false} WireOfItems<J>(answer: Answer, raw: bool, codec: Codec<J>, s: Setting, error: string)
    requires !Fails(answer, raw, codec)
    ensures Wire(answer, raw, codec, s, error) == ItemsText(Admitted(answer.chunks, raw, codec).0, codec) + Frame(DONE)
  {
    var items := Admitted(answer.chunks, raw, codec).0;
    BatchesPartition(items, s, 0);
    SentIsItems(Batches(items, s, 0), raw, codec);
  }

  lemma {:induction false} UnmarkedFrom(payloads: seq<string>)
    ensures forall p :: p in Unmarked(payloads) ==> p in payloads
  {
    if payloads != [] {
      UnmarkedFrom(payloads[1..]);
    }
  }

  // -- Chunks and last frames, by their texts ------------------------------------------

  /** What becomes of a chunk. */
  lemma {:induction false} ChunkFate<J>(chunk: string, codec: Codec<J>)
    ensures !Contains(chunk, "data") ==> Admit(chunk, true, codec) == Skip && Admit(chunk, false, codec) == Skip
    ensures Contains(chunk, "data") ==> Admit(chunk, true, codec) == Keep(Raw(chunk))
    ensures Contains(chunk, "data") && Contains(chunk, "[DONE]") ==> Admit(chunk, false, codec) == Skip
    ensures Contains(chunk, "data") && !Contains(chunk, "[DONE]") ==>
              Admit(chunk, false, codec)
              == match codec.loads(Unframe(chunk)) case Some(v) => Keep(Value(v)) case None => Fail
  {
    CutFindsMarker(chunk, "data");
    CutFindsMarker(chunk, "[DONE]");
  }

  lemma {:induction false} AdmittedConcat<J>(a: seq<string>, b: seq<string>, raw: bool, codec: Codec<J>)
    requires !Admitted(a, raw, codec).1
    ensures Admitted(a + b, raw, codec) == (Admitted(a, raw, codec).0 + Admitted(b, raw, codec).0, Admitted(b, raw, codec).1)
  {
    if a == [] {
      assert a + b == b;
      assert [] + Admitted(b, raw, codec).0 == Admitted(b, raw, codec).0;
    } else {
      AdmittedConcat(a[1..], b, raw, codec);
      assert (a + b)[1..] == a[1..] + b && (a + b)[0] == a[0];
      if Admit(a[0], raw, codec).Keep? {
        Assoc([Admit(a[0], raw, codec).item], Admitted(a[1..], raw, codec).0, Admitted(b, raw, codec).0);
      }
    }
  }

  /** In parsed mode a chunk that does not parse ends the stream: the client receives what it
      would if the upstream had broken off there, whatever follows. */
  lemma {:induction false} UnparsableEnds<J>(before: seq<string>, chunk: string, behind: seq<string>, breaksOff: bool,
                                             codec: Codec<J>, s: Setting, error: string)
    requires !Admitted(before, false, codec).1
    requires Contains(chunk, "data") && !Contains(chunk, "[DONE]") && codec.loads(Unframe(chunk)) == None
    ensures Wire(Answer(before + ([chunk] + behind), breaksOff), false, codec, s, error)
            == Wire(Answer(before, true), false, codec, s, error)
  {
    ChunkFate(chunk, codec);
    AdmittedConcat(before, [chunk] + behind, false, codec);
    assert ([chunk] + behind)[0] == chunk;
    var items := Admitted(before, false, codec).0;
    assert items + [] == items;
  }

  /** The last frame: `[DONE]` where all went well, the error where not. */
  lemma {:induction false} LastFrame<J>(answer: Answer, raw: bool, codec: Codec<J>, s: Setting, error: string)
    ensures var last := if Fails(answer, raw, codec) then "data: " + error + "\n\n" else "data: [DONE]\n\n";
            var wire := Wire(answer, raw, codec, s, error);
            |wire| >= |last| && wire[|wire| - |last|..] == last
  {
    assert Frame(DONE) == "data: [DONE]\n\n";
  }
}
