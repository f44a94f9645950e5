/** `_generate_vllm`: from cumulative texts to batches of new text. */
module Generation {
  import opened Batching

  /** One choice of a request output: its number and its whole text so far. */
  datatype Output = Output(index: nat, text: string)

  datatype RequestOutput = RequestOutput(promptTokens: nat, outputs: seq<Output>)

  datatype Delta = Delta(index: nat, text: string)

  /** A yielded batch: the new texts of each choice, and `usage`. */
  datatype Batch = Batch(choices: seq<seq<string>>, input: nat, output: nat)

  // -- What a stream of outputs says -------------------------------------------------

  function Flat(results: seq<RequestOutput>): seq<Output> {
    if results == [] then [] else Flat(results[..|results| - 1]) + results[|results| - 1].outputs
  }

  /** The latest text of choice c. */
  function Latest(outputs: seq<Output>, c: nat): string {
    if outputs == [] then ""
    else
      var o := outputs[|outputs| - 1];
      if o.index == c then o.text else Latest(outputs[..|outputs| - 1], c)
  }

  /** Python's `text[n:]`. */
  function From(text: string, n: nat): string {
    if n <= |text| then text[n..] else ""
  }

  /** What each output adds to the text its choice had before. */
  function Deltas(outputs: seq<Output>): (r: seq<Delta>)
    ensures |r| == |outputs|
  {
    if outputs == [] then []
    else
      var before := outputs[..|outputs| - 1];
      var o := outputs[|outputs| - 1];
      Deltas(before) + [Delta(o.index, From(o.text, |Latest(before, o.index)|))]
  }

  /** The texts of the deltas of choice c, in order. */
  function Texts(deltas: seq<Delta>, c: nat): seq<string> {
    if deltas == [] then []
    else
      var d := deltas[|deltas| - 1];
      Texts(deltas[..|deltas| - 1], c) + (if d.index == c then [d.text] else [])
  }

  function Joined(texts: seq<string>): string {
    if texts == [] then "" else Joined(texts[..|texts| - 1]) + texts[|texts| - 1]
  }

  function Choices(n: nat, deltas: seq<Delta>): (r: seq<seq<string>>)
    ensures |r| == n && forall c :: 0 <= c < n ==> r[c] == Texts(deltas, c)
  {
    seq(n, c requires 0 <= c < n => Texts(deltas, c))
  }

  /** The batches a grouping of the deltas is yielded as. */
  function Yields(groups: seq<seq<Delta>>, n: nat, input: nat): (r: seq<Batch>)
    ensures |r| == |groups|
  {
    if groups == [] then []
    else
      var before := groups[..|groups| - 1];
      Yields(before, n, input)
      + [Batch(Choices(n, groups[|groups| - 1]), input, |Flatten(groups)|)]
  }

  function PromptTokens(results: seq<RequestOutput>): nat {
    if results == [] then 0 else results[0].promptTokens
  }

  /** The one batch of a request that does not stream. */
  function WholeTexts(outputs: seq<Output>, n: nat, input: nat): Batch {
    Batch(seq(n, c requires 0 <= c < n => [Latest(outputs, c)]), input, |outputs|)
  }

  lemma TextsAppend(deltas: seq<Delta>, d: Delta, c: nat)
    ensures Texts(deltas + [d], c) == Texts(deltas, c) + (if d.index == c then [d.text] else [])
  {
    assert (deltas + [d])[..|deltas|] == deltas;
  }

  lemma LatestAppend(outputs: seq<Output>, o: Output, c: nat)
    ensures Latest(outputs + [o], c) == if o.index == c then o.text else Latest(outputs, c)
  {
    assert (outputs + [o])[..|outputs|] == outputs;
  }

  lemma DeltasAppend(outputs: seq<Output>, o: Output)
    ensures Deltas(outputs + [o])
            == Deltas(outputs) + [Delta(o.index, From(o.text, |Latest(outputs, o.index)|))]
  {
    assert (outputs + [o])[..|outputs|] == outputs;
  }

  // -- The fields of a batch --------------------------------------------------------

  /** How many outputs there are in all. */
  function TotalOutputs(results: seq<RequestOutput>): nat {
    if results == [] then 0 else |results[0].outputs| + TotalOutputs(results[1..])
  }

  lemma {:induction false} TotalAppend(results: seq<RequestOutput>, r: RequestOutput)
    ensures TotalOutputs(results + [r]) == TotalOutputs(results) + |r.outputs|
  {
    if results == [] {
      assert (results + [r])[1..] == [];
    } else {
      TotalAppend(results[1..], r);
      assert (results + [r])[1..] == results[1..] + [r];
    }
  }

  lemma {:induction false} FlatCounts(results: seq<RequestOutput>)
    ensures |Flat(results)| == TotalOutputs(results)
  {
    if results != [] {
      var before := results[..|results| - 1];
      FlatCounts(before);
      TotalAppend(before, results[|results| - 1]);
      assert before + [results[|results| - 1]] == results;
    }
  }

  /** The j-th output of the i-th result is one of choice c. */
  predicate Numbered(results: seq<RequestOutput>, i: nat, j: nat, c: nat) {
    i < |results| && j < |results[i].outputs| && results[i].outputs[j].index == c
  }

  /** It is the last one of choice c. */
  ghost predicate LastNumbered(results: seq<RequestOutput>, i: nat, j: nat, c: nat) {
    && Numbered(results, i, j, c)
    && forall k: nat, l: nat :: Numbered(results, k, l, c) ==> k < i || (k == i && l <= j)
  }

  /** The text is that of the last output of choice c, or empty if there is none. */
  ghost predicate SaysLast(results: seq<RequestOutput>, c: nat, text: string) {
    || (exists i: nat, j: nat :: LastNumbered(results, i, j, c) && results[i].outputs[j].text == text)
    || ((forall i: nat, j: nat :: !Numbered(results, i, j, c)) && text == "")
  }

  /** The last output of choice c in one result, or none. */
  lemma {:induction false} LatestConcat(a: seq<Output>, b: seq<Output>, c: nat) returns (j: nat)
    ensures j <= |b| && (j < |b| ==> b[j].index == c && Latest(a + b, c) == b[j].text)
    ensures forall l :: (if j < |b| then j + 1 else 0) <= l < |b| ==> b[l].index != c
    ensures j == |b| ==> Latest(a + b, c) == Latest(a, c)
  {
    if b == [] {
      j := 0;
      assert a + b == a;
    } else {
      var n := |b| - 1;
      assert (a + b)[..|a + b| - 1] == a + b[..n];
      if b[n].index == c {
        j := n;
      } else {
        j := LatestConcat(a, b[..n], c);
        j := if j < n then j else n + 1;
      }
    }
  }

  lemma {:induction false} LatestIsLast(results: seq<RequestOutput>, c: nat)
    ensures SaysLast(results, c, Latest(Flat(results), c))
  {
    if results == [] {
      assert forall i: nat, j: nat :: !Numbered(results, i, j, c);
    } else {
      var n := |results| - 1;
      var before := results[..n];
      var j := LatestConcat(Flat(before), results[n].outputs, c);
      if j < |results[n].outputs| {
        assert LastNumbered(results, n, j, c);
      } else {
        LatestIsLast(before, c);
        LastStays(results, c, Latest(Flat(before), c));
      }
    }
  }

  /** A result without an output of choice c changes nothing. */
  lemma {:induction false} LastStays(results: seq<RequestOutput>, c: nat, text: string)
    requires results != [] && SaysLast(results[..|results| - 1], c, text)
    requires forall o :: o in results[|results| - 1].outputs ==> o.index != c
    ensures SaysLast(results, c, text)
  {
    var n := |results| - 1;
    var before := results[..n];
    forall i: nat, j: nat | Numbered(results, i, j, c) ensures Numbered(before, i, j, c) {
      assert results[i].outputs[j] in results[i].outputs;
    }
    if i: nat, j: nat :| LastNumbered(before, i, j, c) && before[i].outputs[j].text == text {
      assert Numbered(results, i, j, c) && LastNumbered(results, i, j, c);
    }
  }

  lemma {:induction false} YieldsSay(groups: seq<seq<Delta>>, n: nat, input: nat)
    ensures forall b :: b in Yields(groups, n, input) ==> |b.choices| == n && b.input == input
  {
    if groups != [] {
      YieldsSay(groups[..|groups| - 1], n, input);
    }
  }

  /** The fields of what is yielded. */
  lemma {:induction false} YieldedFields(results: seq<RequestOutput>, n: nat, stream: bool, s: Setting, yielded: seq<Batch>)
    requires stream ==> yielded == Yields(Batches(Deltas(Flat(results)), s, 0), n, PromptTokens(results))
    requires !stream ==> yielded == [WholeTexts(Flat(results), n, PromptTokens(results))]
    ensures forall b :: b in yielded ==>
              |b.choices| == n && b.input == if results == [] then 0 else results[0].promptTokens
    ensures !stream ==>
              && |yielded| == 1 && yielded[0].output == TotalOutputs(results)
              && forall c :: 0 <= c < n ==> |yielded[0].choices[c]| == 1 && SaysLast(results, c, yielded[0].choices[c][0])
  {
    if stream {
      YieldsSay(Batches(Deltas(Flat(results)), s, 0), n, PromptTokens(results));
    } else {
      FlatCounts(results);
      forall c: nat ensures SaysLast(results, c, Latest(Flat(results), c)) {
        LatestIsLast(results, c);
      }
    }
  }

  // -- The generator ---------------------------------------------------------------

  /** What the loop variables hold when the outputs in `seen` have been handled. */
  ghost predicate Progress(seen: seq<Output>, groups: seq<seq<Delta>>, pending: seq<Delta>,
                           lastTexts: seq<string>, choices: seq<seq<string>>,
                           n: nat, stream: bool, s: Setting) {
    && |lastTexts| == |choices| == n
    && (forall c :: 0 <= c < n ==> lastTexts[c] == Latest(seen, c))
    && (forall c :: 0 <= c < n ==> choices[c] == Texts(pending, c))
    && if stream then InProgress(Deltas(seen), groups, pending, s) else groups == [] && pending == []
  }

  lemma {:induction false} Remember(seen: seq<Output>, o: Output, lastTexts: seq<string>, n: nat)
    requires |lastTexts| == n && o.index < n && forall c :: 0 <= c < n ==> lastTexts[c] == Latest(seen, c)
    ensures forall c :: 0 <= c < n ==> lastTexts[o.index := o.text][c] == Latest(seen + [o], c)
  {
    forall c | 0 <= c < n ensures lastTexts[o.index := o.text][c] == Latest(seen + [o], c) {
      LatestAppend(seen, o, c);
    }
  }

  lemma {:induction false} AddToBatch(pending: seq<Delta>, d: Delta, choices: seq<seq<string>>, n: nat)
    requires |choices| == n && d.index < n && forall c :: 0 <= c < n ==> choices[c] == Texts(pending, c)
    ensures choices[d.index := choices[d.index] + [d.text]] == Choices(n, pending + [d])
  {
    var more := choices[d.index := choices[d.index] + [d.text]];
    forall c | 0 <= c < n ensures more[c] == Choices(n, pending + [d])[c] {
      TextsAppend(pending, d, c);
    }
  }

  lemma {:induction false} YieldOne(groups: seq<seq<Delta>>, full: seq<Delta>, n: nat, input: nat)
    ensures Yields(groups + [full], n, input)
            == Yields(groups, n, input) + [Batch(Choices(n, full), input, |Flatten(groups) + full|)]
  {
    assert (groups + [full])[..|groups|] == groups;
    FlattenAppend(groups, full);
  }

  lemma {:induction false} FlatRound(results: seq<RequestOutput>, i: nat)
    requires i < |results|
    ensures Flat(results[..i + 1]) == Flat(results[..i]) + results[i].outputs
  {
    assert results[..i + 1][..i] == results[..i];
  }

  /** What the loop does with one output of a streamed request: add its new text to the
      batch, and yield the batch when it is full. */
  method StreamOutput(o: Output, input: nat, total: nat, batchSize: BatchSize, lastTexts: seq<string>,
                      choices: seq<seq<string>>, inBatch: nat, yielded: seq<Batch>, s: Setting, n: nat,
                      ghost seen: seq<Output>, ghost groups: seq<seq<Delta>>, ghost pending: seq<Delta>)
    returns (choices': seq<seq<string>>, inBatch': nat, yielded': seq<Batch>,
             ghost groups': seq<seq<Delta>>, ghost pending': seq<Delta>)
    requires batchSize.Valid() && batchSize.Numbers() == s && batchSize.updates == |groups|
    requires o.index < n && Progress(seen, groups, pending, lastTexts, choices, n, true, s)
    requires inBatch == |pending| && total == |seen| + 1 && yielded == Yields(groups, n, input)
    modifies batchSize`currentBatchSize, batchSize`updates
    ensures batchSize.Valid() && batchSize.Numbers() == s && batchSize.updates == |groups'|
    ensures InProgress(Deltas(seen + [o]), groups', pending', s)
    ensures choices' == Choices(n, pending')
    ensures inBatch' == |pending'| && yielded' == Yields(groups', n, input)
  {
    var newOutput := From(o.text, |lastTexts[o.index]|);
    choices' := choices[o.index := choices[o.index] + [newOutput]];
    inBatch' := inBatch + 1;
    yielded' := yielded;
    groups', pending' := groups, pending + [Delta(o.index, newOutput)];
    DeltasAppend(seen, o);
    OneMore(Deltas(seen), groups, pending, Delta(o.index, newOutput), s);
    AddToBatch(pending, Delta(o.index, newOutput), choices, n);
    if inBatch' as real >= batchSize.currentBatchSize {
      YieldOne(groups, pending', n, input);
      assert |Flatten(groups) + pending'| == |seen| + 1;
      yielded' := yielded + [Batch(choices', input, total)];
      groups', pending' := groups + [pending'], [];
      choices' := seq(n, _ => []);
      inBatch' := 0;
      batchSize.Update();
    }
  }

  /** One round of the inner loop. */
  method HandleOutput(o: Output, input: nat, total: nat, batchSize: BatchSize, lastTexts: seq<string>,
                      choices: seq<seq<string>>, inBatch: nat, yielded: seq<Batch>, s: Setting, n: nat, stream: bool,
                      ghost seen: seq<Output>, ghost groups: seq<seq<Delta>>, ghost pending: seq<Delta>)
    returns (lastTexts': seq<string>, choices': seq<seq<string>>, inBatch': nat, yielded': seq<Batch>,
             ghost groups': seq<seq<Delta>>, ghost pending': seq<Delta>)
    requires batchSize.Valid() && batchSize.Numbers() == s && batchSize.updates == |groups|
    requires o.index < n && Progress(seen, groups, pending, lastTexts, choices, n, stream, s)
    requires inBatch == |pending| && total == |seen| + 1 && yielded == Yields(groups, n, input)
    modifies batchSize`currentBatchSize, batchSize`updates
    ensures batchSize.Valid() && batchSize.Numbers() == s && batchSize.updates == |groups'|
    ensures Progress(seen + [o], groups', pending', lastTexts', choices', n, stream, s)
    ensures inBatch' == |pending'| && yielded' == Yields(groups', n, input)
  {
    choices', inBatch', yielded', groups', pending' := choices, inBatch, yielded, groups, pending;
    if stream {
      choices', inBatch', yielded', groups', pending' :=
        StreamOutput(o, input, total, batchSize, lastTexts, choices, inBatch, yielded, s, n, seen, groups, pending);
    }
    Remember(seen, o, lastTexts, n);
    lastTexts' := lastTexts[o.index := o.text];
  }

  /** Behind the loop: what is pending goes out as a last batch, and without streaming the
      whole texts do. */
  method LastBatch(input: nat, total: nat, lastTexts: seq<string>, choices: seq<seq<string>>, inBatch: nat,
                   yielded: seq<Batch>, s: Setting, n: nat, stream: bool,
                   ghost seen: seq<Output>, ghost groups: seq<seq<Delta>>, ghost pending: seq<Delta>)
    returns (all: seq<Batch>)
    requires Progress(seen, groups, pending, lastTexts, choices, n, stream, s)
    requires inBatch == |pending| && total == |seen| && yielded == Yields(groups, n, input)
    ensures stream ==> all == Yields(Batches(Deltas(seen), s, 0), n, input)
    ensures !stream ==> all == [WholeTexts(seen, n, input)]
  {
    var last, count := choices, inBatch;
    if !stream {
      last := seq(n, c requires 0 <= c < n && n == |lastTexts| => [lastTexts[c]]);
      count := count + 1;
      assert last == WholeTexts(seen, n, input).choices;
    } else {
      ProgressIsBatches(groups, pending, s, 0);
      YieldOne(groups, pending, n, input);
      assert groups + [] == groups;
      assert choices == Choices(n, pending);
      assert |Flatten(groups) + pending| == total;
    }
    all := yielded;
    if count > 0 {
      all := all + [Batch(last, input, total)];
    }
  }

  /** The loop over request outputs and their choices.  The growth factor and the sizes are
      those in force after defaulting; n is the number of choices asked for. */
  method Generate(results: seq<RequestOutput>, n: nat, stream: bool, s: Setting) returns (yielded: seq<Batch>)
    requires forall r, o :: r in results && o in r.outputs ==> o.index < n
    ensures stream ==> yielded == Yields(Batches(Deltas(Flat(results)), s, 0), n, PromptTokens(results))
    ensures !stream ==> yielded == [WholeTexts(Flat(results), n, PromptTokens(results))]
    ensures forall b :: b in yielded ==>
              |b.choices| == n && b.input == if results == [] then 0 else results[0].promptTokens
    ensures !stream ==>
              && |yielded| == 1 && yielded[0].output == TotalOutputs(results)
              && forall c :: 0 <= c < n ==> |yielded[0].choices[c]| == 1 && SaysLast(results, c, yielded[0].choices[c][0])
  {
    yielded := [];
    var inputTokens, first := 0, true;
    var lastTexts := seq(n, _ => "");
    var inBatch, total := 0, 0;
    var choices: seq<seq<string>> := seq(n, _ => []);
    var batchSize := new BatchSize(s.max, s.min, s.growth);
    ghost var seen: seq<Output> := [];
    ghost var groups: seq<seq<Delta>> := [];
    ghost var pending: seq<Delta> := [];
    for i := 0 to |results|
      invariant fresh(batchSize) && batchSize.Valid() && batchSize.Numbers() == s
      invariant (first <==> i == 0) && (first ==> groups == [])
      invariant inputTokens == PromptTokens(results[..i])
      invariant seen == Flat(results[..i])
      invariant Progress(seen, groups, pending, lastTexts, choices, n, stream, s)
      invariant inBatch == |pending| && total == |seen| && batchSize.updates == |groups|
      invariant yielded == Yields(groups, n, inputTokens)
    {
      if first {
        inputTokens := results[i].promptTokens;
        first := false;
      }
      var outputs := results[i].outputs;
      assert results[i] in results;
      for j := 0 to |outputs|
        invariant batchSize.Valid() && batchSize.Numbers() == s
        invariant seen == Flat(results[..i]) + outputs[..j]
        invariant Progress(seen, groups, pending, lastTexts, choices, n, stream, s)
        invariant inBatch == |pending| && total == |seen| && batchSize.updates == |groups|
        invariant yielded == Yields(groups, n, inputTokens)
      {
        var o := outputs[j];
        assert o in results[i].outputs;
        total := total + 1;
        lastTexts, choices, inBatch, yielded, groups, pending :=
          HandleOutput(o, inputTokens, total, batchSize, lastTexts, choices, inBatch, yielded, s, n, stream, seen, groups, pending);
        seen := seen + [o];
      }
      FlatRound(results, i);
    }
    assert results[..|results|] == results;
    yielded := LastBatch(inputTokens, total, lastTexts, choices, inBatch, yielded, s, n, stream, seen, groups, pending);
    YieldedFields(results, n, stream, s, yielded);
  }

  // -- Reconstruction --------------------------------------------------------------

  /** Each output's text extends the text its choice had before. */
  ghost predicate Extends(outputs: seq<Output>) {
    forall j :: 0 <= j < |outputs| ==> Latest(outputs[..j], outputs[j].index) <= outputs[j].text
  }

  /** The deltas of choice c put together. */
  function Said(outputs: seq<Output>, c: nat): string {
    Joined(Texts(Deltas(outputs), c))
  }

  lemma {:induction false} SaidAppend(outputs: seq<Output>, o: Output, c: nat)
    ensures Said(outputs + [o], c)
            == Said(outputs, c) + (if o.index == c then From(o.text, |Latest(outputs, c)|) else "")
  {
    var d := Delta(o.index, From(o.text, |Latest(outputs, o.index)|));
    DeltasAppend(outputs, o);
    TextsAppend(Deltas(outputs), d, c);
    var t := Texts(Deltas(outputs), c);
    if o.index == c {
      assert (t + [d.text])[..|t|] == t;
    } else {
      assert t + [] == t;
    }
  }

  /** Putting the deltas of every choice together gives its latest text, at every point of
      the stream, exactly when texts only ever grow. */
  lemma {:induction false} SaidIsLatest(outputs: seq<Output>)
    ensures (forall k, c: nat :: 0 <= k <= |outputs| ==> Said(outputs[..k], c) == Latest(outputs[..k], c))
            <==> Extends(outputs)
  {
    if Extends(outputs) {
      forall k, c: nat | 0 <= k <= |outputs| ensures Said(outputs[..k], c) == Latest(outputs[..k], c) {
        SaidUpTo(outputs, k, c);
      }
    } else if forall k, c: nat :: 0 <= k <= |outputs| ==> Said(outputs[..k], c) == Latest(outputs[..k], c) {
      forall j | 0 <= j < |outputs| ensures Latest(outputs[..j], outputs[j].index) <= outputs[j].text {
        var o := outputs[j];
        assert outputs[..j + 1] == outputs[..j] + [o];
        SaidAppend(outputs[..j], o, o.index);
        LatestAppend(outputs[..j], o, o.index);
        assert Said(outputs[..j + 1], o.index) == Latest(outputs[..j + 1], o.index);
      }
    }
  }

  lemma {:induction false} SaidUpTo(outputs: seq<Output>, k: nat, c: nat)
    requires Extends(outputs) && k <= |outputs|
    ensures Said(outputs[..k], c) == Latest(outputs[..k], c)
  {
    if k > 0 {
      var o := outputs[k - 1];
      assert outputs[..k] == outputs[..k - 1] + [o];
      SaidUpTo(outputs, k - 1, c);
      SaidAppend(outputs[..k - 1], o, c);
      LatestAppend(outputs[..k - 1], o, c);
    } else {
      assert outputs[..0] == [];
    }
  }

  // -- ... as the client sees it -----------------------------------------------------

  /** Everything the yielded batches say for choice c. */
  function Received(yielded: seq<Batch>, c: nat): string
    requires forall b :: b in yielded ==> c < |b.choices|
  {
    if yielded == [] then ""
    else
      assert yielded[|yielded| - 1] in yielded;
      Received(yielded[..|yielded| - 1], c) + Joined(yielded[|yielded| - 1].choices[c])
  }

  lemma {:induction false} JoinedAppend(a: seq<string>, b: seq<string>)
    ensures Joined(a + b) == Joined(a) + Joined(b)
  {
    if b == [] {
      assert a + b == a;
    } else {
      assert (a + b)[..|a + b| - 1] == a + b[..|b| - 1];
      JoinedAppend(a, b[..|b| - 1]);
    }
  }

  lemma {:induction false} TextsConcat(a: seq<Delta>, b: seq<Delta>, c: nat)
    ensures Texts(a + b, c) == Texts(a, c) + Texts(b, c)
  {
    if b == [] {
      assert a + b == a;
    } else {
      assert (a + b)[..|a + b| - 1] == a + b[..|b| - 1];
      TextsConcat(a, b[..|b| - 1], c);
    }
  }

  lemma {:induction false} ReceivedIsFlattened(groups: seq<seq<Delta>>, n: nat, input: nat, c: nat)
    requires c < n
    ensures forall b :: b in Yields(groups, n, input) ==> |b.choices| == n
    ensures Received(Yields(groups, n, input), c) == Joined(Texts(Flatten(groups), c))
    ensures groups != [] ==> Yields(groups, n, input)[|groups| - 1].output == |Flatten(groups)|
  {
    if groups != [] {
      var before, last := groups[..|groups| - 1], groups[|groups| - 1];
      var y := Yields(groups, n, input);
      ReceivedIsFlattened(before, n, input, c);
      assert groups == before + [last];
      FlattenAppend(before, last);
      TextsConcat(Flatten(before), last, c);
      JoinedAppend(Texts(Flatten(before), c), Texts(last, c));
      assert y[..|y| - 1] == Yields(before, n, input);
    }
  }

  lemma {:induction false} YieldsPrefix(groups: seq<seq<Delta>>, n: nat, input: nat, i: nat)
    requires i <= |groups|
    ensures Yields(groups, n, input)[..i] == Yields(groups[..i], n, input)
  {
    if i == |groups| {
      assert groups[..i] == groups;
    } else {
      var before := groups[..|groups| - 1];
      YieldsPrefix(before, n, input, i);
      assert before[..i] == groups[..i];
    }
  }

  lemma {:induction false} FlattenPrefix<T>(groups: seq<seq<T>>, i: nat)
    requires i <= |groups|
    ensures Flatten(groups[..i]) <= Flatten(groups)
  {
    if i > 0 {
      FlattenPrefix(groups[1..], i - 1);
      assert groups[..i][1..] == groups[1..][..i - 1];
      assert groups[..i][0] == groups[0];
    }
  }

  lemma {:induction false} DeltasPrefix(outputs: seq<Output>, k: nat)
    requires k <= |outputs|
    ensures Deltas(outputs)[..k] == Deltas(outputs[..k])
  {
    if k == |outputs| {
      assert outputs[..k] == outputs && Deltas(outputs)[..k] == Deltas(outputs);
    } else {
      var before := outputs[..|outputs| - 1];
      DeltasPrefix(before, k);
      assert before[..k] == outputs[..k];
    }
  }

  /** At every yield, and at the end: what a client has received for each choice is the
      latest text of that choice, and `usage.output` counts the outputs it stands for, given
      that texts only grow. */
  lemma {:induction false} StreamReconstructs(outputs: seq<Output>, s: Setting, n: nat, input: nat, i: nat, c: nat)
    requires Extends(outputs) && c < n && 0 < i <= |Batches(Deltas(outputs), s, 0)|
    ensures var y := Yields(Batches(Deltas(outputs), s, 0), n, input);
            var count := y[i - 1].output;
            && (forall b :: b in y[..i] ==> |b.choices| == n)
            && count <= |outputs| && (i == |y| ==> count == |outputs|)
            && Received(y[..i], c) == Latest(outputs[..count], c)
  {
    var groups := Batches(Deltas(outputs), s, 0);
    YieldsPrefix(groups, n, input, i);
    ReceivedIsFlattened(groups[..i], n, input, c);
    FrontIsDeltas(outputs, s, i);
    SaidUpTo(outputs, |Flatten(groups[..i])|, c);
    assert Yields(groups, n, input)[i - 1] == Yields(groups, n, input)[..i][i - 1];
  }

  /** What an output adds: what goes on behind the text before, and nothing when its text is no
      longer than that. */
  lemma {:induction false} NewText(before: string, text: string, n: nat)
    ensures From(before + text, |before|) == text
    ensures |text| <= n ==> From(text, n) == ""
  {
  }

  /** The first batches hold the deltas of the first outputs. */
  lemma {:induction false} FrontIsDeltas(outputs: seq<Output>, s: Setting, i: nat)
    requires i <= |Batches(Deltas(outputs), s, 0)|
    ensures var groups := Batches(Deltas(outputs), s, 0);
            var said := Flatten(groups[..i]);
            && |said| <= |outputs| && said == Deltas(outputs[..|said|])
            && (i == |groups| ==> |said| == |outputs|)
  {
    var groups := Batches(Deltas(outputs), s, 0);
    BatchesPartition(Deltas(outputs), s, 0);
    FlattenPrefix(groups, i);
    var said := Flatten(groups[..i]);
    assert said == Deltas(outputs)[..|said|];
    assert i == |groups| ==> groups[..i] == groups;
    DeltasPrefix(outputs, |said|);
  }
}
