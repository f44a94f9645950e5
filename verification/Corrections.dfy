/** What `get_engine_args` does to the merged arguments before the engine gets them. */
module Corrections {
  import opened Options
  import opened Dictsort
  import opened EngineArgs

  // -- hf_overrides ---------------------------------------------------------------------------

  const ROPE := "rope_scaling"

  /** The engine rejects the rope scaling of this sub-config. */
  predicate Offends(v: Value, rejects: Value -> bool) {
    v.Dict? && ROPE in v.entries && v.entries[ROPE].Dict? && rejects(v.entries[ROPE])
  }

  function OrNull(entries: map<string, Value>): Value {
    if entries == map[] then Null else Dict(entries)
  }

  function Cleaned(v: Value, rejects: Value -> bool): Value {
    if Offends(v, rejects) then OrNull(v.entries - {ROPE}) else v
  }

  /** The sub-configs that stay, cleaned. */
  function Kept(entries: map<string, Value>, rejects: Value -> bool): map<string, Value> {
    map k | k in entries && Cleaned(entries[k], rejects) != Null :: Cleaned(entries[k], rejects)
  }

  function Sanitized(h: Value, rejects: Value -> bool): Value {
    if !h.Dict? || forall k :: k in h.entries ==> !Offends(h.entries[k], rejects) then h
    else OrNull(Kept(h.entries, rejects))
  }

  method SanitizeHfOverrides(h: Value, rejects: Value -> bool) returns (r: Value)
    ensures r == Sanitized(h, rejects)
  {
    if !h.Dict? {
      return h;
    }
    var cleaned: map<string, Value>, changed, keys := map[], false, h.entries.Keys;
    while keys != {}
      invariant keys <= h.entries.Keys && cleaned.Keys == h.entries.Keys - keys
      invariant forall k :: k in cleaned ==> cleaned[k] == Cleaned(h.entries[k], rejects)
      invariant changed <==> exists k :: k in cleaned && Offends(h.entries[k], rejects)
    {
      var k :| k in keys;
      keys := keys - {k};
      var v := h.entries[k];
      if Offends(v, rejects) {
        cleaned := cleaned[k := OrNull(v.entries - {ROPE})];
        changed := true;
      } else {
        cleaned := cleaned[k := v];
      }
    }
    if !changed {
      return h;
    }
    var kept := map k | k in cleaned && cleaned[k] != Null :: cleaned[k];
    assert kept == Kept(h.entries, rejects);
    return OrNull(kept);
  }

  lemma {:induction false} CleanedDoesNotOffend(v: Value, rejects: Value -> bool)
    ensures !Offends(Cleaned(v, rejects), rejects)
  {
  }

  /** Nothing the engine rejects is left. */
  lemma {:induction false} SanitizedIsAccepted(h: Value, rejects: Value -> bool, k: string)
    ensures var r := Sanitized(h, rejects); r.Dict? && k in r.entries ==> !Offends(r.entries[k], rejects)
  {
    if h.Dict? && k in h.entries {
      CleanedDoesNotOffend(h.entries[k], rejects);
    }
  }

  lemma {:induction false} SanitizedOnce(h: Value, rejects: Value -> bool)
    ensures Sanitized(Sanitized(h, rejects), rejects) == Sanitized(h, rejects)
  {
    var r := Sanitized(h, rejects);
    if r.Dict? {
      forall k | k in r.entries ensures !Offends(r.entries[k], rejects) {
        SanitizedIsAccepted(h, rejects, k);
      }
    }
  }

  /** The value at a key of a sub-config. */
  function Inner(h: Value, k: string, g: string): Option<Value> {
    if h.Dict? && k in h.entries && h.entries[k].Dict? then Lookup(h.entries[k].entries, g) else None
  }

  /** Of the inner values, exactly the rejected rope scalings go. */
  lemma {:induction false} OnlyRejectedGo(h: Value, rejects: Value -> bool, k: string, g: string)
    ensures Inner(Sanitized(h, rejects), k, g) ==
            if g == ROPE && h.Dict? && k in h.entries && Offends(h.entries[k], rejects) then None else Inner(h, k, g)
  {
    var r := Sanitized(h, rejects);
    if h.Dict? && k in h.entries && r != h {
      var v := h.entries[k];
      assert Cleaned(v, rejects) != Null ==> k in Kept(h.entries, rejects);
      if Offends(v, rejects) {
        assert g != ROPE ==> Lookup(v.entries, g) == Lookup(v.entries - {ROPE}, g);
      }
    }
  }

  /** An override of None goes too, but only where something was rejected. */
  lemma {:induction false} NullsGoWithRejected(h: Value, rejects: Value -> bool, k: string)
    requires h.Dict? && k in h.entries && h.entries[k] == Null
    ensures var r := Sanitized(h, rejects);
            (r.Dict? && k in r.entries) <==> (forall j :: j in h.entries ==> !Offends(h.entries[j], rejects))
  {
  }

  // -- The corrections ------------------------------------------------------------------------

  const LIMITS := "limit_mm_per_prompt"
  const OVERRIDES := "hf_overrides"
  const QUANTIZATION := "quantization"
  const TENSOR_PARALLEL := "tensor_parallel_size"
  const LOADING_WORKERS := "max_parallel_loading_workers"
  const CACHE_TYPE := "kv_cache_dtype"
  const CAPTURE_LEN := "max_seq_len_to_capture"
  const MODEL_LEN := "max_model_len"
  const BATCHED_TOKENS := "max_num_batched_tokens"
  const ATTENTION := "attention_backend"
  const LOG_REQUESTS := "enable_log_requests"
  const SPECULATIVE := "speculative_config"
  const LOAD_FORMAT := "load_format"
  const TRUST := "trust_remote_code"

  const EARLY := {LIMITS, OVERRIDES, QUANTIZATION, TENSOR_PARALLEL, LOADING_WORKERS}
  const LATE := {CACHE_TYPE, CAPTURE_LEN, MODEL_LEN, BATCHED_TOKENS, ATTENTION, LOG_REQUESTS, SPECULATIVE}
  const REWRITTEN := EARLY + LATE

  /** What the host answers: the number of GPUs, the engine's verdict on a rope scaling (if
      the engine can be asked), the readings of texts (None where they raise), the length in
      the model's own configuration, and the speculative configuration. */
  datatype Host = Host(
    gpus: nat,
    asks: bool,
    rejects: Value -> bool,
    readLimits: string -> Option<Value>,
    readInt: string -> Option<int>,
    modelLength: (Value, Value, Value) -> Value,
    speculative: Option<Value>)

  predicate IsZero(v: Value) {
    v == Int(0) || v == Real(0.0) || v == Bool(false)
  }

  predicate Truthy(v: Value) {
    match v
    case Null => false
    case Str(s) => s != ""
    case List(items) => items != []
    case Dict(entries) => entries != map[]
    case _ => !IsZero(v)
  }

  ghost predicate OnlyChanges(before: Args, after: Args, fs: set<string>) {
    forall f :: f !in fs ==> Lookup(after, f) == Lookup(before, f)
  }

  function Verdict(h: Host): Value -> bool {
    if h.asks then h.rejects else _ => false
  }

  predicate IsSet(env: map<string, string>, name: string) {
    name in env && env[name] != ""
  }

  predicate ContextReads(w: World, h: Host) {
    IsSet(w.env, "MAX_CONTEXT_LEN_TO_CAPTURE") ==> h.readInt(w.env["MAX_CONTEXT_LEN_TO_CAPTURE"]).Some?
  }

  /** A value that limits something: zero does not. */
  function Bounding(v: Value): Value {
    if IsZero(v) then Null else v
  }

  /** The model length in force: the one asked for, or the model's own. */
  function KnownLength(h: Host, args: Args): Value {
    var asked := Bounding(Get(args, MODEL_LEN));
    if asked != Null then asked
    else h.modelLength(Get(args, MODEL), if TRUST in args then args[TRUST] else Bool(false), Get(args, REVISION))
  }

  // -- What each corrected field ends as, from the arguments before ------------------------

  function LimitsValue(w: World, h: Host, args: Args): Option<Value> {
    if "LIMIT_MM_PER_PROMPT" in w.env then h.readLimits(w.env["LIMIT_MM_PER_PROMPT"]) else Lookup(args, LIMITS)
  }

  function OverridesValue(h: Host, args: Args): Option<Value> {
    var s := Sanitized(Get(args, OVERRIDES), Verdict(h));
    if Truthy(s) then Some(s) else None
  }

  function QuantizationValue(args: Args): Option<Value> {
    if Get(args, LOAD_FORMAT) == Str("bitsandbytes") then Some(Str("bitsandbytes")) else Lookup(args, QUANTIZATION)
  }

  function ParallelValue(h: Host, args: Args): Option<Value> {
    if h.gpus > 1 then Some(Int(h.gpus)) else Lookup(args, TENSOR_PARALLEL)
  }

  function WorkersValue(h: Host, args: Args): Option<Value> {
    if h.gpus > 1 then Some(Null) else Lookup(args, LOADING_WORKERS)
  }

  function CacheValue(args: Args): Option<Value> {
    if Get(args, CACHE_TYPE) == Str("fp8_e5m2") then Some(Str("fp8")) else Lookup(args, CACHE_TYPE)
  }

  function CaptureValue(w: World, h: Host, args: Args): Option<Value> {
    if !IsSet(w.env, "MAX_CONTEXT_LEN_TO_CAPTURE") then Lookup(args, CAPTURE_LEN)
    else
      match h.readInt(w.env["MAX_CONTEXT_LEN_TO_CAPTURE"])
      case Some(n) => Some(Int(n))
      case None => None
  }

  /** A zero stays as None. */
  function BoundedValue(args: Args, f: string): Option<Value> {
    if IsZero(Get(args, f)) then Some(Null) else Lookup(args, f)
  }

  function TokensValue(h: Host, args: Args): Option<Value> {
    if Bounding(Get(args, BATCHED_TOKENS)) == Null && KnownLength(h, args) != Null then Some(KnownLength(h, args))
    else BoundedValue(args, BATCHED_TOKENS)
  }

  function AttentionValue(w: World, args: Args): Option<Value> {
    if IsSet(w.env, "VLLM_ATTENTION_BACKEND") && !Truthy(Get(args, ATTENTION))
    then Some(Str(w.env["VLLM_ATTENTION_BACKEND"])) else Lookup(args, ATTENTION)
  }

  function LogValue(w: World, args: Args): Option<Value> {
    if "DISABLE_LOG_REQUESTS" in w.env && Fold(w.env["DISABLE_LOG_REQUESTS"]) == "true"
    then Some(Bool(false)) else Lookup(args, LOG_REQUESTS)
  }

  function SpeculativeValue(h: Host, args: Args): Option<Value> {
    if h.speculative.Some? && Truthy(h.speculative.value) then h.speculative else Lookup(args, SPECULATIVE)
  }

  /** The field of the arguments the engine gets, for every field. */
  function FinalOf(w: World, h: Host, args: Args, f: string): Option<Value> {
    if f == LIMITS then LimitsValue(w, h, args)
    else if f == OVERRIDES then OverridesValue(h, args)
    else if f == QUANTIZATION then QuantizationValue(args)
    else if f == TENSOR_PARALLEL then ParallelValue(h, args)
    else if f == LOADING_WORKERS then WorkersValue(h, args)
    else if f == CACHE_TYPE then CacheValue(args)
    else if f == CAPTURE_LEN then CaptureValue(w, h, args)
    else if f == MODEL_LEN then BoundedValue(args, MODEL_LEN)
    else if f == BATCHED_TOKENS then TokensValue(h, args)
    else if f == ATTENTION then AttentionValue(w, args)
    else if f == LOG_REQUESTS then LogValue(w, args)
    else if f == SPECULATIVE then SpeculativeValue(h, args)
    else Lookup(args, f)
  }

  // -- The corrections, one after the other -------------------------------------------------

  method SetLimits(w: World, h: Host, d: Dictionary) returns (ok: bool)
    modifies d
    ensures ok <==> LimitsRead(w, h)
    ensures OnlyChanges(old(d.args), d.args, {LIMITS})
    ensures ok ==> Lookup(d.args, LIMITS) == LimitsValue(w, h, old(d.args))
  {
    ok := true;
    if "LIMIT_MM_PER_PROMPT" in w.env {
      var v := h.readLimits(w.env["LIMIT_MM_PER_PROMPT"]);
      if v.None? {
        return false;
      }
      d.args := d.args[LIMITS := v.value];
    }
  }

  method SetOverrides(h: Host, d: Dictionary)
    modifies d
    ensures OnlyChanges(old(d.args), d.args, {OVERRIDES})
    ensures Lookup(d.args, OVERRIDES) == OverridesValue(h, old(d.args))
  {
    if OVERRIDES in d.args {
      var s := d.args[OVERRIDES];
      if h.asks {
        s := SanitizeHfOverrides(s, h.rejects);
      }
      if Truthy(s) {
        d.args := d.args[OVERRIDES := s];
      } else {
        d.args := d.args - {OVERRIDES};
      }
    }
  }

  method SetQuantization(d: Dictionary)
    modifies d
    ensures OnlyChanges(old(d.args), d.args, {QUANTIZATION})
    ensures Lookup(d.args, QUANTIZATION) == QuantizationValue(old(d.args))
  {
    if Get(d.args, LOAD_FORMAT) == Str("bitsandbytes") {
      d.args := d.args[QUANTIZATION := d.args[LOAD_FORMAT]];
    }
  }

  method SetParallelism(h: Host, d: Dictionary)
    modifies d
    ensures OnlyChanges(old(d.args), d.args, {TENSOR_PARALLEL, LOADING_WORKERS})
    ensures Lookup(d.args, TENSOR_PARALLEL) == ParallelValue(h, old(d.args))
    ensures Lookup(d.args, LOADING_WORKERS) == WorkersValue(h, old(d.args))
  {
    if h.gpus > 1 {
      d.args := d.args[TENSOR_PARALLEL := Int(h.gpus)][LOADING_WORKERS := Null];
    }
  }

  method SetDeprecated(w: World, h: Host, d: Dictionary) returns (ok: bool)
    modifies d
    ensures ok <==> ContextReads(w, h)
    ensures OnlyChanges(old(d.args), d.args, {CACHE_TYPE, CAPTURE_LEN})
    ensures Lookup(d.args, CACHE_TYPE) == CacheValue(old(d.args))
    ensures ok ==> Lookup(d.args, CAPTURE_LEN) == CaptureValue(w, h, old(d.args))
  {
    ok := true;
    if Get(d.args, CACHE_TYPE) == Str("fp8_e5m2") {
      d.args := d.args[CACHE_TYPE := Str("fp8")];
    }
    if IsSet(w.env, "MAX_CONTEXT_LEN_TO_CAPTURE") {
      var n := h.readInt(w.env["MAX_CONTEXT_LEN_TO_CAPTURE"]);
      if n.None? {
        return false;
      }
      d.args := d.args[CAPTURE_LEN := Int(n.value)];
    }
  }

  method SetBatchedTokens(h: Host, d: Dictionary)
    modifies d
    ensures OnlyChanges(old(d.args), d.args, {MODEL_LEN, BATCHED_TOKENS})
    ensures Lookup(d.args, MODEL_LEN) == BoundedValue(old(d.args), MODEL_LEN)
    ensures Lookup(d.args, BATCHED_TOKENS) == TokensValue(h, old(d.args))
  {
    if IsZero(Get(d.args, MODEL_LEN)) {
      d.args := d.args[MODEL_LEN := Null];
    }
    if IsZero(Get(d.args, BATCHED_TOKENS)) {
      d.args := d.args[BATCHED_TOKENS := Null];
    }
    if Get(d.args, BATCHED_TOKENS) == Null {
      var length := Get(d.args, MODEL_LEN);
      if length == Null {
        length :=
          h.modelLength(Get(d.args, MODEL), if TRUST in d.args then d.args[TRUST] else Bool(false), Get(d.args, REVISION));
      }
      if length != Null {
        d.args := d.args[BATCHED_TOKENS := length];
      }
    }
  }

  method SetRest(w: World, h: Host, d: Dictionary)
    requires h.speculative.Some?
    modifies d
    ensures OnlyChanges(old(d.args), d.args, {ATTENTION, LOG_REQUESTS, SPECULATIVE})
    ensures Lookup(d.args, ATTENTION) == AttentionValue(w, old(d.args))
    ensures Lookup(d.args, LOG_REQUESTS) == LogValue(w, old(d.args))
    ensures Lookup(d.args, SPECULATIVE) == SpeculativeValue(h, old(d.args))
  {
    if IsSet(w.env, "VLLM_ATTENTION_BACKEND") {
      if !Truthy(Get(d.args, ATTENTION)) {
        d.args := d.args[ATTENTION := Str(w.env["VLLM_ATTENTION_BACKEND"])];
      }
    }
    if IsSet(w.env, "DISABLE_LOG_REQUESTS") {
      if Fold(w.env["DISABLE_LOG_REQUESTS"]) == "true" {
        d.args := d.args[LOG_REQUESTS := Bool(false)];
      }
    }
    if Truthy(h.speculative.value) {
      d.args := d.args[SPECULATIVE := h.speculative.value];
    }
  }

  // -- All together ----------------------------------------------------------------------------

  predicate LimitsRead(w: World, h: Host) {
    "LIMIT_MM_PER_PROMPT" in w.env ==> h.readLimits(w.env["LIMIT_MM_PER_PROMPT"]).Some?
  }

  predicate Reads(w: World, h: Host) {
    LimitsRead(w, h) && ContextReads(w, h) && h.speculative.Some?
  }

  /** What is in the fields `of` is what FinalOf says, and nothing else has changed. */
  ghost predicate Done(before: Args, after: Args, w: World, h: Host, of: set<string>) {
    && OnlyChanges(before, after, of)
    && forall f :: f in of ==> Lookup(after, f) == FinalOf(w, h, before, f)
  }

  /** The fields FinalOf looks at for a field of a later correction. */
  const READS := {LOAD_FORMAT, MODEL, TRUST, REVISION}

  lemma FieldsApart()
    ensures {LIMITS} !! {OVERRIDES} && {LIMITS, OVERRIDES} !! {QUANTIZATION}
    ensures {LIMITS, OVERRIDES, QUANTIZATION} !! {TENSOR_PARALLEL, LOADING_WORKERS}
    ensures EARLY !! {CACHE_TYPE, CAPTURE_LEN} && EARLY + {CACHE_TYPE, CAPTURE_LEN} !! {MODEL_LEN, BATCHED_TOKENS}
    ensures EARLY + {CACHE_TYPE, CAPTURE_LEN} + {MODEL_LEN, BATCHED_TOKENS} !! {ATTENTION, LOG_REQUESTS, SPECULATIVE}
    ensures READS !! REWRITTEN
  {
  }

  /** A value depends on its own field and on fields no correction touches, so corrections of
      other fields in front of it make no difference. */
  lemma {:induction false} FinalDependsOn(w: World, h: Host, before: Args, after: Args, f: string)
    requires forall g :: g in READS ==> Lookup(after, g) == Lookup(before, g)
    requires Lookup(after, f) == Lookup(before, f)
    requires f == BATCHED_TOKENS ==> Lookup(after, MODEL_LEN) == Lookup(before, MODEL_LEN)
    ensures FinalOf(w, h, after, f) == FinalOf(w, h, before, f)
  {
    assert Lookup(after, LOAD_FORMAT) == Lookup(before, LOAD_FORMAT);
    if f == BATCHED_TOKENS {
      LengthDependsOn(h, before, after);
    }
  }

  /** The model length in force depends on these fields only. */
  lemma {:induction false} LengthDependsOn(h: Host, before: Args, after: Args)
    requires forall g :: g in READS ==> Lookup(after, g) == Lookup(before, g)
    requires Lookup(after, MODEL_LEN) == Lookup(before, MODEL_LEN)
    ensures KnownLength(h, after) == KnownLength(h, before)
  {
    assert Lookup(after, MODEL) == Lookup(before, MODEL);
    assert Lookup(after, TRUST) == Lookup(before, TRUST);
    assert Lookup(after, REVISION) == Lookup(before, REVISION);
  }

  lemma {:induction false} DoneThenDone(before: Args, mid: Args, after: Args, w: World, h: Host, a: set<string>, b: set<string>)
    requires Done(before, mid, w, h, a) && Done(mid, after, w, h, b)
    requires a !! b && READS !! a && (BATCHED_TOKENS in b ==> MODEL_LEN !in a)
    ensures Done(before, after, w, h, a + b)
  {
    forall f | f in a + b ensures Lookup(after, f) == FinalOf(w, h, before, f) {
      if f in b {
        FinalDependsOn(w, h, before, mid, f);
      }
    }
  }

  // -- Each correction is done, as FinalOf says -----------------------------------------------

  lemma {:induction false} EarlyFields(w: World, h: Host, a: Args)
    ensures FinalOf(w, h, a, LIMITS) == LimitsValue(w, h, a)
    ensures FinalOf(w, h, a, OVERRIDES) == OverridesValue(h, a)
    ensures FinalOf(w, h, a, QUANTIZATION) == QuantizationValue(a)
    ensures FinalOf(w, h, a, TENSOR_PARALLEL) == ParallelValue(h, a)
    ensures FinalOf(w, h, a, LOADING_WORKERS) == WorkersValue(h, a)
  {
  }

  lemma {:induction false} LateFields(w: World, h: Host, a: Args)
    ensures FinalOf(w, h, a, CACHE_TYPE) == CacheValue(a)
    ensures FinalOf(w, h, a, CAPTURE_LEN) == CaptureValue(w, h, a)
    ensures FinalOf(w, h, a, MODEL_LEN) == BoundedValue(a, MODEL_LEN)
    ensures FinalOf(w, h, a, BATCHED_TOKENS) == TokensValue(h, a)
  {
  }

  lemma {:induction false} LastFields(w: World, h: Host, a: Args)
    ensures FinalOf(w, h, a, ATTENTION) == AttentionValue(w, a)
    ensures FinalOf(w, h, a, LOG_REQUESTS) == LogValue(w, a)
    ensures FinalOf(w, h, a, SPECULATIVE) == SpeculativeValue(h, a)
  {
  }

  lemma {:induction false} OtherFields(w: World, h: Host, a: Args, f: string)
    requires f !in REWRITTEN
    ensures FinalOf(w, h, a, f) == Lookup(a, f)
  {
  }

  // Each of these does one or two corrections and says so in one clause.

  method LimitsThenOverrides(w: World, h: Host, d: Dictionary) returns (ok: bool)
    modifies d
    ensures ok <==> LimitsRead(w, h)
    ensures ok ==> Done(old(d.args), d.args, w, h, {LIMITS} + {OVERRIDES})
  {
    ok := SetLimits(w, h, d);
    if ok {
      ghost var mid := d.args;
      SetOverrides(h, d);
      EarlyFields(w, h, old(d.args));
      EarlyFields(w, h, mid);
      FieldsApart();
      DoneThenDone(old(d.args), mid, d.args, w, h, {LIMITS}, {OVERRIDES});
    }
  }

  method QuantizationThenParallelism(w: World, h: Host, d: Dictionary)
    modifies d
    ensures Done(old(d.args), d.args, w, h, {QUANTIZATION} + {TENSOR_PARALLEL, LOADING_WORKERS})
  {
    SetQuantization(d);
    ghost var mid := d.args;
    SetParallelism(h, d);
    EarlyFields(w, h, old(d.args));
    EarlyFields(w, h, mid);
    FieldsApart();
    DoneThenDone(old(d.args), mid, d.args, w, h, {QUANTIZATION}, {TENSOR_PARALLEL, LOADING_WORKERS});
  }

  method DeprecatedThenTokens(w: World, h: Host, d: Dictionary) returns (ok: bool)
    modifies d
    ensures ok <==> ContextReads(w, h)
    ensures ok ==> Done(old(d.args), d.args, w, h, {CACHE_TYPE, CAPTURE_LEN} + {MODEL_LEN, BATCHED_TOKENS})
  {
    ok := SetDeprecated(w, h, d);
    if ok {
      ghost var mid := d.args;
      SetBatchedTokens(h, d);
      LateFields(w, h, old(d.args));
      LateFields(w, h, mid);
      FieldsApart();
      DoneThenDone(old(d.args), mid, d.args, w, h, {CACHE_TYPE, CAPTURE_LEN}, {MODEL_LEN, BATCHED_TOKENS});
    }
  }

  method Rest(w: World, h: Host, d: Dictionary)
    requires h.speculative.Some?
    modifies d
    ensures Done(old(d.args), d.args, w, h, {ATTENTION, LOG_REQUESTS, SPECULATIVE})
  {
    SetRest(w, h, d);
    LastFields(w, h, old(d.args));
  }

  lemma {:induction false} AllDone(w: World, h: Host, a0: Args, a1: Args, a2: Args, a3: Args, a4: Args)
    requires Done(a0, a1, w, h, {LIMITS} + {OVERRIDES})
    requires Done(a1, a2, w, h, {QUANTIZATION} + {TENSOR_PARALLEL, LOADING_WORKERS})
    requires Done(a2, a3, w, h, {CACHE_TYPE, CAPTURE_LEN} + {MODEL_LEN, BATCHED_TOKENS})
    requires Done(a3, a4, w, h, {ATTENTION, LOG_REQUESTS, SPECULATIVE})
    ensures Done(a0, a4, w, h, REWRITTEN)
  {
    FieldsApart();
    var x, y := {LIMITS} + {OVERRIDES}, {QUANTIZATION} + {TENSOR_PARALLEL, LOADING_WORKERS};
    var z, u := {CACHE_TYPE, CAPTURE_LEN} + {MODEL_LEN, BATCHED_TOKENS}, {ATTENTION, LOG_REQUESTS, SPECULATIVE};
    DoneThenDone(a0, a1, a2, w, h, x, y);
    DoneThenDone(a0, a2, a3, w, h, x + y, z);
    DoneThenDone(a0, a3, a4, w, h, x + y + z, u);
    assert x + y + z + u == REWRITTEN;
  }

  /** The merged arguments, as the lookup per field gives them. */
  function MergedArgs(w: World): Args {
    map f | f in w.fields && Effective(w, f).Some? :: Effective(w, f).value
  }

  lemma {:induction false} MergedIsLookup(w: World, args: Args)
    requires forall f :: Lookup(args, f) == Effective(w, f)
    ensures args == MergedArgs(w)
  {
    forall f ensures f in args <==> f in MergedArgs(w) {
      assert Lookup(args, f) == Effective(w, f);
    }
    forall f | f in args ensures args[f] == MergedArgs(w)[f] {
      assert Lookup(args, f) == Effective(w, f);
    }
  }

  function Final(w: World, h: Host, f: string): Option<Value> {
    FinalOf(w, h, MergedArgs(w), f)
  }

  /** The arguments the engine gets, field by field, for every field; None where a text does
      not read. */
  method GetEngineArgs(w: World, h: Host) returns (r: Option<Args>)
    ensures r.Some? <==> Reads(w, h)
    ensures r.Some? ==> forall f :: Lookup(r.value, f) == Final(w, h, f)
  {
    var d := Merge(w);
    ghost var a0 := d.args;
    MergedIsLookup(w, a0);
    var ok := LimitsThenOverrides(w, h, d);
    if !ok {
      return None;
    }
    ghost var a1 := d.args;
    QuantizationThenParallelism(w, h, d);
    ghost var a2 := d.args;
    ok := DeprecatedThenTokens(w, h, d);
    if !ok || h.speculative.None? {
      return None;
    }
    ghost var a3 := d.args;
    Rest(w, h, d);
    AllDone(w, h, a0, a1, a2, a3, d.args);
    forall f ensures Lookup(d.args, f) == Final(w, h, f) {
      if f !in REWRITTEN {
        OtherFields(w, h, a0, f);
      }
    }
    return Some(d.args);
  }

  // -- What the engine gets ---------------------------------------------------------------------

  /** A field no correction rewrites is what the layers give it. */
  lemma {:induction false} UnrewrittenIsMerged(w: World, h: Host, f: string)
    requires f !in REWRITTEN
    ensures Final(w, h, f) == Effective(w, f)
  {
    OtherFields(w, h, MergedArgs(w), f);
    EffectiveIsMeaningful(w, f);
  }

  /** The number of batched tokens is the one asked for or, when that is unset or zero, the
      model length in force, when there is one. */
  lemma {:induction false} TokensFollowLength(w: World, h: Host)
    ensures var asked := Bounding(Get(MergedArgs(w), BATCHED_TOKENS));
            var length := KnownLength(h, MergedArgs(w));
            && (asked != Null ==> Final(w, h, BATCHED_TOKENS) == Some(asked))
            && (asked == Null && length != Null ==> Final(w, h, BATCHED_TOKENS) == Some(length))
            && (asked == Null && length == Null ==> Final(w, h, BATCHED_TOKENS) in {None, Some(Null)})
  {
    LateFields(w, h, MergedArgs(w));
  }

  /** The engine gets no overrides that are empty, and none it rejects. */
  lemma {:induction false} OverridesAreAccepted(w: World, h: Host, k: string)
    requires h.asks && Final(w, h, OVERRIDES).Some?
    ensures var r := Final(w, h, OVERRIDES).value;
            Truthy(r) && (r.Dict? && k in r.entries ==> !Offends(r.entries[k], h.rejects))
  {
    EarlyFields(w, h, MergedArgs(w));
    SanitizedIsAccepted(Get(MergedArgs(w), OVERRIDES), h.rejects, k);
  }

  lemma {:induction false} NoDeprecatedCache(w: World, h: Host)
    ensures Final(w, h, CACHE_TYPE) != Some(Str("fp8_e5m2"))
  {
    LateFields(w, h, MergedArgs(w));
  }
}
