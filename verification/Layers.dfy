/** Which layer of the engine's configuration wins, said without the merge. */
module Layers {
  import opened Options
  import opened Text
  import opened Dictsort
  import opened EngineArgs
  import opened Corrections

  // -- Names ----------------------------------------------------------------------------

  predicate AliasFor(alias: string, f: string) {
    || (alias == "MODEL_NAME" && f == "model")
    || (alias == "MODEL_REVISION" && f == "revision")
    || (alias == "TOKENIZER_NAME" && f == "tokenizer")
  }

  /** The environment variable of a field: its name in capitals. */
  predicate VariableOf(name: string, f: string) {
    && |name| == |f|
    && forall i :: 0 <= i < |f| ==> name[i] == if 'a' <= f[i] <= 'z' then f[i] - 'a' + 'A' else f[i]
  }

  lemma {:induction false} VariableIsUpper(name: string, f: string)
    ensures VariableOf(name, f) <==> name == Upper(f)
  {
  }

  lemma {:induction false} AliasIsAlias(alias: string, f: string)
    ensures AliasFor(alias, f) <==> AliasOf(f) == Some(alias)
  {
  }

  /** The field a key of the local file reaches: an alias its own, any other key the field
      with its name in small letters, dashes as underscores. */
  lemma {:induction false} KeyReaches(k: string)
    ensures Target("MODEL_NAME") == "model" && Target("MODEL_REVISION") == "revision" && Target("TOKENIZER_NAME") == "tokenizer"
    ensures k !in {"MODEL_NAME", "MODEL_REVISION", "TOKENIZER_NAME"} ==>
              && |Target(k)| == |k|
              && forall i :: 0 <= i < |k| ==>
                   Target(k)[i] == if k[i] == '-' then '_' else if 'A' <= k[i] <= 'Z' then k[i] - 'A' + 'a' else k[i]
  {
  }

  // -- Layers -----------------------------------------------------------------------------

  /** No entry of the local file sets the field. */
  predicate NoLocal(w: World, f: string) {
    forall i :: 0 <= i < |w.local| ==> !(Target(w.local[i].0) == f && Meaningful(w.local[i].1))
  }

  /** No alias of the field is set. */
  predicate NoAlias(w: World, f: string) {
    forall alias :: alias in w.env ==> !AliasFor(alias, f)
  }

  /** The text names a value of the field: it is not blank and reads as that value, which is
      not one of those that stand for no value. */
  predicate Names(w: World, f: string, text: string, v: Value) {
    && Trim(text) != "" && Trim(text) != "None" && Trim(text) != "none" && w.parse(f, Trim(text)) == Some(v)
    && v != Null && v != Str("") && v != Str("None")
  }

  /** The text is no value of the field: it is blank where the field must have one, or does
      not read. */
  predicate Unreadable(w: World, f: string, text: string) {
    if Trim(text) == "" || Trim(text) == "None" || Trim(text) == "none" then f !in w.optional
    else w.parse(f, Trim(text)) == None
  }

  lemma {:induction false} NothingLocal(w: World, f: string)
    requires NoLocal(w, f)
    ensures FromLocal(w, f) == None
  {
    if LastFor(w.local, f).Some? {
      LastForFrom(w.local, f);
    }
  }

  /** With no local entry and no alias, a variable that names a value beats every default. */
  lemma {:induction false} EnvironmentBeatsDefault(w: World, f: string, name: string, v: Value, d: Args)
    requires f in w.fields && NoLocal(w, f) && NoAlias(w, f)
    requires VariableOf(name, f) && name in w.env && Names(w, f, w.env[name], v)
    ensures Effective(w.(defaults := d), f) == Some(v)
  {
    NothingLocal(w, f);
    assert NoLocal(w.(defaults := d), f);
    NothingLocal(w.(defaults := d), f);
    VariableIsUpper(name, f);
    if AliasOf(f).Some? {
      AliasIsAlias(AliasOf(f).value, f);
    }
  }

  /** What the engine gets then, for a field no correction rewrites. */
  lemma {:induction false} EngineGetsEnvironment(w: World, h: Host, f: string, name: string, v: Value, d: Args)
    requires f in w.fields && NoLocal(w, f) && NoAlias(w, f) && f !in REWRITTEN
    requires VariableOf(name, f) && name in w.env && Names(w, f, w.env[name], v)
    ensures Final(w.(defaults := d), h, f) == Some(v)
  {
    EnvironmentBeatsDefault(w, f, name, v, d);
    UnrewrittenIsMerged(w.(defaults := d), h, f);
  }

  /** The default of a field, where it stands for a value. */
  function DefaultShown(d: Args, f: string): Option<Value> {
    if f in d && d[f] != Null && d[f] != Str("") && d[f] != Str("None") then Some(d[f]) else None
  }

  /** With no local entry and no alias, the default shows, whatever it is, exactly when the
      variable is not set or is no value of the field. */
  lemma {:induction false} DefaultShowsExactly(w: World, f: string, name: string)
    requires f in w.fields && NoLocal(w, f) && NoAlias(w, f) && VariableOf(name, f)
    ensures (forall d: Args :: Effective(w.(defaults := d), f) == DefaultShown(d, f))
            <==> name !in w.env || Unreadable(w, f, w.env[name])
  {
    VariableIsUpper(name, f);
    if AliasOf(f).Some? {
      AliasIsAlias(AliasOf(f).value, f);
    }
    forall d: Args
      ensures Effective(w.(defaults := d), f) == if FromEnv(w, f) == None then DefaultShown(d, f) else Effective(w, f)
    {
      OneLayer(w, f, d);
    }
    if FromEnv(w, f) != None {
      var one, two := map[f := Int(1)], map[f := Int(2)];
      assert DefaultShown(one, f) != DefaultShown(two, f);
      assert Effective(w.(defaults := one), f) == Effective(w.(defaults := two), f);
    }
  }

  lemma {:induction false} OneLayer(w: World, f: string, d: Args)
    requires f in w.fields && NoLocal(w, f) && FromAlias(w, f) == None
    ensures Effective(w.(defaults := d), f) == if FromEnv(w, f) == None then DefaultShown(d, f) else Effective(w, f)
  {
    NothingLocal(w, f);
    assert NoLocal(w.(defaults := d), f);
    NothingLocal(w.(defaults := d), f);
  }

  /** With no local entry, an alias that names a value beats every environment setting of the
      field and every default. */
  lemma {:induction false} AliasBeatsEnvironment(w: World, f: string, alias: string, v: Value, d: Args, t: string)
    requires f in w.fields && NoLocal(w, f) && AliasFor(alias, f) && alias in w.env && Names(w, f, w.env[alias], v)
    ensures Effective(w.(defaults := d, env := w.env[Upper(f) := t]), f) == Some(v)
  {
    var u := w.(defaults := d, env := w.env[Upper(f) := t]);
    assert NoLocal(u, f);
    NothingLocal(u, f);
    AliasIsAlias(alias, f);
    assert |Upper(f)| == |f| && |alias| != |f|;
    assert u.env[alias] == w.env[alias];
  }

  /** A variable set to a blank text erases the default of an optional field, and is as if it
      were not set on any other. */
  lemma {:induction false} BlankVariable(w: World, f: string, name: string)
    requires f in w.fields && NoLocal(w, f) && NoAlias(w, f) && VariableOf(name, f) && name in w.env
    requires Trim(w.env[name]) == "" || Trim(w.env[name]) == "None" || Trim(w.env[name]) == "none"
    ensures Effective(w, f) == if f in w.optional then None else DefaultShown(w.defaults, f)
  {
    NothingLocal(w, f);
    VariableIsUpper(name, f);
    if AliasOf(f).Some? {
      AliasIsAlias(AliasOf(f).value, f);
    }
  }

  // -- Corrections, by the names of the fields -------------------------------------------------

  /** The parallelism is that of the host when it has several GPUs. */
  lemma {:induction false} SeveralGpus(w: World, h: Host)
    ensures h.gpus > 1 ==> Final(w, h, "tensor_parallel_size") == Some(Int(h.gpus))
                           && Final(w, h, "max_parallel_loading_workers") == Some(Null)
    ensures h.gpus <= 1 ==> Final(w, h, "tensor_parallel_size") == Effective(w, "tensor_parallel_size")
                            && Final(w, h, "max_parallel_loading_workers") == Effective(w, "max_parallel_loading_workers")
  {
    var a := MergedArgs(w);
    EarlyFields(w, h, a);
    EffectiveIsMeaningful(w, TENSOR_PARALLEL);
    EffectiveIsMeaningful(w, LOADING_WORKERS);
    assert TENSOR_PARALLEL == "tensor_parallel_size" && LOADING_WORKERS == "max_parallel_loading_workers";
  }

  lemma {:induction false} MergedLooksUp(w: World, f: string)
    ensures Lookup(MergedArgs(w), f) == Effective(w, f)
  {
    EffectiveIsMeaningful(w, f);
  }

  /** The load format decides the quantization, and the deprecated cache type is replaced. */
  lemma {:induction false} FormatsReplaced(w: World, h: Host)
    ensures Effective(w, "load_format") == Some(Str("bitsandbytes")) ==> Final(w, h, "quantization") == Some(Str("bitsandbytes"))
    ensures Effective(w, "load_format") != Some(Str("bitsandbytes")) ==> Final(w, h, "quantization") == Effective(w, "quantization")
    ensures Final(w, h, "kv_cache_dtype")
            == if Effective(w, "kv_cache_dtype") == Some(Str("fp8_e5m2")) then Some(Str("fp8")) else Effective(w, "kv_cache_dtype")
  {
    EarlyFields(w, h, MergedArgs(w));
    LateFields(w, h, MergedArgs(w));
    MergedLooksUp(w, LOAD_FORMAT);
    MergedLooksUp(w, QUANTIZATION);
    MergedLooksUp(w, CACHE_TYPE);
    assert LOAD_FORMAT == "load_format" && QUANTIZATION == "quantization" && CACHE_TYPE == "kv_cache_dtype";
  }

  /** The capture length and the multimodal limits, where their variables are set. */
  lemma {:induction false} CaptureAndLimits(w: World, h: Host)
    requires Reads(w, h)
    ensures "LIMIT_MM_PER_PROMPT" in w.env ==> Final(w, h, "limit_mm_per_prompt") == h.readLimits(w.env["LIMIT_MM_PER_PROMPT"])
    ensures "MAX_CONTEXT_LEN_TO_CAPTURE" in w.env && w.env["MAX_CONTEXT_LEN_TO_CAPTURE"] != "" ==>
              h.readInt(w.env["MAX_CONTEXT_LEN_TO_CAPTURE"]).Some?
              && Final(w, h, "max_seq_len_to_capture") == Some(Int(h.readInt(w.env["MAX_CONTEXT_LEN_TO_CAPTURE"]).value))
  {
    EarlyFields(w, h, MergedArgs(w));
    LateFields(w, h, MergedArgs(w));
    assert LIMITS == "limit_mm_per_prompt" && CAPTURE_LEN == "max_seq_len_to_capture";
  }

  /** The deprecated variables: the attention backend only where none is set, request logs
      only off. */
  lemma {:induction false} DeprecatedVariables(w: World, h: Host)
    ensures "VLLM_ATTENTION_BACKEND" in w.env && w.env["VLLM_ATTENTION_BACKEND"] != "" && Effective(w, "attention_backend") == None ==>
              Final(w, h, "attention_backend") == Some(Str(w.env["VLLM_ATTENTION_BACKEND"]))
    ensures forall s :: s != "" && Effective(w, "attention_backend") == Some(Str(s)) ==>
              Final(w, h, "attention_backend") == Some(Str(s))
    ensures "DISABLE_LOG_REQUESTS" in w.env && w.env["DISABLE_LOG_REQUESTS"] in {"true", "True", "TRUE"} ==>
              Final(w, h, "enable_log_requests") == Some(Bool(false))
    ensures "DISABLE_LOG_REQUESTS" !in w.env ==> Final(w, h, "enable_log_requests") == Effective(w, "enable_log_requests")
  {
    LastFields(w, h, MergedArgs(w));
    MergedLooksUp(w, ATTENTION);
    MergedLooksUp(w, LOG_REQUESTS);
    assert Fold("true") == "true" && Fold("True") == "true" && Fold("TRUE") == "true";
    assert ATTENTION == "attention_backend" && LOG_REQUESTS == "enable_log_requests";
  }

  /** Unset, or one of the values Python takes for zero. */
  predicate NoLimit(v: Option<Value>) {
    v in {None, Some(Int(0)), Some(Real(0.0)), Some(Bool(false))}
  }

  /** An unset or zero number of batched tokens becomes the model length asked for or, where
      that is unset or zero too, the one of the model; a number asked for stays. */
  lemma {:induction false} TokensBecomeLength(w: World, h: Host, n: int)
    requires n != 0
    ensures Effective(w, "max_num_batched_tokens") == Some(Int(n)) ==> Final(w, h, "max_num_batched_tokens") == Some(Int(n))
    ensures NoLimit(Effective(w, "max_num_batched_tokens")) && Effective(w, "max_model_len") == Some(Int(n)) ==>
              Final(w, h, "max_num_batched_tokens") == Some(Int(n))
    ensures NoLimit(Effective(w, "max_num_batched_tokens")) && NoLimit(Effective(w, "max_model_len"))
            && (forall m, t, r :: h.modelLength(m, t, r) == Int(n)) ==>
              Final(w, h, "max_num_batched_tokens") == Some(Int(n))
    ensures NoLimit(Effective(w, "max_model_len")) ==> Final(w, h, "max_model_len") in {None, Some(Null)}
  {
    TokensFollowLength(w, h);
    LateFields(w, h, MergedArgs(w));
    MergedLooksUp(w, BATCHED_TOKENS);
    MergedLooksUp(w, MODEL_LEN);
    assert BATCHED_TOKENS == "max_num_batched_tokens" && MODEL_LEN == "max_model_len";
  }

  /** The model's own length is asked for with the model, the trust in its code and its
      revision. */
  lemma {:induction false} LengthAskedFor(w: World, h: Host, m: string, trust: bool, r: string)
    requires NoLimit(Effective(w, "max_num_batched_tokens")) && NoLimit(Effective(w, "max_model_len"))
    requires Effective(w, "model") == Some(Str(m)) && Effective(w, "revision") == Some(Str(r))
    requires Effective(w, "trust_remote_code") == Some(Bool(trust)) || (Effective(w, "trust_remote_code") == None && !trust)
    requires h.modelLength(Str(m), Bool(trust), Str(r)) != Null
    ensures Final(w, h, "max_num_batched_tokens") == Some(h.modelLength(Str(m), Bool(trust), Str(r)))
  {
    TokensFollowLength(w, h);
    MergedLooksUp(w, BATCHED_TOKENS);
    MergedLooksUp(w, MODEL_LEN);
    MergedLooksUp(w, MODEL);
    MergedLooksUp(w, REVISION);
    MergedLooksUp(w, TRUST);
    assert BATCHED_TOKENS == "max_num_batched_tokens" && MODEL_LEN == "max_model_len" && TRUST == "trust_remote_code";
  }

  /** Overrides the engine does not reject stay as they are; empty ones go. */
  lemma {:induction false} OverridesStay(w: World, h: Host, entries: map<string, Value>)
    requires Effective(w, "hf_overrides") == Some(Dict(entries))
    ensures entries == map[] ==> Final(w, h, "hf_overrides") == None
    ensures entries != map[] && (!h.asks || forall k :: k in entries ==> !Offends(entries[k], h.rejects)) ==>
              Final(w, h, "hf_overrides") == Some(Dict(entries))
  {
    EarlyFields(w, h, MergedArgs(w));
    MergedLooksUp(w, OVERRIDES);
    assert OVERRIDES == "hf_overrides";
  }

  /** A sub-config the engine rejects loses its rope scaling, and goes when it has nothing else. */
  lemma {:induction false} RejectedLosesRope(rope: map<string, Value>, more: map<string, Value>, rejects: Value -> bool)
    requires rejects(Dict(rope)) && "rope_scaling" !in more
    ensures var h := Dict(map["text_config" := Dict(more["rope_scaling" := Dict(rope)])]);
            Sanitized(h, rejects) == if more == map[] then Null else Dict(map["text_config" := Dict(more)])
  {
    var v := Dict(more["rope_scaling" := Dict(rope)]);
    var entries := map["text_config" := v];
    assert ROPE == "rope_scaling" && Offends(entries["text_config"], rejects);
    assert v.entries - {ROPE} == more;
    assert "text_config" in entries && Cleaned(entries["text_config"], rejects) == OrNull(more);
    assert Sanitized(Dict(entries), rejects) == OrNull(Kept(entries, rejects));
    if more == map[] {
      assert Kept(entries, rejects) == map[];
    } else {
      assert Kept(entries, rejects) == map["text_config" := Dict(more)];
    }
  }

  /** A speculative configuration built from the environment replaces any other; without one the
      layers decide. */
  lemma {:induction false} SpeculativeGiven(w: World, h: Host, entries: map<string, Value>)
    ensures h.speculative == Some(Dict(entries)) && entries != map[] ==> Final(w, h, "speculative_config") == Some(Dict(entries))
    ensures h.speculative == Some(Null) ==> Final(w, h, "speculative_config") == Effective(w, "speculative_config")
  {
    LastFields(w, h, MergedArgs(w));
    MergedLooksUp(w, SPECULATIVE);
    assert SPECULATIVE == "speculative_config";
  }

  /** What is no mapping of its own stays among the overrides, unless it is None. */
  lemma {:induction false} PlainOverridesStay(h: Value, rejects: Value -> bool, k: string)
    requires h.Dict? && k in h.entries && !h.entries[k].Dict? && h.entries[k] != Null
    ensures var r := Sanitized(h, rejects); r.Dict? && k in r.entries && r.entries[k] == h.entries[k]
  {
    assert Cleaned(h.entries[k], rejects) == h.entries[k];
    assert k in Kept(h.entries, rejects);
  }

  // -- An example -----------------------------------------------------------------------------------

  /** `MAX_NUM_SEQS=128` over the default of 256. */
  lemma {:induction false} MaxNumSeqs(w: World)
    requires "max_num_seqs" in w.fields && w.local == [] && w.env == map["MAX_NUM_SEQS" := "128"]
    requires w.parse("max_num_seqs", "128") == Some(Int(128)) && w.defaults == map["max_num_seqs" := Int(256)]
    ensures Effective(w, "max_num_seqs") == Some(Int(128))
  {
    assert VariableOf("MAX_NUM_SEQS", "max_num_seqs");
    TrimmedStays("128");
    EnvironmentBeatsDefault(w, "max_num_seqs", "MAX_NUM_SEQS", Int(128), w.defaults);
  }
}
