/** The engine arguments: defaults, environment, aliases and a local file, one over the
    other, and the corrections made behind them. */
module EngineArgs {
  import opened Options
  import opened Text
  import opened Dictsort

  /** A value as Python or JSON has it. */
  datatype Value =
    | Null
    | Bool(b: bool)
    | Int(n: int)
    | Real(x: real)
    | Str(s: string)
    | List(items: seq<Value>)
    | Dict(entries: map<string, Value>)

  type Args = map<string, Value>

  const MODEL := "model"
  const REVISION := "revision"
  const TOKENIZER := "tokenizer"

  const ALIASES: seq<(string, string)> :=
    [("MODEL_NAME", MODEL), ("MODEL_REVISION", REVISION), ("TOKENIZER_NAME", TOKENIZER)]

  /** Everything the arguments depend on: the fields of the engine, its optional fields, how
      a text becomes a value of a field (or does not), and the four layers. */
  datatype World = World(
    fields: seq<string>,
    optional: set<string>,
    parse: (string, string) -> Option<Value>,
    defaults: Args,
    env: map<string, string>,
    local: seq<(string, Value)>)

  function Lookup<V>(m: map<string, V>, k: string): Option<V> {
    if k in m then Some(m[k]) else None
  }

  /** `dict.get`. */
  function Get(args: Args, f: string): Value {
    if f in args then args[f] else Null
  }

  /** Not in `(None, "", "None")`. */
  predicate Meaningful(v: Value) {
    v != Null && v != Str("") && v != Str("None")
  }

  predicate IsBlank(text: string) {
    Trim(text) == "" || Trim(text) == "None" || Trim(text) == "none"
  }

  /** `_convert_env_value_to_field_type`; None where it raises. */
  function Convert(w: World, f: string, text: string): Option<Value> {
    if IsBlank(text) then (if f in w.optional then Some(Null) else None) else w.parse(f, Trim(text))
  }

  function UpperChar(c: char): char {
    if 'a' <= c <= 'z' then c - 32 as char else c
  }

  function Upper(s: string): string {
    seq(|s|, i requires 0 <= i < |s| => UpperChar(s[i]))
  }

  function Underscored(s: string): string {
    seq(|s|, i requires 0 <= i < |s| => if s[i] == '-' then '_' else s[i])
  }

  // -- One field ----------------------------------------------------------------------------

  /** The first value that is there wins. */
  function Over<V>(upper: Option<V>, lower: Option<V>): Option<V> {
    if upper.Some? then upper else lower
  }

  function FromEnv(w: World, f: string): Option<Value> {
    if f in w.fields && Upper(f) in w.env then Convert(w, f, w.env[Upper(f)]) else None
  }

  function AliasOf(f: string): Option<string> {
    if f == MODEL then Some("MODEL_NAME")
    else if f == REVISION then Some("MODEL_REVISION")
    else if f == TOKENIZER then Some("TOKENIZER_NAME")
    else None
  }

  function FromAlias(w: World, f: string): Option<Value> {
    var alias := AliasOf(f);
    if f in w.fields && alias.Some? && alias.value in w.env then Convert(w, f, w.env[alias.value]) else None
  }

  /** The field a key of the local file means. */
  function Target(k: string): string {
    if k == "MODEL_NAME" then MODEL
    else if k == "MODEL_REVISION" then REVISION
    else if k == "TOKENIZER_NAME" then TOKENIZER
    else Underscored(Fold(k))
  }

  /** The last meaningful entry for the field wins. */
  function LastFor(local: seq<(string, Value)>, f: string): Option<Value> {
    if local == [] then None
    else
      var (k, v) := local[|local| - 1];
      if Target(k) == f && Meaningful(v) then Some(v) else LastFor(local[..|local| - 1], f)
  }

  function FromLocal(w: World, f: string): Option<Value> {
    if f in w.fields then LastFor(w.local, f) else None
  }

  function Layered(w: World, f: string): Option<Value> {
    Over(FromLocal(w, f), Over(FromAlias(w, f), Over(FromEnv(w, f), Lookup(w.defaults, f))))
  }

  /** What a field has when all layers are merged and filtered. */
  function Effective(w: World, f: string): Option<Value> {
    var v := Layered(w, f);
    if f in w.fields && v.Some? && Meaningful(v.value) then v else None
  }

  // -- The merge ------------------------------------------------------------------------------

  method DiscoverFromEnv(w: World) returns (args: Args)
    ensures forall f :: Lookup(args, f) == FromEnv(w, f)
  {
    args := map[];
    for i := 0 to |w.fields|
      invariant forall f :: Lookup(args, f) == if f in w.fields[..i] then FromEnv(w, f) else None
    {
      var f := w.fields[i];
      assert w.fields[..i + 1] == w.fields[..i] + [f];
      if Upper(f) in w.env {
        var v := Convert(w, f, w.env[Upper(f)]);
        if v.Some? {
          args := args[f := v.value];
        }
      }
    }
    assert w.fields[..|w.fields|] == w.fields;
  }

  class Dictionary {
    var args: Args

    constructor (start: Args)
      ensures args == start
    {
      args := start;
    }

    /** `dict.update`. */
    method Update(other: Args)
      modifies this
      ensures forall f :: Lookup(args, f) == Over(Lookup(other, f), Lookup(old(args), f))
    {
      args := args + other;
    }

    method ApplyEnvAliases(w: World)
      modifies this
      ensures forall f :: Lookup(args, f) == Over(FromAlias(w, f), Lookup(old(args), f))
    {
      for i := 0 to |ALIASES|
        invariant forall f :: Lookup(args, f) ==
                    Over(if exists j :: 0 <= j < i && ALIASES[j].1 == f then FromAlias(w, f) else None, Lookup(old(args), f))
      {
        var (alias, target) := ALIASES[i];
        assert AliasOf(target) == Some(alias);
        if alias in w.env && target in w.fields {
          var v := Convert(w, target, w.env[alias]);
          if v.Some? {
            args := args[target := v.value];
          }
        }
      }
      assert ALIASES[0].1 == MODEL && ALIASES[1].1 == REVISION && ALIASES[2].1 == TOKENIZER;
    }

    /** The filter behind the merge. */
    method Filter(w: World)
      modifies this
      ensures forall f :: Lookup(args, f) ==
                if f in w.fields && f in old(args) && Meaningful(old(args)[f]) then Lookup(old(args), f) else None
    {
      args := map f | f in args && f in w.fields && Meaningful(args[f]) :: args[f];
    }
  }

  method LocalArgs(w: World) returns (out: Args)
    ensures forall f :: Lookup(out, f) == FromLocal(w, f)
  {
    out := map[];
    for i := 0 to |w.local|
      invariant forall f :: Lookup(out, f) == if f in w.fields then LastFor(w.local[..i], f) else None
    {
      var (k, v) := w.local[i];
      assert w.local[..i + 1][..i] == w.local[..i];
      if Target(k) in w.fields && Meaningful(v) {
        out := out[Target(k) := v];
      }
    }
    assert w.local[..|w.local|] == w.local;
  }

  /** The four layers and the filter, against the one-field lookup. */
  method Merge(w: World) returns (d: Dictionary)
    ensures fresh(d)
    ensures forall f :: Lookup(d.args, f) == Effective(w, f)
  {
    d := new Dictionary(w.defaults);
    var env := DiscoverFromEnv(w);
    d.Update(env);
    d.ApplyEnvAliases(w);
    if w.local != [] {
      var local := LocalArgs(w);
      d.Update(local);
    }
    assert forall f :: Lookup(d.args, f) == Layered(w, f);
    d.Filter(w);
  }

  // -- What the layers mean -----------------------------------------------------------------------

  /** Entry i of the local file sets f, and no later one does. */
  predicate SetsLast(local: seq<(string, Value)>, f: string, i: nat) {
    && i < |local| && Target(local[i].0) == f && Meaningful(local[i].1)
    && forall j :: i < j < |local| ==> !(Target(local[j].0) == f && Meaningful(local[j].1))
  }

  lemma {:induction false} LastForAt(local: seq<(string, Value)>, f: string, i: nat)
    requires SetsLast(local, f, i)
    ensures LastFor(local, f) == Some(local[i].1)
  {
    var n := |local| - 1;
    if i < n {
      assert SetsLast(local[..n], f, i);
      LastForAt(local[..n], f, i);
    }
  }

  lemma {:induction false} LastForFrom(local: seq<(string, Value)>, f: string)
    requires LastFor(local, f).Some?
    ensures exists i: nat :: SetsLast(local, f, i)
  {
    var n := |local| - 1;
    if Target(local[n].0) == f && Meaningful(local[n].1) {
      assert SetsLast(local, f, n);
    } else {
      LastForFrom(local[..n], f);
      var i: nat :| SetsLast(local[..n], f, i);
      assert SetsLast(local, f, i);
    }
  }

  /** What the local file gives a field. */
  lemma {:induction false} LastForExactly(local: seq<(string, Value)>, f: string, v: Value)
    ensures LastFor(local, f) == Some(v) <==> exists i: nat :: SetsLast(local, f, i) && local[i].1 == v
  {
    if LastFor(local, f) == Some(v) {
      LastForFrom(local, f);
      var i: nat :| SetsLast(local, f, i);
      LastForAt(local, f, i);
    } else if i: nat :| SetsLast(local, f, i) && local[i].1 == v {
      LastForAt(local, f, i);
    }
  }

  /** The arguments hold fields of the engine only, and meaningful values only. */
  lemma {:induction false} EffectiveIsMeaningful(w: World, f: string)
    ensures Effective(w, f).Some? ==> f in w.fields && Meaningful(Effective(w, f).value)
    ensures FromLocal(w, f).Some? ==> Effective(w, f) == FromLocal(w, f)
  {
    if FromLocal(w, f).Some? {
      LastForExactly(w.local, f, FromLocal(w, f).value);
    }
  }

  /** An alias set to a blank text erases, on an optional field, whatever the environment and
      the defaults say; on any other field it is as if it were not set. */
  lemma {:induction false} BlankAlias(w: World, f: string, alias: string)
    requires f in w.fields && AliasOf(f) == Some(alias) && alias in w.env && IsBlank(w.env[alias])
    ensures f in w.optional ==> Effective(w, f) == FromLocal(w, f)
    ensures f !in w.optional ==> Effective(w, f) == Effective(w.(env := w.env - {alias}), f)
  {
    EffectiveIsMeaningful(w, f);
    assert |Upper(f)| == |f| && |alias| != |f|;
    assert Lookup(w.env - {alias}, Upper(f)) == Lookup(w.env, Upper(f));
  }
}
