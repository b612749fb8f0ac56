/** The hook mechanism of `sam_generate_features_torch`
    (loss/sam_perceptural.py): one forward hook per module, a counter that
    names every firing, the configured names that are recorded into an
    insertion-ordered dict, and the removal of the hooks afterwards.
    A forward pass is given by its firing trace: the class name of the
    module behind each hook firing, in firing order, with the output of
    each firing. */
module Hooks {
  import opened Outcomes
  import opened TapNames

  /** `self.layer_name_mapping` of `SAMPerpetualLoss`. */
  const LayerNameMapping: seq<string> := ["GELU_3", "Conv2d_BN_33", "Conv2d_BN_57"]

  /** A Python dict, in insertion order. */
  type Dict<V> = seq<(string, V)>

  function Keys<V>(d: Dict<V>): (ks: seq<string>)
    ensures |ks| == |d|
    ensures forall i :: 0 <= i < |d| ==> ks[i] == d[i].0
  {
    seq(|d|, i requires 0 <= i < |d| => d[i].0)
  }

  /** `list(d.values())`. */
  function Values<V>(d: Dict<V>): (vs: seq<V>)
    ensures |vs| == |d|
    ensures forall i :: 0 <= i < |d| ==> vs[i] == d[i].1
  {
    seq(|d|, i requires 0 <= i < |d| => d[i].1)
  }

  /** `d[k] = v`: a present key keeps its position and takes the new value,
      a new key goes to the end. */
  function DictSet<V>(d: Dict<V>, k: string, v: V): (r: Dict<V>)
    ensures k !in Keys(d) ==> r == d + [(k, v)]
  {
    if k in Keys(d) then
      seq(|d|, i requires 0 <= i < |d| => if d[i].0 == k then (k, v) else d[i])
    else d + [(k, v)]
  }

  predicate Distinct(xs: seq<string>) {
    forall i, j :: 0 <= i < j < |xs| ==> xs[i] != xs[j]
  }

  /** Reference definition: the firing indices whose names are configured,
      in firing order. */
  function TapIndices(trace: seq<string>, mapping: seq<string>): (idx: seq<nat>)
    ensures forall j :: 0 <= j < |idx| ==> idx[j] < |trace| && TapName(trace[idx[j]], idx[j]) in mapping
    ensures forall j, k :: 0 <= j < k < |idx| ==> idx[j] < idx[k]
    ensures forall i :: 0 <= i < |trace| && TapName(trace[i], i) in mapping ==> i in idx
    decreases |trace|
  {
    if trace == [] then []
    else
      var n := |trace| - 1;
      var before := TapIndices(trace[..n], mapping);
      before + (if TapName(trace[n], n) in mapping then [n] else [])
  }

  /** Reference definition of what one pass records: for each configured
      firing, its name and output, in firing order. */
  function Recorded<F>(trace: seq<string>, outs: seq<F>, mapping: seq<string>): (d: Dict<F>)
    requires |outs| == |trace|
  {
    var idx := TapIndices(trace, mapping);
    seq(|idx|, j requires 0 <= j < |idx| => (TapName(trace[idx[j]], idx[j]), outs[idx[j]]))
  }

  /** `hook_fn`'s state within one pass: its counter and the `outputs` dict. */
  datatype HookState<F> = HookState(counter: nat, outputs: Dict<F>)

  /** One firing of `hook_fn` on a module of class `cls` with output `out`. */
  function HookFn<F>(st: HookState<F>, cls: string, out: F, mapping: seq<string>): HookState<F> {
    var name := TapName(cls, st.counter);
    HookState(st.counter + 1, if name in mapping then DictSet(st.outputs, name, out) else st.outputs)
  }

  lemma RecordedSnoc<F>(trace: seq<string>, outs: seq<F>, mapping: seq<string>, n: nat)
    requires |outs| == |trace| && n < |trace|
    ensures var name := TapName(trace[n], n);
            Recorded(trace[..n + 1], outs[..n + 1], mapping)
            == Recorded(trace[..n], outs[..n], mapping) + (if name in mapping then [(name, outs[n])] else [])
  {
    assert trace[..n + 1][..n] == trace[..n];
  }

  /** Every recorded name belongs to an earlier firing, so the name of the
      current firing is new. */
  lemma NewNameIsFresh<F>(trace: seq<string>, outs: seq<F>, mapping: seq<string>, n: nat)
    requires |outs| == |trace| && n < |trace|
    ensures TapName(trace[n], n) !in Keys(Recorded(trace[..n], outs[..n], mapping))
  {
    var d := Recorded(trace[..n], outs[..n], mapping);
    var idx := TapIndices(trace[..n], mapping);
    forall j | 0 <= j < |d|
      ensures d[j].0 != TapName(trace[n], n)
    {
      if d[j].0 == TapName(trace[n], n) {
        TapNameInjective(trace[idx[j]], idx[j], trace[n], n);
      }
    }
  }

  /** `forward_with_hooks` after registration: the counter starts at 0 for
      this pass, every firing goes through `hook_fn`, and the dict comes out
      as the reference says: the configured firings, in firing order. */
  method ForwardWithHooks<F>(trace: seq<string>, outs: seq<F>, mapping: seq<string>) returns (outputs: Dict<F>)
    requires |outs| == |trace|
    ensures outputs == Recorded(trace, outs, mapping)
  {
    var st: HookState<F> := HookState(0, []);
    while st.counter < |trace|
      invariant st.counter <= |trace|
      invariant st.outputs == Recorded(trace[..st.counter], outs[..st.counter], mapping)
      decreases |trace| - st.counter
    {
      var n := st.counter;
      RecordedSnoc(trace, outs, mapping, n);
      NewNameIsFresh(trace, outs, mapping, n);
      st := HookFn(st, trace[n], outs[n], mapping);
    }
    assert trace[..st.counter] == trace && outs[..st.counter] == outs;
    outputs := st.outputs;
  }

  lemma {:induction false} DistinctSetSize(xs: seq<string>)
    requires Distinct(xs)
    ensures |set x | x in xs| == |xs|
    decreases |xs|
  {
    if xs != [] {
      var rest := xs[1..];
      DistinctSetSize(rest);
      assert (set x | x in xs) == (set x | x in rest) + {xs[0]};
      assert xs[0] !in rest;
    }
  }

  lemma {:induction false} SetSizeBound(ys: seq<string>)
    ensures |set y | y in ys| <= |ys|
    decreases |ys|
  {
    if ys != [] {
      SetSizeBound(ys[1..]);
      assert (set y | y in ys) == (set y | y in ys[1..]) + {ys[0]};
    }
  }

  lemma {:induction false} SubsetSize(a: set<string>, b: set<string>)
    requires a <= b
    ensures |a| <= |b|
    decreases |a|
  {
    if a != {} {
      var x :| x in a;
      SubsetSize(a - {x}, b - {x});
    }
  }

  /** A list of distinct names drawn from `ys` is no longer than `ys`. */
  lemma DistinctSubsetLength(xs: seq<string>, ys: seq<string>)
    requires Distinct(xs)
    requires forall i :: 0 <= i < |xs| ==> xs[i] in ys
    ensures |xs| <= |ys|
  {
    DistinctSetSize(xs);
    SetSizeBound(ys);
    SubsetSize(set x | x in xs, set y | y in ys);
  }

  /** The recorded names are distinct configured names (the counter makes
      every name of a pass unique), so there are at most as many taps as
      configured names. */
  lemma {:induction false} RecordedKeysDistinct<F>(trace: seq<string>, outs: seq<F>, mapping: seq<string>)
    requires |outs| == |trace|
    ensures Distinct(Keys(Recorded(trace, outs, mapping)))
    ensures forall k :: k in Keys(Recorded(trace, outs, mapping)) ==> k in mapping
    ensures |Recorded(trace, outs, mapping)| <= |mapping|
  {
    var d := Recorded(trace, outs, mapping);
    var idx := TapIndices(trace, mapping);
    var ks := Keys(d);
    forall i, j | 0 <= i < j < |ks|
      ensures ks[i] != ks[j]
    {
      if ks[i] == ks[j] {
        TapNameInjective(trace[idx[i]], idx[i], trace[idx[j]], idx[j]);
      }
    }
    DistinctSubsetLength(ks, mapping);
  }

  /** The taps depend on the trace of class names alone, not on the outputs:
      two passes through the same modules give the same names, hence
      feature lists of equal length. */
  lemma SameTraceSameTaps<F>(trace: seq<string>, outs1: seq<F>, outs2: seq<F>, mapping: seq<string>)
    requires |outs1| == |trace| && |outs2| == |trace|
    ensures Keys(Recorded(trace, outs1, mapping)) == Keys(Recorded(trace, outs2, mapping))
    ensures |Values(Recorded(trace, outs1, mapping))| == |Values(Recorded(trace, outs2, mapping))|
  {
  }

  /** The result follows firing order, not the order of the configured list. */
  lemma FiringOrderNotMappingOrder()
    ensures Values(Recorded(["A", "B"], [10, 20], ["B_1", "A_0"])) == [10, 20]
  {
    ExampleIndices();
    var d := Recorded(["A", "B"], [10, 20], ["B_1", "A_0"]);
    assert |d| == 2 && d[0].1 == 10 && d[1].1 == 20;
  }

  /** Both firings of the example are configured, the first as `A_0`. */
  lemma ExampleIndices()
    ensures TapIndices(["A", "B"], ["B_1", "A_0"]) == [0, 1]
  {
    var trace, mapping := ["A", "B"], ["B_1", "A_0"];
    ExampleNames();
    assert trace[..1] == ["A"] && ["A"][..0] == [];
    assert TapIndices(["A"], mapping) == [0];
  }

  lemma ExampleNames()
    ensures TapName("A", 0) == "A_0"
    ensures TapName("B", 1) == "B_1"
  {
  }

  /** The forward hooks registered on the encoder's modules, by handle id;
      `nextId` is the id the next registration receives. */
  datatype Registry = Registry(nextId: nat, active: set<nat>)

  predicate WellFormed(reg: Registry) {
    forall id :: id in reg.active ==> id < reg.nextId
  }

  /** `module.register_forward_hook(hook_fn)`: a fresh handle. */
  function Register(reg: Registry): (Registry, nat) {
    (Registry(reg.nextId + 1, reg.active + {reg.nextId}), reg.nextId)
  }

  /** `hook.remove()`. */
  function Remove(reg: Registry, id: nat): Registry {
    Registry(reg.nextId, reg.active - {id})
  }

  /** The handles `count` registrations starting at `from` receive. */
  predicate InRange(id: nat, from: nat, count: nat) {
    from <= id < from + count
  }

  /** The explicit bounds let Dafny see the set is finite; `InRange` gives
      the comprehension a trigger. */
  function NewIds(from: nat, count: nat): set<nat> {
    set id: nat | from <= id < from + count && InRange(id, from, count)
  }

  /** `sam_generate_features_torch` from the encoder on: with no model the
      local `model` is unbound; otherwise one hook per module (there are
      `moduleCount` of them) is registered, the pass runs, and every hook
      is removed again, so the registry is back where it started. There is
      no try/finally: when the forward pass raises, the hooks stay
      registered. */
  method GenerateFeatures<F>(modelPresent: bool, reg: Registry, moduleCount: nat, trace: seq<string>,
                             outs: seq<F>, mapping: seq<string>, forwardRaises: bool)
    returns (after: Registry, r: Result<seq<F>>)
    requires WellFormed(reg)
    requires |outs| == |trace|
    ensures WellFormed(after)
    ensures !modelPresent ==> r == Err(UnboundLocal("model")) && after == reg
    ensures modelPresent ==> after.nextId == reg.nextId + moduleCount
    ensures modelPresent && !forwardRaises ==>
              r == Ok(Values(Recorded(trace, outs, mapping))) && after.active == reg.active
    ensures modelPresent && forwardRaises ==>
              r == Err(ForwardRaised) && after.active == reg.active + NewIds(reg.nextId, moduleCount)
  {
    if !modelPresent {
      return reg, Err(UnboundLocal("model"));
    }
    var cur := reg;
    var hooks: seq<nat> := [];
    while |hooks| < moduleCount
      invariant |hooks| <= moduleCount
      invariant cur.nextId == reg.nextId + |hooks|
      invariant forall j :: 0 <= j < |hooks| ==> hooks[j] == reg.nextId + j
      invariant cur.active == reg.active + NewIds(reg.nextId, |hooks|)
    {
      var (next, handle) := Register(cur);
      assert NewIds(reg.nextId, |hooks| + 1) == NewIds(reg.nextId, |hooks|) + {handle};
      cur, hooks := next, hooks + [handle];
    }
    if forwardRaises {
      return cur, Err(ForwardRaised);
    }
    var outputs := ForwardWithHooks(trace, outs, mapping);
    var i := 0;
    while i < |hooks|
      invariant i <= |hooks|
      invariant cur.nextId == reg.nextId + moduleCount
      invariant cur.active == reg.active + (NewIds(reg.nextId, moduleCount) - NewIds(reg.nextId, i))
    {
      assert reg.nextId + i !in reg.active;
      assert NewIds(reg.nextId, i + 1) == NewIds(reg.nextId, i) + {hooks[i]};
      cur := Remove(cur, hooks[i]);
      i := i + 1;
    }
    return cur, Ok(Values(outputs));
  }
}
