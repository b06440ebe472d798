/** Pruned depth-first search, `TreeofThoughts.tot_dfs` with its nested
    `dfs(s, t)`. The variables `dfs` shares through `nonlocal` (and the
    `output` list it appends to) are the fields of `DfsRun`; the functions
    `Explore` and `Children` say what one call does to them, and the lemmas
    below are proved about those functions.

    Besides the Python state, a run records the oracle requests it issues
    (`calls`), in order: what an instrumented oracle would observe; and it
    counts the leaves that returned True (`stops`). */
module Dfs {
  import opened Wrappers
  import opened Thoughts
  import opened Ordering

  /** The optional tunables of `tot_dfs`; `None` switches a rule off. */
  datatype Tunables = Tunables(
    pruning: Option<real>,
    confidence: Option<real>,
    maxIterations: Option<int>,
    convergenceThreshold: Option<real>,
    convergenceCount: Option<int>)

  /** The keyword defaults of `tot_dfs`. */
  const DefaultTunables := Tunables(Some(0.5), Some(0.9), Some(10), Some(0.1), Some(5))

  datatype Config = Config(k: int, T: int, vth: real, tunables: Tunables)

  /** An `output` entry: the thought list generated at a leaf and the leaf's score. */
  datatype Entry = Entry(thought: seq<string>, value: real)

  /** The run-state `dfs` shares, the oracle requests issued so far, and the
      number of leaves that returned True. */
  datatype Run = Run(
    output: seq<Entry>,
    iterationCount: int,
    convergenceCount: int,
    prevBest: Option<real>,
    calls: seq<Call>,
    stops: nat)

  const InitialRun := Run([], 0, 0, None, [], 0)

  /** What `dfs` returns: False, True, or an exception on its way out. */
  datatype Signal = Continue | Stop | Raise(error: Error)

  datatype Step = Step(signal: Signal, run: Run)

  function Abs(x: real): real
  {
    if x < 0.0 then -x else x
  }

  /** `evaluate_states(asked)[s]`: the scoring call may raise, and the lookup
      raises KeyError when the map lacks `s`. */
  function Lookup(o: Oracle, asked: set<State>, s: State): (r: Result<real, Error>)
    ensures r.Ok? <==> o.evaluate(asked).Ok? && s in o.evaluate(asked).value
    ensures r.Ok? ==> r.value == o.evaluate(asked).value[s]
    ensures r.Err? ==> r.error == (if o.evaluate(asked).Err? then o.evaluate(asked).error else MissingScore)
  {
    match o.evaluate(asked)
    case Err(e) => Err(e)
    case Ok(m) => if s in m then Ok(m[s]) else Err(MissingScore)
  }

  /** The pruning test: above `vth`, and not below `pruning_threshold` unless that is None. */
  predicate Admits(c: Config, v: real)
  {
    v > c.vth && (c.tunables.pruning.None? || v >= c.tunables.pruning.value)
  }

  /** The confidence stop rule, checked before the counters move. */
  predicate Confident(c: Config, v: real)
  {
    c.tunables.confidence.Some? && v >= c.tunables.confidence.value
  }

  /** The two stop rules checked after the counters move. */
  predicate LimitReached(tu: Tunables, iterationCount: int, convergenceCount: int)
  {
    || (tu.maxIterations.Some? && iterationCount >= tu.maxIterations.value)
    || (tu.convergenceCount.Some? && convergenceCount >= tu.convergenceCount.value)
  }

  /** Rounds left before the leaf depth; decreases on every recursive call. */
  function Depth(c: Config, t: int): nat
  {
    if t <= c.T then c.T - t + 1 else 0
  }

  /** A leaf (`t > T`): one thought is generated for `s`, `s` itself is
      scored, the pair is appended to `output`, and the stop rules apply. */
  function Leaf(c: Config, o: Oracle, s: State, st: Run): (r: Step)
    ensures r.run.calls == st.calls + [Generate(s, 1), Evaluate({s})]
    ensures r.run.stops == st.stops + (if r.signal == Stop then 1 else 0)
    ensures Lookup(o, {s}, s).Err? ==>
      r.signal == Raise(Lookup(o, {s}, s).error) && r.run == st.(calls := r.run.calls)
    ensures Lookup(o, {s}, s).Ok? ==>
      var v, tu := Lookup(o, {s}, s).value, c.tunables;
      && r.run.output == st.output + [Entry(o.generate(s, 1), v)]
      && (Confident(c, v) ==>
            r.signal == Stop
            && r.run.iterationCount == st.iterationCount
            && r.run.convergenceCount == st.convergenceCount
            && r.run.prevBest == st.prevBest)
      && (!Confident(c, v) ==>
            && r.run.iterationCount == st.iterationCount + 1
            && r.run.prevBest == Some(v)
            && (st.prevBest.None? || tu.convergenceThreshold.None? ==>
                  r.run.convergenceCount == st.convergenceCount)
            && (st.prevBest.Some? && tu.convergenceThreshold.Some? ==>
                  && (Abs(v - st.prevBest.value) < tu.convergenceThreshold.value ==>
                        r.run.convergenceCount == st.convergenceCount + 1)
                  && (Abs(v - st.prevBest.value) >= tu.convergenceThreshold.value ==>
                        r.run.convergenceCount == 0))
            && (r.signal == Stop <==> LimitReached(tu, r.run.iterationCount, r.run.convergenceCount))
            && (r.signal != Stop ==> r.signal == Continue))
  {
    var thought := o.generate(s, 1);
    var st1 := st.(calls := st.calls + [Generate(s, 1), Evaluate({s})]);
    match Lookup(o, {s}, s)
    case Err(e) => Step(Raise(e), st1)
    case Ok(v) =>
      var tu := c.tunables;
      var st2 := st1.(output := st1.output + [Entry(thought, v)]);
      if Confident(c, v) then Step(Stop, st2.(stops := st.stops + 1))
      else
        var cc :=
          if st.prevBest.Some? && tu.convergenceThreshold.Some? then
            if Abs(v - st.prevBest.value) < tu.convergenceThreshold.value then st.convergenceCount + 1 else 0
          else st.convergenceCount;
        var st3 := st2.(convergenceCount := cc, prevBest := Some(v), iterationCount := st.iterationCount + 1);
        if LimitReached(tu, st3.iterationCount, cc) then Step(Stop, st3.(stops := st.stops + 1))
        else Step(Continue, st3)
  }

  /** `dfs(s, t)`: a leaf past depth T, otherwise the sorted children of `s`. */
  function Explore(c: Config, o: Oracle, s: State, t: int, st: Run): Step
    decreases Depth(c, t), 1
  {
    if t > c.T then Leaf(c, o, s, st)
    else
      var st1 := st.(calls := st.calls + [Generate(s, c.k)]);
      Children(c, o, s, t, SortStrings(o.generate(s, c.k)), st1)
  }

  /** The loop over the remaining children `cs` of `s`: each bare thought is
      scored on its own; an admitted one is explored; True or an exception
      from below ends the loop. */
  function Children(c: Config, o: Oracle, s: State, t: int, cs: seq<string>, st: Run): Step
    requires t <= c.T
    decreases Depth(c, t), 0, |cs|
  {
    if cs == [] then Step(Continue, st)
    else
      var st1 := st.(calls := st.calls + [Evaluate({Text(cs[0])})]);
      match Lookup(o, {Text(cs[0])}, Text(cs[0]))
      case Err(e) => Step(Raise(e), st1)
      case Ok(v) =>
        if Admits(c, v) then
          var r := Explore(c, o, Extend(s, cs[0]), t + 1, st1);
          if r.signal.Continue? then Children(c, o, s, t, cs[1..], r.run) else r
        else Children(c, o, s, t, cs[1..], st1)
  }

  function Values(out: seq<Entry>): (vs: seq<real>)
    ensures |vs| == |out| && forall i :: 0 <= i < |out| ==> vs[i] == out[i].value
  {
    seq(|out|, i requires 0 <= i < |out| => out[i].value)
  }

  /** What `tot_dfs` returns: the exception, None for an empty output, or the
      first output entry with the highest score. */
  function DfsResult(c: Config, o: Oracle, x: string): (r: Result<Option<Entry>, Error>)
    ensures var out := Explore(c, o, Text(x), 1, InitialRun);
      && (r.Err? <==> out.signal.Raise?)
      && (r.Err? ==> r.error == out.signal.error)
      && (r == Ok(None) <==> !out.signal.Raise? && out.run.output == [])
      && (r.Ok? && r.value.Some? ==>
            exists i :: 0 <= i < |out.run.output| && r.value.value == out.run.output[i]
              && (forall j :: 0 <= j < |out.run.output| ==> out.run.output[j].value <= out.run.output[i].value)
              && (forall j :: 0 <= j < i ==> out.run.output[j].value < out.run.output[i].value))
  {
    var out := Explore(c, o, Text(x), 1, InitialRun);
    if out.signal.Raise? then Err(out.signal.error)
    else if out.run.output == [] then Ok(None)
    else
      var i := ArgMax(Values(out.run.output));
      Ok(Some(out.run.output[i]))
  }

  // ---------------------------------------------------------------------
  // The imperative search
  // ---------------------------------------------------------------------

  class DfsRun {
    const config: Config
    const oracle: Oracle
    var output: seq<Entry>
    var iterationCount: int
    var consecutiveConvergenceCount: int
    var prevBestValue: Option<real>
    var calls: seq<Call>
    var stops: nat

    function Snapshot(): Run
      reads this
    {
      Run(output, iterationCount, consecutiveConvergenceCount, prevBestValue, calls, stops)
    }

    constructor (c: Config, o: Oracle)
      ensures config == c && oracle == o
      ensures Snapshot() == InitialRun
    {
      config, oracle := c, o;
      output, iterationCount, consecutiveConvergenceCount, prevBestValue := [], 0, 0, None;
      calls, stops := [], 0;
    }

    /** The `t > T` branch of `dfs`. */
    method VisitLeaf(s: State) returns (signal: Signal)
      modifies this
      ensures Step(signal, Snapshot()) == Leaf(config, oracle, s, old(Snapshot()))
    {
      var thought := oracle.generate(s, 1);
      calls := calls + [Generate(s, 1)];
      calls := calls + [Evaluate({s})];
      var scored := Lookup(oracle, {s}, s);
      if scored.Err? {
        return Raise(scored.error);
      }
      var value := scored.value;
      output := output + [Entry(thought, value)];
      var tu := config.tunables;
      if Confident(config, value) {
        stops := stops + 1;
        return Stop;
      }
      if prevBestValue.Some? && tu.convergenceThreshold.Some? {
        if Abs(value - prevBestValue.value) < tu.convergenceThreshold.value {
          consecutiveConvergenceCount := consecutiveConvergenceCount + 1;
        } else {
          consecutiveConvergenceCount := 0;
        }
      }
      prevBestValue := Some(value);
      iterationCount := iterationCount + 1;
      if LimitReached(tu, iterationCount, consecutiveConvergenceCount) {
        stops := stops + 1;
        return Stop;
      }
      return Continue;
    }

    method Dfs(s: State, t: int) returns (signal: Signal)
      modifies this
      decreases Depth(config, t)
      ensures Step(signal, Snapshot()) == Explore(config, oracle, s, t, old(Snapshot()))
    {
      if t > config.T {
        signal := VisitLeaf(s);
        return;
      }
      calls := calls + [Generate(s, config.k)];
      var children := SortStrings(oracle.generate(s, config.k));
      var i := 0;
      while i < |children|
        invariant 0 <= i <= |children|
        invariant Explore(config, oracle, s, t, old(Snapshot())) == Children(config, oracle, s, t, children[i..], Snapshot())
      {
        var child := children[i];
        assert children[i..][0] == child && children[i..][1..] == children[i + 1..];
        calls := calls + [Evaluate({Text(child)})];
        var scored := Lookup(oracle, {Text(child)}, Text(child));
        if scored.Err? {
          return Raise(scored.error);
        }
        if Admits(config, scored.value) {
          var below := Dfs(Extend(s, child), t + 1);
          if !below.Continue? {
            return below;
          }
        }
        i := i + 1;
      }
      return Continue;
    }
  }

  method TotDfs(o: Oracle, x: string, k: int, T: int, vth: real, tunables: Tunables)
    returns (r: Result<Option<Entry>, Error>)
    ensures r == DfsResult(Config(k, T, vth, tunables), o, x)
  {
    var run := new DfsRun(Config(k, T, vth, tunables), o);
    var signal := run.Dfs(Text(x), 1);
    if signal.Raise? {
      return Err(signal.error);
    }
    if run.output == [] {
      return Ok(None);
    }
    var best := ArgMax(Values(run.output));
    return Ok(Some(run.output[best]));
  }
}
