/** What the pruned depth-first search promises, proved about `Dfs.Explore`
    and `Dfs.Children` (and so about `DfsRun.Dfs`, which they specify). */
module DfsProperties {
  import opened Wrappers
  import opened Thoughts
  import opened Ordering
  import opened Dfs
  import opened Scoring

  // ---------------------------------------------------------------------
  // max_iterations bounds the output
  // ---------------------------------------------------------------------

  /** While the search goes on, every leaf visited has counted one iteration
      and the budget is not yet spent. */
  ghost predicate UnderBudget(st: Run, m: int)
  {
    |st.output| == st.iterationCount && st.iterationCount < m
  }

  lemma {:induction false} ExploreUnderBudget(c: Config, o: Oracle, s: State, t: int, st: Run, m: int)
    requires c.tunables.maxIterations == Some(m)
    requires UnderBudget(st, m)
    ensures var r := Explore(c, o, s, t, st);
      |r.run.output| <= m && (r.signal.Continue? ==> UnderBudget(r.run, m))
    decreases Depth(c, t), 1
  {
    if t <= c.T {
      var st1 := st.(calls := st.calls + [Generate(s, c.k)]);
      ChildrenUnderBudget(c, o, s, t, SortStrings(o.generate(s, c.k)), st1, m);
    }
  }

  lemma {:induction false} ChildrenUnderBudget(c: Config, o: Oracle, s: State, t: int, cs: seq<string>, st: Run, m: int)
    requires t <= c.T
    requires c.tunables.maxIterations == Some(m)
    requires UnderBudget(st, m)
    ensures var r := Children(c, o, s, t, cs, st);
      |r.run.output| <= m && (r.signal.Continue? ==> UnderBudget(r.run, m))
    decreases Depth(c, t), 0, |cs|
  {
    if cs != [] {
      var st1 := st.(calls := st.calls + [Evaluate({Text(cs[0])})]);
      match Lookup(o, {Text(cs[0])}, Text(cs[0]))
      case Err(e) =>
      case Ok(v) =>
        if Admits(c, v) {
          ExploreUnderBudget(c, o, Extend(s, cs[0]), t + 1, st1, m);
          var r := Explore(c, o, Extend(s, cs[0]), t + 1, st1);
          if r.signal.Continue? {
            ChildrenUnderBudget(c, o, s, t, cs[1..], r.run, m);
          }
        } else {
          ChildrenUnderBudget(c, o, s, t, cs[1..], st1, m);
        }
    }
  }

  /** A positive `max_iterations` bounds the number of leaves recorded. */
  lemma OutputBound(c: Config, o: Oracle, x: string, m: int)
    requires c.tunables.maxIterations == Some(m) && m >= 1
    ensures |Explore(c, o, Text(x), 1, InitialRun).run.output| <= m
  {
    ExploreUnderBudget(c, o, Text(x), 1, InitialRun, m);
  }

  // ---------------------------------------------------------------------
  // Only admitted thoughts are expanded
  // ---------------------------------------------------------------------

  /** `s` ends in a thought whose own score passed the pruning test. */
  ghost predicate Admitted(c: Config, o: Oracle, s: State)
  {
    && s.Steps? && |s.steps| > 0
    && var z := s.steps[|s.steps| - 1];
       Lookup(o, {Text(z)}, Text(z)).Ok? && Admits(c, Lookup(o, {Text(z)}, Text(z)).value)
  }

  /** Every generation request in `calls` is for the root or an admitted state. */
  ghost predicate ExpandsOnlyAdmitted(c: Config, o: Oracle, root: State, calls: seq<Call>)
  {
    forall i :: 0 <= i < |calls| && calls[i].Generate? ==>
      calls[i].state == root || Admitted(c, o, calls[i].state)
  }

  lemma AppendAdmitted(c: Config, o: Oracle, root: State, calls: seq<Call>, more: seq<Call>)
    requires ExpandsOnlyAdmitted(c, o, root, calls)
    requires ExpandsOnlyAdmitted(c, o, root, more)
    ensures ExpandsOnlyAdmitted(c, o, root, calls + more)
  {
    forall i | 0 <= i < |calls + more| && (calls + more)[i].Generate?
      ensures (calls + more)[i].state == root || Admitted(c, o, (calls + more)[i].state)
    {
      if i >= |calls| {
        assert (calls + more)[i] == more[i - |calls|];
      }
    }
  }

  lemma {:induction false} ExploreAdmitted(c: Config, o: Oracle, root: State, s: State, t: int, st: Run)
    requires s == root || Admitted(c, o, s)
    requires ExpandsOnlyAdmitted(c, o, root, st.calls)
    ensures ExpandsOnlyAdmitted(c, o, root, Explore(c, o, s, t, st).run.calls)
    decreases Depth(c, t), 1
  {
    if t > c.T {
      AppendAdmitted(c, o, root, st.calls, [Generate(s, 1), Evaluate({s})]);
    } else {
      var st1 := st.(calls := st.calls + [Generate(s, c.k)]);
      AppendAdmitted(c, o, root, st.calls, [Generate(s, c.k)]);
      ChildrenAdmitted(c, o, root, s, t, SortStrings(o.generate(s, c.k)), st1);
    }
  }

  lemma {:induction false} ChildrenAdmitted(c: Config, o: Oracle, root: State, s: State, t: int, cs: seq<string>, st: Run)
    requires t <= c.T
    requires ExpandsOnlyAdmitted(c, o, root, st.calls)
    ensures ExpandsOnlyAdmitted(c, o, root, Children(c, o, s, t, cs, st).run.calls)
    decreases Depth(c, t), 0, |cs|
  {
    if cs != [] {
      var st1 := st.(calls := st.calls + [Evaluate({Text(cs[0])})]);
      AppendAdmitted(c, o, root, st.calls, [Evaluate({Text(cs[0])})]);
      match Lookup(o, {Text(cs[0])}, Text(cs[0]))
      case Err(e) =>
      case Ok(v) =>
        if Admits(c, v) {
          var child := Extend(s, cs[0]);
          assert child.steps[|child.steps| - 1] == cs[0];
          ExploreAdmitted(c, o, root, child, t + 1, st1);
          var r := Explore(c, o, child, t + 1, st1);
          if r.signal.Continue? {
            ChildrenAdmitted(c, o, root, s, t, cs[1..], r.run);
          }
        } else {
          ChildrenAdmitted(c, o, root, s, t, cs[1..], st1);
        }
    }
  }

  /** The search asks for new thoughts only at the root and at states whose
      last thought, scored on its own, passed the pruning test. */
  lemma OnlyAdmittedExpanded(c: Config, o: Oracle, x: string)
    ensures ExpandsOnlyAdmitted(c, o, Text(x), Explore(c, o, Text(x), 1, InitialRun).run.calls)
  {
    ExploreAdmitted(c, o, Text(x), Text(x), 1, InitialRun);
  }

  // ---------------------------------------------------------------------
  // True ends the search at the leaf that raised it
  // ---------------------------------------------------------------------

  /** The run ended right after a leaf `s` was scored and recorded, and that
      leaf met one of the stop rules. */
  ghost predicate StoppedAtLeaf(c: Config, o: Oracle, run: Run)
  {
    && |run.calls| >= 2 && |run.output| >= 1
    && run.calls[|run.calls| - 2].Generate?
    && var s := run.calls[|run.calls| - 2].state;
       && run.calls[|run.calls| - 2] == Generate(s, 1)
       && run.calls[|run.calls| - 1] == Evaluate({s})
       && Lookup(o, {s}, s).Ok?
       && var v := Lookup(o, {s}, s).value;
          && run.output[|run.output| - 1] == Entry(o.generate(s, 1), v)
          && (Confident(c, v)
              || LimitReached(c.tunables, run.iterationCount, run.convergenceCount))
  }

  lemma {:induction false} ExploreStopIsFinal(c: Config, o: Oracle, s: State, t: int, st: Run)
    ensures Explore(c, o, s, t, st).signal == Stop ==> StoppedAtLeaf(c, o, Explore(c, o, s, t, st).run)
    decreases Depth(c, t), 1
  {
    if t <= c.T {
      var st1 := st.(calls := st.calls + [Generate(s, c.k)]);
      ChildrenStopIsFinal(c, o, s, t, SortStrings(o.generate(s, c.k)), st1);
    }
  }

  lemma {:induction false} ChildrenStopIsFinal(c: Config, o: Oracle, s: State, t: int, cs: seq<string>, st: Run)
    requires t <= c.T
    ensures Children(c, o, s, t, cs, st).signal == Stop ==> StoppedAtLeaf(c, o, Children(c, o, s, t, cs, st).run)
    decreases Depth(c, t), 0, |cs|
  {
    if cs != [] {
      var st1 := st.(calls := st.calls + [Evaluate({Text(cs[0])})]);
      match Lookup(o, {Text(cs[0])}, Text(cs[0]))
      case Err(e) =>
      case Ok(v) =>
        if Admits(c, v) {
          ExploreStopIsFinal(c, o, Extend(s, cs[0]), t + 1, st1);
          var r := Explore(c, o, Extend(s, cs[0]), t + 1, st1);
          if r.signal.Continue? {
            ChildrenStopIsFinal(c, o, s, t, cs[1..], r.run);
          }
        } else {
          ChildrenStopIsFinal(c, o, s, t, cs[1..], st1);
        }
    }
  }

  /** When `dfs` returns True, nothing was asked of the oracle after the
      stopping leaf: the run's last two requests are that leaf's, and its
      entry is the last one recorded. */
  lemma StopIsFinal(c: Config, o: Oracle, x: string)
    ensures Explore(c, o, Text(x), 1, InitialRun).signal == Stop ==>
      StoppedAtLeaf(c, o, Explore(c, o, Text(x), 1, InitialRun).run)
  {
    ExploreStopIsFinal(c, o, Text(x), 1, InitialRun);
  }

  /** Every leaf that returns True, by any stop rule, ends the search: a
      search from `st` has seen one such leaf exactly when it returns True,
      and never more than one. */
  lemma {:induction false} ExploreStops(c: Config, o: Oracle, s: State, t: int, st: Run)
    ensures var r := Explore(c, o, s, t, st);
      r.run.stops == st.stops + (if r.signal == Stop then 1 else 0)
    decreases Depth(c, t), 1
  {
    if t <= c.T {
      var st1 := st.(calls := st.calls + [Generate(s, c.k)]);
      ChildrenStops(c, o, s, t, SortStrings(o.generate(s, c.k)), st1);
    }
  }

  lemma {:induction false} ChildrenStops(c: Config, o: Oracle, s: State, t: int, cs: seq<string>, st: Run)
    requires t <= c.T
    ensures var r := Children(c, o, s, t, cs, st);
      r.run.stops == st.stops + (if r.signal == Stop then 1 else 0)
    decreases Depth(c, t), 0, |cs|
  {
    if cs != [] {
      var st1 := st.(calls := st.calls + [Evaluate({Text(cs[0])})]);
      match Lookup(o, {Text(cs[0])}, Text(cs[0]))
      case Err(e) =>
      case Ok(v) =>
        if Admits(c, v) {
          ExploreStops(c, o, Extend(s, cs[0]), t + 1, st1);
          var r := Explore(c, o, Extend(s, cs[0]), t + 1, st1);
          if r.signal.Continue? {
            ChildrenStops(c, o, s, t, cs[1..], r.run);
          }
        } else {
          ChildrenStops(c, o, s, t, cs[1..], st1);
        }
    }
  }

  /** At most one leaf of a search returns True, and when one does, `True`
      reaches the root: with `StopIsFinal`, nothing is asked of the oracle
      after that leaf, whichever stop rule it met. */
  lemma LeafStopReachesRoot(c: Config, o: Oracle, x: string)
    ensures var r := Explore(c, o, Text(x), 1, InitialRun);
      r.run.stops <= 1 && (r.run.stops == 1 <==> r.signal == Stop)
  {
    ExploreStops(c, o, Text(x), 1, InitialRun);
  }

  // ---------------------------------------------------------------------
  // The first confident leaf ends the search
  // ---------------------------------------------------------------------

  /** `after` keeps the entries of `before` and appends to them. */
  ghost predicate Grows(before: seq<Entry>, after: seq<Entry>)
  {
    |before| <= |after| && after[..|before|] == before
  }

  /** No entry of `out` between `from` and `upto` is confident. */
  ghost predicate Unconfident(c: Config, out: seq<Entry>, from: int, upto: int)
    requires 0 <= from && upto <= |out|
  {
    forall i :: from <= i < upto ==> !Confident(c, out[i].value)
  }

  /** A search from `st` keeps the entries recorded before it, records no
      confident entry but perhaps its last one, and none at all unless it
      returns True. */
  ghost predicate ConfidentOnlyLast(c: Config, st: Run, r: Step)
  {
    && Grows(st.output, r.run.output)
    && Unconfident(c, r.run.output, |st.output|, |r.run.output| - 1)
    && (r.signal != Stop ==> Unconfident(c, r.run.output, |st.output|, |r.run.output|))
  }

  lemma ConfidentOnlyLastCompose(c: Config, a: Run, b: Run, d: Step)
    requires Grows(a.output, b.output) && Unconfident(c, b.output, |a.output|, |b.output|)
    requires ConfidentOnlyLast(c, b, d)
    ensures ConfidentOnlyLast(c, a, d)
  {
    var out := d.run.output;
    assert out[..|b.output|] == b.output;
    forall i | |a.output| <= i < |b.output|
      ensures out[i] == b.output[i]
    {
      assert out[..|b.output|][i] == out[i];
    }
    assert out[..|a.output|] == b.output[..|a.output|];
  }

  lemma {:induction false} ExploreConfidentLast(c: Config, o: Oracle, s: State, t: int, st: Run)
    ensures ConfidentOnlyLast(c, st, Explore(c, o, s, t, st))
    decreases Depth(c, t), 1
  {
    if t > c.T {
      var r := Leaf(c, o, s, st);
      assert r.run.output[..|st.output|] == st.output;
    } else {
      var st1 := st.(calls := st.calls + [Generate(s, c.k)]);
      ChildrenConfidentLast(c, o, s, t, SortStrings(o.generate(s, c.k)), st1);
    }
  }

  lemma {:induction false} ChildrenConfidentLast(c: Config, o: Oracle, s: State, t: int, cs: seq<string>, st: Run)
    requires t <= c.T
    ensures ConfidentOnlyLast(c, st, Children(c, o, s, t, cs, st))
    decreases Depth(c, t), 0, |cs|
  {
    if cs == [] {
      assert st.output[..|st.output|] == st.output;
    } else {
      var st1 := st.(calls := st.calls + [Evaluate({Text(cs[0])})]);
      assert st1.output[..|st1.output|] == st1.output;
      match Lookup(o, {Text(cs[0])}, Text(cs[0]))
      case Err(e) =>
      case Ok(v) =>
        if Admits(c, v) {
          ExploreConfidentLast(c, o, Extend(s, cs[0]), t + 1, st1);
          var r := Explore(c, o, Extend(s, cs[0]), t + 1, st1);
          if r.signal.Continue? {
            ChildrenConfidentLast(c, o, s, t, cs[1..], r.run);
            ConfidentOnlyLastCompose(c, st1, r.run, Children(c, o, s, t, cs[1..], r.run));
          }
        } else {
          ChildrenConfidentLast(c, o, s, t, cs[1..], st1);
        }
    }
  }

  /** A confident entry is the last one recorded, and the search returned
      True; with `StopIsFinal`, the first confident leaf ends the search,
      whatever the scores of the thoughts on the way to it. */
  lemma FirstConfidentLeafEnds(c: Config, o: Oracle, x: string)
    ensures var r := Explore(c, o, Text(x), 1, InitialRun);
      forall i :: 0 <= i < |r.run.output| && Confident(c, r.run.output[i].value) ==>
        i == |r.run.output| - 1 && r.signal == Stop
  {
    ExploreConfidentLast(c, o, Text(x), 1, InitialRun);
  }

  // ---------------------------------------------------------------------
  // A confident first leaf ends the search
  // ---------------------------------------------------------------------

  /** Every state scores at least the confidence threshold on its own. */
  ghost predicate AlwaysConfident(c: Config, o: Oracle)
  {
    && c.tunables.confidence.Some?
    && forall s: State :: Lookup(o, {s}, s).Ok? && Lookup(o, {s}, s).value >= c.tunables.confidence.value
  }

  lemma {:induction false} ExploreOneLeaf(c: Config, o: Oracle, s: State, t: int, st: Run)
    requires AlwaysConfident(c, o) && st.output == []
    ensures var r := Explore(c, o, s, t, st);
      |r.run.output| <= 1 && (|r.run.output| == 1 ==> r.signal == Stop)
    decreases Depth(c, t), 1
  {
    if t > c.T {
      assert Lookup(o, {s}, s).Ok?;
    } else {
      var st1 := st.(calls := st.calls + [Generate(s, c.k)]);
      ChildrenOneLeaf(c, o, s, t, SortStrings(o.generate(s, c.k)), st1);
    }
  }

  lemma {:induction false} ChildrenOneLeaf(c: Config, o: Oracle, s: State, t: int, cs: seq<string>, st: Run)
    requires t <= c.T
    requires AlwaysConfident(c, o) && st.output == []
    ensures var r := Children(c, o, s, t, cs, st);
      |r.run.output| <= 1 && (|r.run.output| == 1 ==> r.signal == Stop)
    decreases Depth(c, t), 0, |cs|
  {
    if cs != [] {
      var st1 := st.(calls := st.calls + [Evaluate({Text(cs[0])})]);
      match Lookup(o, {Text(cs[0])}, Text(cs[0]))
      case Err(e) =>
      case Ok(v) =>
        if Admits(c, v) {
          ExploreOneLeaf(c, o, Extend(s, cs[0]), t + 1, st1);
          var r := Explore(c, o, Extend(s, cs[0]), t + 1, st1);
          if r.signal.Continue? {
            ChildrenOneLeaf(c, o, s, t, cs[1..], r.run);
          }
        } else {
          ChildrenOneLeaf(c, o, s, t, cs[1..], st1);
        }
    }
  }

  /** When every score reaches the confidence threshold, the search records
      at most one leaf, and recording it ends the search. */
  lemma ConfidentLeafStops(c: Config, o: Oracle, x: string)
    requires AlwaysConfident(c, o)
    ensures var r := Explore(c, o, Text(x), 1, InitialRun);
      |r.run.output| <= 1 && (|r.run.output| == 1 ==> r.signal == Stop)
  {
    ExploreOneLeaf(c, o, Text(x), 1, InitialRun);
  }

  // ---------------------------------------------------------------------
  // Nothing admitted at the root: no answer
  // ---------------------------------------------------------------------

  /** The scoring requests for the bare thoughts `cs`, in order. */
  function Evaluations(cs: seq<string>): (calls: seq<Call>)
    ensures |calls| == |cs| && forall i :: 0 <= i < |cs| ==> calls[i] == Evaluate({Text(cs[i])})
  {
    seq(|cs|, i requires 0 <= i < |cs| => Evaluate({Text(cs[i])}))
  }

  lemma {:induction false} AllPrunedContinue(c: Config, o: Oracle, s: State, t: int, cs: seq<string>, st: Run)
    requires t <= c.T
    requires forall z :: z in cs ==>
      Lookup(o, {Text(z)}, Text(z)).Ok? && !Admits(c, Lookup(o, {Text(z)}, Text(z)).value)
    ensures var r := Children(c, o, s, t, cs, st);
      r.signal == Continue && r.run == st.(calls := st.calls + Evaluations(cs))
    decreases |cs|
  {
    if cs == [] {
      assert st.calls + Evaluations(cs) == st.calls;
    } else {
      assert cs[0] in cs;
      var st1 := st.(calls := st.calls + [Evaluate({Text(cs[0])})]);
      AllPrunedContinue(c, o, s, t, cs[1..], st1);
      assert st1.calls + Evaluations(cs[1..]) == st.calls + Evaluations(cs);
    }
  }

  /** With at least one level to expand, if every thought generated for the
      root is scored and pruned, the search scores those thoughts one by one
      in ascending order, records nothing and returns None. */
  lemma NothingAdmittedNoResult(c: Config, o: Oracle, x: string)
    requires c.T >= 1
    requires forall z :: z in o.generate(Text(x), c.k) ==>
      Lookup(o, {Text(z)}, Text(z)).Ok? && !Admits(c, Lookup(o, {Text(z)}, Text(z)).value)
    ensures Explore(c, o, Text(x), 1, InitialRun).run.calls ==
      [Generate(Text(x), c.k)] + Evaluations(SortStrings(o.generate(Text(x), c.k)))
    ensures DfsResult(c, o, x) == Ok(None)
  {
    var gen := o.generate(Text(x), c.k);
    var sorted := SortStrings(gen);
    forall z | z in sorted
      ensures z in gen
    {
      assert z in multiset(sorted);
    }
    var st1 := InitialRun.(calls := InitialRun.calls + [Generate(Text(x), c.k)]);
    AllPrunedContinue(c, o, Text(x), 1, sorted, st1);
    assert Explore(c, o, Text(x), 1, InitialRun) == Children(c, o, Text(x), 1, sorted, st1);
  }

  // ---------------------------------------------------------------------
  // Vote-mode scoring never admits a bare thought
  // ---------------------------------------------------------------------

  /** A bare thought is a string, never equal to the tuple of words the vote
      names, so vote mode scores it 0. */
  lemma VoteScoresBareThoughtZero(generate: (State, int) -> seq<string>, valueOf: State -> real,
                                  vote: set<State> -> string, z: string)
    ensures Lookup(LanguageModel("vote", generate, valueOf, vote), {Text(z)}, Text(z)) == Ok(0.0)
  {
    VoteMissesUnsplittable({Text(z)}, Text(z), vote({Text(z)}));
  }

  /** With vote-mode scoring, a score of 0 is all a child ever gets; when
      that fails the pruning test (as it does for `vth >= 0`, or for
      `pruning_threshold` 0.5), a search with at least one level returns None. */
  lemma VoteModeDfsNoResult(c: Config, generate: (State, int) -> seq<string>, valueOf: State -> real,
                            vote: set<State> -> string, x: string)
    requires c.T >= 1 && !Admits(c, 0.0)
    ensures DfsResult(c, LanguageModel("vote", generate, valueOf, vote), x) == Ok(None)
  {
    var o := LanguageModel("vote", generate, valueOf, vote);
    forall z | z in o.generate(Text(x), c.k)
      ensures Lookup(o, {Text(z)}, Text(z)).Ok? && !Admits(c, Lookup(o, {Text(z)}, Text(z)).value)
    {
      VoteScoresBareThoughtZero(generate, valueOf, vote, z);
    }
    NothingAdmittedNoResult(c, o, x);
  }

  /** With no level to expand (`T < 1`), the root itself is the leaf: vote
      mode scores it 0 and `tot_dfs` returns that entry, a truthy tuple. */
  lemma VoteModeDfsShallowAnswers(c: Config, generate: (State, int) -> seq<string>, valueOf: State -> real,
                                  vote: set<State> -> string, x: string)
    requires c.T < 1
    ensures DfsResult(c, LanguageModel("vote", generate, valueOf, vote), x) == Ok(Some(Entry(generate(Text(x), 1), 0.0)))
  {
    var o := LanguageModel("vote", generate, valueOf, vote);
    VoteMissesUnsplittable({Text(x)}, Text(x), vote({Text(x)}));
    assert Lookup(o, {Text(x)}, Text(x)) == Ok(0.0);
    var r := Explore(c, o, Text(x), 1, InitialRun);
    assert r.run.output == [Entry(generate(Text(x), 1), 0.0)];
  }
}
