/** Beam search, `TreeofThoughts.tot_bfs`: T rounds, each extending every
    frontier state by every thought generated for it, scoring all candidates
    in one call and keeping the b best by a stable descending sort; the
    answer is a fresh single thought generated from the best state of the
    last round.

    The candidate set is a Python `set`, whose iteration order is decided by
    string hashing and differs from run to run; the sort is stable, so that
    order breaks ties. The model leaves it open: `BeamRound` picks the
    elements in an arbitrary order, and its contract covers every order. */
module Beam {
  import opened Wrappers
  import opened Thoughts
  import opened Ordering
  import Scoring

  /** `{(*s, z) for s in S0 for z in generate_thoughts(s, k)}` */
  function Candidates(o: Oracle, frontier: set<State>, k: int): set<State>
  {
    set s, z | s in frontier && z in o.generate(s, k) :: Extend(s, z)
  }

  /** From a frontier of tuples, a candidate is exactly a tuple whose last
      step was generated for the tuple of its earlier steps, a frontier
      state; the set holds each such tuple once. */
  lemma CandidateOrigin(o: Oracle, frontier: set<State>, k: int, c: State)
    requires forall s :: s in frontier ==> s.Steps?
    ensures c in Candidates(o, frontier, k) <==>
      && c.Steps? && |c.steps| > 0
      && Steps(c.steps[..|c.steps| - 1]) in frontier
      && c.steps[|c.steps| - 1] in o.generate(Steps(c.steps[..|c.steps| - 1]), k)
  {
    if c.Steps? && |c.steps| > 0 {
      var parent, z := Steps(c.steps[..|c.steps| - 1]), c.steps[|c.steps| - 1];
      assert c == Extend(parent, z);
    }
  }

  /** From the root string, the candidates are its characters followed by
      one generated thought. */
  lemma RootCandidates(o: Oracle, x: string, k: int, c: State)
    ensures c in Candidates(o, {Text(x)}, k) <==>
      exists z :: z in o.generate(Text(x), k) && c == Steps(Chars(x) + [z])
  {
    if c in Candidates(o, {Text(x)}, k) {
      var s, z :| s in {Text(x)} && z in o.generate(s, k) && c == Extend(s, z);
      assert s == Text(x);
    }
  }

  /** Every candidate is one step longer than the frontier it extends. */
  lemma CandidateLength(o: Oracle, frontier: set<State>, k: int, n: int)
    requires forall s :: s in frontier ==> Length(s) == n
    ensures forall c :: c in Candidates(o, frontier, k) ==> Length(c) == n + 1
  {
    forall c | c in Candidates(o, frontier, k)
      ensures Length(c) == n + 1
    {
      var s, z :| s in frontier && z in o.generate(s, k) && c == Extend(s, z);
    }
  }

  // ---------------------------------------------------------------------
  // sorted(S, key=lambda s: Vt[s], reverse=True)
  // ---------------------------------------------------------------------

  predicate Scored(xs: seq<State>, v: map<State, real>)
  {
    forall i :: 0 <= i < |xs| ==> xs[i] in v
  }

  predicate Descending(xs: seq<State>, v: map<State, real>)
    requires Scored(xs, v)
  {
    forall i, j :: 0 <= i < j < |xs| ==> v[xs[i]] >= v[xs[j]]
  }

  /** Places `x` after every element scoring at least as much, so that equal
      scores keep their input order. */
  function InsertByScore(x: State, s: seq<State>, v: map<State, real>): seq<State>
    requires x in v && Scored(s, v)
  {
    if s == [] || v[x] > v[s[0]] then [x] + s
    else [s[0]] + InsertByScore(x, s[1..], v)
  }

  lemma {:induction false} InsertByScorePermutes(x: State, s: seq<State>, v: map<State, real>)
    requires x in v && Scored(s, v)
    ensures multiset(InsertByScore(x, s, v)) == multiset(s) + multiset{x}
  {
    if s != [] && v[x] <= v[s[0]] {
      InsertByScorePermutes(x, s[1..], v);
      assert s == [s[0]] + s[1..];
    }
  }

  /** An upper bound of `x` and of every element of `s` bounds the insertion. */
  lemma {:induction false} InsertByScoreBounded(x: State, s: seq<State>, v: map<State, real>, top: real)
    requires x in v && Scored(s, v)
    requires v[x] <= top && forall j :: 0 <= j < |s| ==> v[s[j]] <= top
    ensures forall j :: 0 <= j < |InsertByScore(x, s, v)| ==>
      InsertByScore(x, s, v)[j] in v && v[InsertByScore(x, s, v)[j]] <= top
  {
    if s != [] && v[x] <= v[s[0]] {
      InsertByScoreBounded(x, s[1..], v, top);
      var rest := InsertByScore(x, s[1..], v);
      forall j | 0 <= j < |rest| + 1 ensures ([s[0]] + rest)[j] in v && v[([s[0]] + rest)[j]] <= top {
        if j > 0 { assert ([s[0]] + rest)[j] == rest[j - 1]; }
      }
    } else {
      forall j | 0 <= j < |s| + 1 ensures ([x] + s)[j] in v && v[([x] + s)[j]] <= top {
        if j > 0 { assert ([x] + s)[j] == s[j - 1]; }
      }
    }
  }

  lemma {:induction false} InsertByScoreDescending(x: State, s: seq<State>, v: map<State, real>)
    requires x in v && Scored(s, v) && Descending(s, v)
    ensures Scored(InsertByScore(x, s, v), v)
    ensures Descending(InsertByScore(x, s, v), v)
  {
    if s == [] {
    } else if v[x] > v[s[0]] {
      var r := [x] + s;
      forall i, j | 0 <= i < j < |r| ensures v[r[i]] >= v[r[j]] {
        assert r[j] == s[j - 1];
        if i > 0 { assert r[i] == s[i - 1]; }
      }
    } else {
      var rest := InsertByScore(x, s[1..], v);
      InsertByScoreDescending(x, s[1..], v);
      forall j | 0 <= j < |s[1..]| ensures v[s[1..][j]] <= v[s[0]] {
        assert s[1..][j] == s[j + 1];
      }
      InsertByScoreBounded(x, s[1..], v, v[s[0]]);
      var r := [s[0]] + rest;
      forall i, j | 0 <= i < j < |r| ensures v[r[i]] >= v[r[j]] {
        assert r[j] == rest[j - 1];
        if i > 0 { assert r[i] == rest[i - 1]; }
      }
    }
  }

  /** Python's stable `sorted(..., reverse=True)` by score. */
  function SortByScore(xs: seq<State>, v: map<State, real>): (r: seq<State>)
    requires Scored(xs, v)
    ensures Scored(r, v) && Descending(r, v)
    ensures multiset(r) == multiset(xs)
  {
    if xs == [] then []
    else
      var n := |xs| - 1;
      assert xs == xs[..n] + [xs[n]];
      var sorted := SortByScore(xs[..n], v);
      InsertByScorePermutes(xs[n], sorted, v);
      InsertByScoreDescending(xs[n], sorted, v);
      InsertByScore(xs[n], sorted, v)
  }

  // ---------------------------------------------------------------------
  // One round: what it keeps, and the round as a method
  // ---------------------------------------------------------------------

  /** `kept` is what `sorted(cands, key, reverse=True)[:b]` can return for some
      iteration order of `cands`: distinct candidates, as many as the slice
      allows, best first, and none scoring below a dropped candidate. */
  predicate IsTopB(cands: set<State>, v: map<State, real>, b: int, kept: seq<State>)
    requires cands <= v.Keys
  {
    && Distinct(kept)
    && (forall i :: 0 <= i < |kept| ==> kept[i] in cands)
    && |kept| == SliceLen(|cands|, b)
    && (forall i, j :: 0 <= i < j < |kept| ==> v[kept[i]] >= v[kept[j]])
    && (forall s, i :: s in cands && s !in kept && 0 <= i < |kept| ==> v[s] <= v[kept[i]])
  }

  /** Sorting any listing of the candidates and slicing meets `IsTopB`. */
  lemma TopBOfSorted(cands: set<State>, v: map<State, real>, b: int, listing: seq<State>)
    requires cands <= v.Keys && IsListing(cands, listing)
    ensures Scored(listing, v)
    ensures IsTopB(cands, v, b, SliceTo(SortByScore(listing, v), b))
  {
    var sorted := SortByScore(listing, v);
    var kept := SliceTo(sorted, b);
    ListingSize(cands, listing);
    DistinctPermutation(listing, sorted);
    assert |sorted| == |listing| by {
      assert |multiset(sorted)| == |multiset(listing)|;
    }
    forall i | 0 <= i < |kept| ensures kept[i] in cands {
      assert kept[i] == sorted[i] && sorted[i] in multiset(sorted);
    }
    forall s, i | s in cands && s !in kept && 0 <= i < |kept| ensures v[s] <= v[kept[i]] {
      assert s in multiset(listing);
      var j :| 0 <= j < |sorted| && sorted[j] == s;
      assert kept == sorted[..|kept|];
      assert kept[i] == sorted[i];
    }
  }

  /** Python's `set(St)`. */
  function Members(xs: seq<State>): set<State>
  {
    set s | s in xs
  }

  /** One round of the beam. */
  datatype Round = Round(candidates: set<State>, scores: map<State, real>, kept: seq<State>)

  /** What a round from `frontier` yields: the error raised by the scoring
      call, a KeyError when the scores miss a candidate, or the b best. */
  ghost predicate RoundOutcome(o: Oracle, frontier: set<State>, k: int, b: int, r: Result<Round, Error>)
  {
    var cands := Candidates(o, frontier, k);
    match o.evaluate(cands)
    case Err(e) => r == Err(e)
    case Ok(v) =>
      if cands <= v.Keys then
        r.Ok? && r.value.candidates == cands && r.value.scores == v && IsTopB(cands, v, b, r.value.kept)
      else r == Err(MissingScore)
  }

  /** Iterating over a set: every element once, in whatever order the set
      yields them. */
  method Enumerate(cands: set<State>) returns (listing: seq<State>)
    ensures IsListing(cands, listing)
  {
    listing := [];
    var rest := cands;
    while rest != {}
      invariant rest <= cands
      invariant Distinct(listing)
      invariant forall i :: 0 <= i < |listing| ==> listing[i] in cands && listing[i] !in rest
      invariant forall s :: s in cands && s !in rest ==> s in listing
      decreases |rest|
    {
      var s :| s in rest;
      listing := listing + [s];
      rest := rest - {s};
    }
  }

  method BeamRound(o: Oracle, frontier: set<State>, k: int, b: int) returns (r: Result<Round, Error>)
    ensures RoundOutcome(o, frontier, k, b, r)
  {
    var cands := Candidates(o, frontier, k);
    var scores := o.evaluate(cands);
    if scores.Err? {
      return Err(scores.error);
    }
    var v := scores.value;
    if !(cands <= v.Keys) {
      return Err(MissingScore);
    }
    var listing := Enumerate(cands);
    TopBOfSorted(cands, v, b, listing);
    var kept := SliceTo(SortByScore(listing, v), b);
    r := Ok(Round(cands, v, kept));
  }

  /** The new frontier `set(St)` has exactly as many states as were kept,
      never more than b. */
  lemma FrontierSize(cands: set<State>, v: map<State, real>, b: int, kept: seq<State>)
    requires cands <= v.Keys && IsTopB(cands, v, b, kept)
    ensures |Members(kept)| == |kept| <= |cands|
    ensures b >= 0 ==> |Members(kept)| <= b
  {
    ListingSize(Members(kept), kept);
  }

  /** Without tied scores the kept set does not depend on the iteration
      order: every admissible outcome keeps the same states. */
  lemma TopBDeterminedWithoutTies(cands: set<State>, v: map<State, real>, b: int, k1: seq<State>, k2: seq<State>)
    requires cands <= v.Keys
    requires forall s, s' :: s in cands && s' in cands && s != s' ==> v[s] != v[s']
    requires IsTopB(cands, v, b, k1) && IsTopB(cands, v, b, k2)
    ensures Members(k1) == Members(k2)
  {
    var s1, s2 := Members(k1), Members(k2);
    ListingSize(s1, k1);
    ListingSize(s2, k2);
    if s1 != s2 {
      if s2 <= s1 { SubsetSameSize(s2, s1); }
      if s1 <= s2 { SubsetSameSize(s1, s2); }
      assert false;
    }
  }

  /** When every candidate scores the same, any distinct candidates of the
      slice length are a top-b outcome: the iteration order alone decides. */
  lemma TiedKeepAny(cands: set<State>, v: map<State, real>, b: int, kept: seq<State>)
    requires cands <= v.Keys
    requires forall c, d :: c in cands && d in cands ==> v[c] == v[d]
    requires Distinct(kept) && (forall i :: 0 <= i < |kept| ==> kept[i] in cands)
    requires |kept| == SliceLen(|cands|, b)
    ensures IsTopB(cands, v, b, kept)
  {
  }

  /** A first-round candidate keeps the root's characters as steps, so a
      whitespace character of the root is a step that is not a word. */
  lemma SpacedRootStep(o: Oracle, x: string, k: int, i: int, c: State)
    requires 0 <= i < |x| && Scoring.IsSpace(x[i])
    requires c in Candidates(o, {Text(x)}, k)
    ensures c.Steps? && i < |c.steps| && !Scoring.IsWord(c.steps[i])
  {
    RootCandidates(o, x, k, c);
    var z :| z in o.generate(Text(x), k) && c == Steps(Chars(x) + [z]);
    assert c.steps[i] == [x[i]];
    assert c.steps[i][0] == x[i];
  }

  /** In vote mode a root string holding whitespace splats into a whitespace
      step in every first-round candidate, so no vote can match any of them:
      every candidate scores 0, and set iteration order alone decides the
      first beam (`TiedKeepAny`). */
  lemma VoteModeSpacedRootTies(generate: (State, int) -> seq<string>, valueOf: State -> real,
                               vote: set<State> -> string, x: string, k: int)
    requires exists i :: 0 <= i < |x| && Scoring.IsSpace(x[i])
    ensures var cands := Candidates(Scoring.LanguageModel("vote", generate, valueOf, vote), {Text(x)}, k);
      Scoring.LanguageModel("vote", generate, valueOf, vote).evaluate(cands)
        == Ok(map c | c in cands :: 0.0)
  {
    var o := Scoring.LanguageModel("vote", generate, valueOf, vote);
    var cands := Candidates(o, {Text(x)}, k);
    var scores := Scoring.VoteScores(cands, vote(cands));
    assert o.evaluate(cands) == Ok(scores);
    var i :| 0 <= i < |x| && Scoring.IsSpace(x[i]);
    forall c | c in cands
      ensures scores[c] == 0.0
    {
      SpacedRootStep(o, x, k, i, c);
      Scoring.VoteMissesUnsplittable(cands, c, vote(cands));
    }
    assert scores == map c | c in cands :: 0.0;
  }

  // ---------------------------------------------------------------------
  // The whole search
  // ---------------------------------------------------------------------

  /** `S0` after the given rounds: `{x}` at first, then `set(St)` of the
      last round. */
  function FrontierAfter(x: string, rounds: seq<Round>): set<State>
  {
    if rounds == [] then {Text(x)} else Members(rounds[|rounds| - 1].kept)
  }

  /** Every recorded round is the outcome of a round from the frontier the
      previous ones left. */
  ghost predicate Chain(o: Oracle, x: string, k: int, b: int, rounds: seq<Round>)
  {
    forall i {:trigger RoundOutcome(o, FrontierAfter(x, rounds[..i]), k, b, Ok(rounds[i]))} ::
      0 <= i < |rounds| ==> RoundOutcome(o, FrontierAfter(x, rounds[..i]), k, b, Ok(rounds[i]))
  }

  lemma ChainExtend(o: Oracle, x: string, k: int, b: int, rounds: seq<Round>, r: Round)
    requires Chain(o, x, k, b, rounds)
    requires RoundOutcome(o, FrontierAfter(x, rounds), k, b, Ok(r))
    ensures Chain(o, x, k, b, rounds + [r])
  {
    var rs := rounds + [r];
    forall i | 0 <= i < |rs|
      ensures RoundOutcome(o, FrontierAfter(x, rs[..i]), k, b, Ok(rs[i]))
    {
      if i < |rounds| {
        assert rs[..i] == rounds[..i] && rs[i] == rounds[i];
        assert RoundOutcome(o, FrontierAfter(x, rounds[..i]), k, b, Ok(rounds[i]));
      } else {
        assert rs[..i] == rounds;
      }
    }
  }

  /** The runs of `tot_bfs(x, k, T, b)`, with `rounds` the rounds that completed:
      T < 1 reads `St` before any assignment; a round may raise; otherwise the
      answer is generated from the head of the last beam, or `max` fails on an
      empty beam. */
  ghost predicate BfsRun(o: Oracle, x: string, k: int, T: int, b: int, rounds: seq<Round>, r: Result<seq<string>, Error>)
  {
    if T < 1 then rounds == [] && r == Err(UnboundFrontier)
    else
      && |rounds| <= T
      && Chain(o, x, k, b, rounds)
      && if |rounds| < T then
           r.Err? && RoundOutcome(o, FrontierAfter(x, rounds), k, b, Err(r.error))
         else if rounds[T - 1].kept == [] then
           r == Err(EmptyFrontier)
         else
           r == Ok(o.generate(rounds[T - 1].kept[0], 1))
  }

  method TotBfs(o: Oracle, x: string, k: int, T: int, b: int)
    returns (r: Result<seq<string>, Error>, ghost rounds: seq<Round>)
    ensures BfsRun(o, x, k, T, b, rounds, r)
    ensures T < 1 ==> r == Err(UnboundFrontier)
    ensures r.Ok? ==> T >= 1 && exists s :: Length(s) == |x| + T && r.value == o.generate(s, 1)
  {
    var S0 := {Text(x)};
    var last: Option<Round> := None;  // St and Vt, unbound until a round runs
    rounds := [];
    var t := 1;
    while t <= T
      invariant 1 <= t <= (if T >= 1 then T + 1 else 1)
      invariant |rounds| == t - 1
      invariant Chain(o, x, k, b, rounds)
      invariant S0 == FrontierAfter(x, rounds)
      invariant last == if rounds == [] then None else Some(rounds[|rounds| - 1])
      invariant forall s :: s in S0 ==> Length(s) == |x| + t - 1
    {
      var round := BeamRound(o, S0, k, b);
      if round.Err? {
        r := Err(round.error);
        return;
      }
      ChainExtend(o, x, k, b, rounds, round.value);
      CandidateLength(o, S0, k, |x| + t - 1);
      forall s | s in Members(round.value.kept)
        ensures Length(s) == |x| + t
      {
        var i :| 0 <= i < |round.value.kept| && round.value.kept[i] == s;
      }
      rounds := rounds + [round.value];
      last := Some(round.value);
      S0 := Members(round.value.kept);
      t := t + 1;
    }
    if last.None? {
      r := Err(UnboundFrontier);
      return;
    }
    var St, Vt := last.value.kept, last.value.scores;
    assert RoundOutcome(o, FrontierAfter(x, rounds[..T - 1]), k, b, Ok(rounds[T - 1]));
    if St == [] {
      r := Err(EmptyFrontier);
      return;
    }
    var keys := seq(|St|, i requires 0 <= i < |St| => Vt[St[i]]);
    ArgMaxOfDescending(keys);
    var best := ArgMax(keys);
    assert St[best] in S0;
    r := Ok(o.generate(St[best], 1));
  }

  /** The answer comes from a state of the last beam that no candidate of
      that round outscores. */
  lemma BfsAnswerIsBest(o: Oracle, x: string, k: int, T: int, b: int, rounds: seq<Round>, r: Result<seq<string>, Error>)
    requires BfsRun(o, x, k, T, b, rounds, r) && r.Ok?
    ensures T >= 1 && |rounds| == T
    ensures var last := rounds[T - 1];
      && |last.kept| > 0 && last.kept[0] in last.candidates && last.kept[0] in last.scores
      && r.value == o.generate(last.kept[0], 1)
      && forall c :: c in last.candidates ==> c in last.scores && last.scores[c] <= last.scores[last.kept[0]]
  {
    var last := rounds[T - 1];
    assert RoundOutcome(o, FrontierAfter(x, rounds[..T - 1]), k, b, Ok(last));
    forall c | c in last.candidates
      ensures c in last.scores && last.scores[c] <= last.scores[last.kept[0]]
    {
      if c in last.kept {
        var i :| 0 <= i < |last.kept| && last.kept[i] == c;
      }
    }
  }
}
