/** What the retry driver promises, proved about `Solve.SolveSpec`. */
module SolveProperties {
  import opened Wrappers
  import opened Thoughts
  import opened Scoring
  import opened Dfs
  import opened DfsProperties
  import opened Solve

  /** `solve` raises for an unknown algorithm without running a search;
      otherwise it returns an exception or a truthy result of its last
      search, or None once every attempt in the budget came back falsy.
      A falsy result such as an empty BFS list never comes back. */
  lemma SolveResult(algorithm: string, oracleAt: nat -> Oracle, x: string, k: int, T: int, b: int,
                    vth: real, tu: Tunables, attempts: nat,
                    outcomes: seq<Result<Option<Answer>, Error>>, r: Result<Option<Answer>, Error>)
    requires SolveSpec(algorithm, oracleAt, x, k, T, b, vth, tu, attempts, outcomes, r)
    ensures !KnownAlgorithm(algorithm) <==> r == Err(InvalidSearchAlgorithm) && outcomes == []
    ensures r.Ok? && r.value.Some? ==> Truthy(r.value)
    ensures Ends(r) && KnownAlgorithm(algorithm) ==> |outcomes| > 0 && r == outcomes[|outcomes| - 1]
    ensures r == Ok(None) ==> |outcomes| == attempts && forall i :: 0 <= i < |outcomes| ==> !Ends(outcomes[i])
  {
    if KnownAlgorithm(algorithm) && |outcomes| == 0 {
      assert r == Ok(None);
    }
  }

  /** When the attempts before `n` come back empty and attempt `n` finds an
      entry, and the budget allows `n + 1` attempts, `solve` runs exactly
      `n + 1` searches and returns that entry unchanged. */
  lemma FirstTruthyDfsAttemptWins(oracleAt: nat -> Oracle, x: string, k: int, T: int, b: int,
                                  vth: real, tu: Tunables, attempts: nat, n: nat, e: Entry,
                                  outcomes: seq<Result<Option<Answer>, Error>>, r: Result<Option<Answer>, Error>)
    requires forall i: nat :: i < n ==> DfsResult(Config(k, T, vth, tu), oracleAt(i), x) == Ok(None)
    requires DfsResult(Config(k, T, vth, tu), oracleAt(n), x) == Ok(Some(e))
    requires n < attempts
    requires SolveSpec("DFS", oracleAt, x, k, T, b, vth, tu, attempts, outcomes, r)
    ensures |outcomes| == n + 1
    ensures r == Ok(Some(DfsAnswer(e)))
  {
    assert KnownAlgorithm("DFS");
    forall i | 0 <= i < |outcomes| && i <= n
      ensures outcomes[i] == FromDfs(DfsResult(Config(k, T, vth, tu), oracleAt(i), x))
    {
      assert AttemptOutcome("DFS", oracleAt(i), x, k, T, b, vth, tu, outcomes[i]);
    }
  }

  /** When no attempt's search finds anything, `solve` spends the whole
      budget and returns None (with no deadline it would loop forever). */
  lemma EmptyDfsAttemptsExhaustBudget(oracleAt: nat -> Oracle, x: string, k: int, T: int, b: int,
                                      vth: real, tu: Tunables, attempts: nat,
                                      outcomes: seq<Result<Option<Answer>, Error>>, r: Result<Option<Answer>, Error>)
    requires forall i: nat :: DfsResult(Config(k, T, vth, tu), oracleAt(i), x) == Ok(None)
    requires SolveSpec("DFS", oracleAt, x, k, T, b, vth, tu, attempts, outcomes, r)
    ensures r == Ok(None) && |outcomes| == attempts
  {
    assert KnownAlgorithm("DFS");
    if |outcomes| > 0 {
      var last := |outcomes| - 1;
      assert AttemptOutcome("DFS", oracleAt(last), x, k, T, b, vth, tu, outcomes[last]);
      assert !Ends(outcomes[last]);
    }
  }

  /** With vote-mode scoring, at least one level to expand, and a pruning
      test that a score of 0 fails, DFS `solve` never succeeds: every attempt
      returns None, whatever the model generates or votes on each attempt. */
  lemma VoteModeDfsNeverSolves(generateAt: nat -> ((State, int) -> seq<string>), valueOf: State -> real,
                               voteAt: nat -> (set<State> -> string), oracleAt: nat -> Oracle,
                               x: string, k: int, T: int, b: int, vth: real, tu: Tunables, attempts: nat,
                               outcomes: seq<Result<Option<Answer>, Error>>, r: Result<Option<Answer>, Error>)
    requires forall i: nat :: oracleAt(i) == LanguageModel("vote", generateAt(i), valueOf, voteAt(i))
    requires T >= 1 && !Admits(Config(k, T, vth, tu), 0.0)
    requires SolveSpec("DFS", oracleAt, x, k, T, b, vth, tu, attempts, outcomes, r)
    ensures r == Ok(None) && |outcomes| == attempts
  {
    forall i: nat
      ensures DfsResult(Config(k, T, vth, tu), oracleAt(i), x) == Ok(None)
    {
      VoteModeDfsNoResult(Config(k, T, vth, tu), generateAt(i), valueOf, voteAt(i), x);
    }
    EmptyDfsAttemptsExhaustBudget(oracleAt, x, k, T, b, vth, tu, attempts, outcomes, r);
  }

  /** Both `solve` methods fix `pruning_threshold` at 0.5, which a score of 0
      fails for every `vth`: in vote mode with `T >= 1` their DFS spends the
      whole budget and returns None. */
  lemma VoteModeSolveNeverSolves(generateAt: nat -> ((State, int) -> seq<string>), valueOf: State -> real,
                                 voteAt: nat -> (set<State> -> string), oracleAt: nat -> Oracle,
                                 x: string, k: int, T: int, b: int, vth: real, tu: Tunables, attempts: nat,
                                 outcomes: seq<Result<Option<Answer>, Error>>, r: Result<Option<Answer>, Error>)
    requires forall i: nat :: oracleAt(i) == LanguageModel("vote", generateAt(i), valueOf, voteAt(i))
    requires T >= 1 && tu.pruning == Some(0.5)
    requires SolveSpec("DFS", oracleAt, x, k, T, b, vth, tu, attempts, outcomes, r)
    ensures r == Ok(None) && |outcomes| == attempts
  {
    assert !Admits(Config(k, T, vth, tu), 0.0);
    VoteModeDfsNeverSolves(generateAt, valueOf, voteAt, oracleAt, x, k, T, b, vth, tu, attempts, outcomes, r);
  }
}
