/** The retry driver `solve` of `TreeofThoughts` and of
    `OptimizedTreeofThoughts`. The wall-clock deadline becomes an attempt
    budget: `attempts` is how many searches start before the deadline
    passes. The language model may answer differently on every attempt, so
    attempt `i` runs against `oracleAt(i)`. */
module Solve {
  import opened Wrappers
  import opened Thoughts
  import opened Beam
  import opened Dfs

  /** What a search hands back: the BFS thought list, or the DFS output entry. */
  datatype Answer = BfsAnswer(thoughts: seq<string>) | DfsAnswer(entry: Entry)

  /** Python truthiness of a search result: None and an empty list are false,
      a `(thought, value)` tuple is always true. */
  predicate Truthy(a: Option<Answer>)
  {
    match a
    case None => false
    case Some(BfsAnswer(ts)) => ts != []
    case Some(DfsAnswer(_)) => true
  }

  /** An attempt ends `solve` when it raised or returned something truthy. */
  predicate Ends(out: Result<Option<Answer>, Error>)
  {
    out.Err? || Truthy(out.value)
  }

  function FromBfs(r: Result<seq<string>, Error>): Result<Option<Answer>, Error>
  {
    match r
    case Err(e) => Err(e)
    case Ok(ts) => Ok(Some(BfsAnswer(ts)))
  }

  function FromDfs(r: Result<Option<Entry>, Error>): Result<Option<Answer>, Error>
  {
    match r
    case Err(e) => Err(e)
    case Ok(None) => Ok(None)
    case Ok(Some(e)) => Ok(Some(DfsAnswer(e)))
  }

  predicate KnownAlgorithm(algorithm: string)
  {
    algorithm == "BFS" || algorithm == "DFS"
  }

  /** One search run: `tot_bfs(x, k, T, b)` or `tot_dfs(x, k, T, vth, ...)`. */
  ghost predicate AttemptOutcome(algorithm: string, o: Oracle, x: string, k: int, T: int, b: int,
                                 vth: real, tu: Tunables, out: Result<Option<Answer>, Error>)
  {
    if algorithm == "BFS" then
      exists res, rounds :: BfsRun(o, x, k, T, b, rounds, res) && out == FromBfs(res)
    else
      out == FromDfs(DfsResult(Config(k, T, vth, tu), o, x))
  }

  /** `solve`: an unknown algorithm raises before any search; otherwise
      searches run one after another while the budget lasts, every one but the
      last returning something falsy; the first that raises or returns
      something truthy decides the result, and None comes back when the
      budget runs out first. */
  ghost predicate SolveSpec(algorithm: string, oracleAt: nat -> Oracle, x: string, k: int, T: int, b: int,
                            vth: real, tu: Tunables, attempts: nat,
                            outcomes: seq<Result<Option<Answer>, Error>>, r: Result<Option<Answer>, Error>)
  {
    if !KnownAlgorithm(algorithm) then
      outcomes == [] && r == Err(InvalidSearchAlgorithm)
    else
      && |outcomes| <= attempts
      && (forall i {:trigger AttemptOutcome(algorithm, oracleAt(i), x, k, T, b, vth, tu, outcomes[i])} ::
            0 <= i < |outcomes| ==> AttemptOutcome(algorithm, oracleAt(i), x, k, T, b, vth, tu, outcomes[i]))
      && (forall i :: 0 <= i < |outcomes| - 1 ==> !Ends(outcomes[i]))
      && if |outcomes| > 0 && Ends(outcomes[|outcomes| - 1]) then
           r == outcomes[|outcomes| - 1]
         else
           |outcomes| == attempts && r == Ok(None)
  }

  /** One search run, as the loop body starts it. */
  method Attempt(algorithm: string, o: Oracle, x: string, k: int, T: int, b: int, vth: real, tu: Tunables)
    returns (out: Result<Option<Answer>, Error>)
    requires KnownAlgorithm(algorithm)
    ensures AttemptOutcome(algorithm, o, x, k, T, b, vth, tu, out)
  {
    if algorithm == "BFS" {
      var res, rounds := TotBfs(o, x, k, T, b);
      out := FromBfs(res);
    } else {
      var res := TotDfs(o, x, k, T, vth, tu);
      out := FromDfs(res);
    }
  }

  /** The loop both `solve` methods share. */
  method Retry(algorithm: string, oracleAt: nat -> Oracle, x: string, k: int, T: int, b: int,
               vth: real, tu: Tunables, attempts: nat)
    returns (r: Result<Option<Answer>, Error>, ghost outcomes: seq<Result<Option<Answer>, Error>>)
    ensures SolveSpec(algorithm, oracleAt, x, k, T, b, vth, tu, attempts, outcomes, r)
    ensures !KnownAlgorithm(algorithm) ==> r == Err(InvalidSearchAlgorithm)
    ensures r.Ok? && r.value.Some? ==> Truthy(r.value)
    ensures KnownAlgorithm(algorithm) && attempts == 0 ==> r == Ok(None)
  {
    if !KnownAlgorithm(algorithm) {
      return Err(InvalidSearchAlgorithm), [];
    }
    outcomes := [];
    var i := 0;
    while i < attempts
      invariant 0 <= i <= attempts && |outcomes| == i
      invariant forall j {:trigger AttemptOutcome(algorithm, oracleAt(j), x, k, T, b, vth, tu, outcomes[j])} ::
        0 <= j < i ==> AttemptOutcome(algorithm, oracleAt(j), x, k, T, b, vth, tu, outcomes[j])
      invariant forall j :: 0 <= j < i ==> !Ends(outcomes[j])
    {
      var out := Attempt(algorithm, oracleAt(i), x, k, T, b, vth, tu);
      ghost var before := outcomes;
      outcomes := outcomes + [out];
      forall j | 0 <= j <= i
        ensures AttemptOutcome(algorithm, oracleAt(j), x, k, T, b, vth, tu, outcomes[j])
      {
        if j < i {
          assert outcomes[j] == before[j];
        }
      }
      if Ends(out) {
        return out, outcomes;
      }
      i := i + 1;
    }
    return Ok(None), outcomes;
  }

  /** `TreeofThoughts.solve`: the DFS tunables keep their defaults. */
  method Solve(algorithm: string, oracleAt: nat -> Oracle, x: string, k: int, T: int, b: int,
               vth: real, attempts: nat)
    returns (r: Result<Option<Answer>, Error>, ghost outcomes: seq<Result<Option<Answer>, Error>>)
    ensures SolveSpec(algorithm, oracleAt, x, k, T, b, vth, DefaultTunables, attempts, outcomes, r)
    ensures !KnownAlgorithm(algorithm) ==> r == Err(InvalidSearchAlgorithm)
    ensures r.Ok? && r.value.Some? ==> Truthy(r.value)
  {
    r, outcomes := Retry(algorithm, oracleAt, x, k, T, b, vth, DefaultTunables, attempts);
  }

  /** `OptimizedTreeofThoughts.solve`: the stop-rule tunables are passed on,
      but `pruning_threshold` is not, so it stays at its default 0.5. */
  method OptimizedSolve(algorithm: string, oracleAt: nat -> Oracle, x: string, k: int, T: int, b: int,
                        vth: real, attempts: nat, confidence: Option<real>, maxIterations: Option<int>,
                        convergenceThreshold: Option<real>, convergenceCount: Option<int>)
    returns (r: Result<Option<Answer>, Error>, ghost outcomes: seq<Result<Option<Answer>, Error>>)
    ensures SolveSpec(algorithm, oracleAt, x, k, T, b, vth,
                      Tunables(Some(0.5), confidence, maxIterations, convergenceThreshold, convergenceCount),
                      attempts, outcomes, r)
    ensures !KnownAlgorithm(algorithm) ==> r == Err(InvalidSearchAlgorithm)
    ensures r.Ok? && r.value.Some? ==> Truthy(r.value)
  {
    var tu := Tunables(Some(0.5), confidence, maxIterations, convergenceThreshold, convergenceCount);
    r, outcomes := Retry(algorithm, oracleAt, x, k, T, b, vth, tu, attempts);
  }
}
