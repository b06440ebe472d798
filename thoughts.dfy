/** The values the search engine works on: reasoning states, the oracle
    ("language model") it queries, the record of oracle requests, and the
    exceptions a run can raise. */
module Thoughts {
  import opened Wrappers

  /** A reasoning state. The root problem reaches the engine as a bare Python
      `str` (`Text`); every state built by the engine is a tuple of steps
      (`Steps`). A `str` never compares equal to a tuple. */
  datatype State = Text(text: string) | Steps(steps: seq<string>)

  /** Exceptions that escape a search and the driver. */
  datatype Error =
    | InvalidSearchAlgorithm    // ValueError raised by `solve` for a mode other than 'BFS'/'DFS'
    | InvalidEvaluationStrategy // ValueError raised by `evaluate_states` for a strategy other than 'value'/'vote'
    | MissingScore              // KeyError: the score map lacks a state the engine looks up
    | UnboundFrontier           // UnboundLocalError: `St` is read although no beam round ran
    | EmptyFrontier             // ValueError: `max` over an empty final beam

  /** The abstract language model: `generate_thoughts(state, k)` and
      `evaluate_states(states)`, as deterministic functions. */
  datatype Oracle = Oracle(
    generate: (State, int) -> seq<string>,
    evaluate: set<State> -> Result<map<State, real>, Error>)

  /** One request to the oracle, recorded in the order the engine issues it. */
  datatype Call = Generate(state: State, n: int) | Evaluate(states: set<State>)

  /** Python's `(*s, z)`: splatting a `str` yields its characters one by one. */
  function Chars(x: string): (r: seq<string>)
    ensures |r| == |x|
    ensures forall i :: 0 <= i < |x| ==> r[i] == [x[i]]
  {
    seq(|x|, i requires 0 <= i < |x| => [x[i]])
  }

  /** The number of steps of a state; a root string counts its characters,
      which is what splatting it yields. */
  function Length(s: State): nat
  {
    match s
    case Text(x) => |x|
    case Steps(ss) => |ss|
  }

  /** The child state `(*s, z)`: the parent's steps followed by one more step. */
  function Extend(s: State, z: string): (r: State)
    ensures r.Steps? && |r.steps| > 0 && r.steps[|r.steps| - 1] == z
    ensures r.steps[..|r.steps| - 1] == (if s.Steps? then s.steps else Chars(s.text))
  {
    match s
    case Text(x) => Steps(Chars(x) + [z])
    case Steps(ss) => Steps(ss + [z])
  }
}
