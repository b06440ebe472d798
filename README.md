# Tree of Thoughts search engine, modelled in Dafny

This project models the search engine of `tree_of_thoughts/treeofthoughts.py`. The engine is the classes
`TreeofThoughts` and `OptimizedTreeofThoughts`. It runs over a language model with two operations:
`generate_thoughts(state, k)` and `evaluate_states(states)`. The model covers:

- **Beam search** (`tot_bfs`, module `Beam`). It runs T rounds. Each round extends every frontier state by
  every thought generated for it. It scores the whole candidate set in one call and keeps the b best by a
  stable descending sort. The answer is one fresh thought generated from the best state of the last round.
- **Pruned depth-first search** (`tot_dfs` and its nested `dfs`, modules `Dfs` and `DfsProperties`). The
  `nonlocal` run-state is the set of fields of class `Dfs.DfsRun`. The method `DfsRun.Dfs` is proved equal to
  the functions `Explore`/`Children`. Those functions thread the same state as a record, and the lemmas are
  proved about them.
- **The retry driver** (`solve` of both classes, modules `Solve` and `SolveProperties`).
- **Scoring dispatch and vote-mode scoring** of `OpenAILanguageModel.evaluate_states` (module `Scoring`).

The language model is a value `Thoughts.Oracle` holding two total functions. Scoring may raise, so
`evaluate` returns a `Result`. Python exceptions become `Err` values of `Thoughts.Error`:

- a bad search algorithm or evaluation strategy (ValueError);
- a score map that lacks the looked-up state (KeyError);
- reading `St` when no beam round ran (UnboundLocalError);
- `max` over an empty final beam (ValueError).

A state is `Text(...)` for a plain string, the root string or a bare thought that DFS scores on its own, and `Steps(...)` for every tuple the engine builds. Python's
`(*s, z)` on the root string splats it into single characters. So the first level of both searches
extends the characters of `x`, not a one-element tuple `(x,)`. A string never equals a tuple. This matters
in vote mode, described below.

Python's `set` iteration order depends on string hashing and changes from run to run. Beam search sorts a
set with a stable sort, so that order breaks ties between equal scores. `Beam.BeamRound` therefore picks
set elements in an arbitrary order. Its contract (`Beam.IsTopB`) holds for every order. Without ties the
kept set does not depend on the order (`Beam.TopBDeterminedWithoutTies`).

The wall-clock deadline of `solve` is an attempt budget: `attempts` is how many searches start before the
deadline passes. The language model is stochastic, so attempt `i` runs against the oracle `oracleAt(i)`.

A DFS run also records, in `calls`, every request it sends to the oracle, in order. This is what an
instrumented oracle would observe. It also counts, in `stops`, the leaves that returned True. The
admissibility and stop properties are stated over these two records.

Two consequences of the code are easy to miss:

- The root string is not wrapped in a one-element tuple. For the root `"root"` and the thoughts `"a"` and
  `"b"`, the first candidates are `('r','o','o','t','a')` and `('r','o','o','t','b')`, not
  `('root','a')` and `('root','b')` (`Beam.RootCandidates`).
- DFS scores the bare thought `s_prime`, a string, and not the extended tuple. In vote mode the vote is
  compared with a tuple, so every bare thought scores 0 (`DfsProperties.VoteScoresBareThoughtZero`). When
  `T >= 1` and a score of 0 fails the pruning test (`vth >= 0`, or `pruning_threshold` 0.5 as both `solve`
  methods pass), DFS never expands a child and returns None (`DfsProperties.VoteModeDfsNoResult`). DFS
  `solve` in vote mode with `T >= 1` therefore never succeeds: it returns None once the budget is spent
  (`SolveProperties.VoteModeSolveNeverSolves`), and it loops forever without a timeout. With `T < 1` the
  root itself is the leaf, no thought is scored on its own, and the first search answers with the root's
  entry (`DfsProperties.VoteModeDfsShallowAnswers`).
- Beam search in vote mode suffers the same way when the root string holds whitespace. For the root
  `"a b"`, every first-round candidate has the step `' '`, which no split reply can contain. So every
  candidate scores 0, and set iteration order alone decides the first beam (`Beam.VoteModeSpacedRootTies`,
  `Beam.TiedKeepAny`).

## Model

| member | source | states |
|---|---|---|
| Thoughts.Chars | tree_of_thoughts/treeofthoughts.py:245 | splatting the root string yields one single-character step per character, in order |
| Thoughts.Extend | tree_of_thoughts/treeofthoughts.py:245 | `(*s, z)` is a tuple whose last step is `z` and whose earlier steps are the parent's steps, or the root's characters |
| Ordering.SortStrings | tree_of_thoughts/treeofthoughts.py:281 | `sorted` of the generated thoughts is ascending in code-point order and a permutation of its input |
| Ordering.StrLess | tree_of_thoughts/treeofthoughts.py:281 | Python's `<` on `str`, which `sorted` uses; no contract of its own: `Ordering.StrLessIrreflexive`, `Ordering.StrLessTotal` and `Ordering.StrLessTransitive` state that it is a strict total order, and `Ordering.SortStrings` that the children follow it |
| Ordering.StrLessTotal | tree_of_thoughts/treeofthoughts.py:281 | of two different strings, one sorts before the other, so the child order is fully determined |
| Ordering.StrLessIrreflexive | tree_of_thoughts/treeofthoughts.py:281 | no string sorts before itself |
| Ordering.StrLessTransitive | tree_of_thoughts/treeofthoughts.py:281 | the order `sorted` uses is transitive; with irreflexivity and totality it is a strict total order |
| Ordering.ArgMax | tree_of_thoughts/treeofthoughts.py:249 | `max(key=...)` picks an index whose key no other key exceeds, and every earlier key is strictly smaller, so it is the first maximum |
| Ordering.ArgMaxOfDescending | tree_of_thoughts/treeofthoughts.py:247-249 | on keys sorted descending, `max` picks index 0 |
| Ordering.SliceTo | tree_of_thoughts/treeofthoughts.py:247 | `xs[:b]` is a prefix of `xs` whose length is Python's slice length, at most `b` for `b >= 0` |
| Scoring.IsSpace | tree_of_thoughts/treeofthoughts.py:162 | the characters `str.isspace` accepts, which `split()` separates on; no contract of its own: `Scoring.Split` and `Scoring.SplitSpaced` state how it splits |
| Scoring.Split | tree_of_thoughts/treeofthoughts.py:162 | `str.split()` yields only non-empty words without whitespace (which words, for any whitespace, is `Scoring.SplitSpaced`) |
| Scoring.SplitSpaced | tree_of_thoughts/treeofthoughts.py:162 | splitting words interleaved with whitespace runs, the inner runs non-empty and the outer ones possibly empty, gives exactly those words back |
| Scoring.SplitUnstrippedReply | tree_of_thoughts/treeofthoughts.py:162 | an example: the reply `"\n a  b \n"` splits into `["a", "b"]` (the general claim is `Scoring.SplitSpaced`) |
| Scoring.Join | tree_of_thoughts/treeofthoughts.py:157 | `' '.join(state)`; no contract of its own: `Scoring.SplitJoin` proves that splitting undoes it for whitespace-free words |
| Scoring.SplitJoin | tree_of_thoughts/treeofthoughts.py:157-162 | splitting the `' '.join` of whitespace-free words gives those words back |
| Scoring.VoteScores | tree_of_thoughts/treeofthoughts.py:162-163 | the vote map has exactly the input states as keys, every value is 0 or 1, and a state scores 1 exactly when it equals the split vote |
| Scoring.VoteIsUnique | tree_of_thoughts/treeofthoughts.py:162-163 | at most one state scores 1 in a vote |
| Scoring.VoteForJoinedState | tree_of_thoughts/treeofthoughts.py:157-163 | a vote that repeats a state's joined words gives that state 1 and all others 0 |
| Scoring.VoteForSpacedReply | tree_of_thoughts/treeofthoughts.py:162-163 | a vote that spells a state's words with any whitespace between, before and after them gives that state 1 and all others 0 |
| Scoring.VoteMissesUnsplittable | tree_of_thoughts/treeofthoughts.py:162-163 | a root string, or a tuple with a step that is not a single word, always scores 0 in a vote |
| Scoring.EvaluateStates | tree_of_thoughts/treeofthoughts.py:139-166 | succeeds exactly for 'value' and 'vote', otherwise raises the strategy error; its keys are the input states; value mode gives each state its value; vote mode gives the vote scores |
| Scoring.LanguageModel | tree_of_thoughts/treeofthoughts.py:139-166 | the OpenAI-backed oracle keeps the given generator and scores every state set through the strategy dispatch |
| Beam.Candidates | tree_of_thoughts/treeofthoughts.py:245 | the candidate set comprehension; no contract of its own: `Beam.CandidateOrigin`, `Beam.RootCandidates` and `Beam.CandidateLength` characterise it |
| Beam.CandidateOrigin | tree_of_thoughts/treeofthoughts.py:245 | from a frontier of tuples, a state is a candidate exactly when its last step was generated for the tuple of its earlier steps and that tuple is in the frontier |
| Beam.RootCandidates | tree_of_thoughts/treeofthoughts.py:245 | the first round's candidates are exactly the root's characters followed by one thought generated for the root |
| Beam.CandidateLength | tree_of_thoughts/treeofthoughts.py:245 | every candidate has exactly one step more than the frontier states it extends |
| Beam.SortByScore | tree_of_thoughts/treeofthoughts.py:247 | the stable descending sort by score orders its output by non-increasing score and permutes its input |
| Beam.TopBOfSorted | tree_of_thoughts/treeofthoughts.py:247 | sorting any listing of the candidate set and slicing to `b` keeps distinct candidates, the slice length's worth, best first, none scoring below a dropped candidate |
| Beam.Enumerate | tree_of_thoughts/treeofthoughts.py:247 | iterating over the candidate set lists every candidate exactly once, in an order left open |
| Beam.BeamRound | tree_of_thoughts/treeofthoughts.py:245-248 | one round raises what scoring raises, raises KeyError when a candidate has no score, and otherwise keeps the top b of the candidate set, for every iteration order of the set |
| Beam.Members | tree_of_thoughts/treeofthoughts.py:248 | `set(St)`; no contract of its own: `Beam.FrontierSize` states its size |
| Beam.FrontierSize | tree_of_thoughts/treeofthoughts.py:247-248 | the next frontier has as many states as were kept, no more than the candidates and no more than `b` |
| Beam.TiedKeepAny | tree_of_thoughts/treeofthoughts.py:247 | when every candidate scores the same, any distinct candidates of the slice length are a top-b outcome |
| Beam.SpacedRootStep | tree_of_thoughts/treeofthoughts.py:245 | a whitespace character of the root is a step of every first-round candidate that is not a word |
| Beam.VoteModeSpacedRootTies | tree_of_thoughts/treeofthoughts.py:245-247 | in vote mode with a root holding whitespace, scoring the first-round candidates succeeds and gives every one of them 0 |
| Beam.TopBDeterminedWithoutTies | tree_of_thoughts/treeofthoughts.py:245-248 | without tied scores, every admissible round keeps the same set of states |
| Beam.FrontierAfter | tree_of_thoughts/treeofthoughts.py:243-248 | `S0`: `{x}` before any round, then `set(St)` of the last round; no contract of its own: `Beam.TotBfs` chains every round from it |
| Beam.TotBfs | tree_of_thoughts/treeofthoughts.py:242-249 | the search raises UnboundLocalError for T < 1, stops at the first round that raises, raises on an empty final beam, and otherwise answers with one thought generated for the head of the last beam; every round is the top-b outcome from the previous round's frontier; an answer is generated for a state of exactly `|x| + T` steps |
| Beam.BfsAnswerIsBest | tree_of_thoughts/treeofthoughts.py:247-249 | a BFS answer was generated for a state of the last round that no candidate of that round outscores |
| Dfs.DefaultTunables | tree_of_thoughts/treeofthoughts.py:251 | the keyword defaults of `tot_dfs`; no contract of its own: `Solve.Solve` states that `TreeofThoughts.solve` uses them |
| Dfs.Abs | tree_of_thoughts/treeofthoughts.py:268 | `abs` on a score; no contract of its own: `Dfs.Leaf` states the convergence test it takes part in |
| Dfs.Lookup | tree_of_thoughts/treeofthoughts.py:282 | `evaluate_states(asked)[s]` succeeds exactly when scoring succeeds and its map holds `s`, and then yields the map's value for `s`; otherwise it raises the scoring error, or KeyError when scoring succeeded |
| Dfs.Admits | tree_of_thoughts/treeofthoughts.py:283 | the pruning test; no contract of its own: `DfsProperties.OnlyAdmittedExpanded` proves only states passing it are expanded |
| Dfs.Confident | tree_of_thoughts/treeofthoughts.py:264 | the confidence stop rule; no contract of its own: `Dfs.Leaf` and `DfsProperties.FirstConfidentLeafEnds` state its effect |
| Dfs.LimitReached | tree_of_thoughts/treeofthoughts.py:276 | the iteration and convergence stop rules; no contract of its own: `Dfs.Leaf`, `DfsProperties.StopIsFinal` and `DfsProperties.OutputBound` state their effect |
| Dfs.Leaf | tree_of_thoughts/treeofthoughts.py:259-279 | a leaf asks for one thought and one score of itself; a scoring error records nothing; otherwise exactly one entry is appended; a confident value stops with the counters and last value unchanged; otherwise the convergence counter grows when the value is within the threshold of the last one and resets when it is not, the last value becomes this value, the iteration count grows by 1, and the leaf stops exactly when a limit is reached; a leaf that returns True adds one to the count of stopped leaves |
| Dfs.Explore | tree_of_thoughts/treeofthoughts.py:257-287 | `dfs(s, t)` on a record of the run-state; no contract of its own: `Dfs.DfsRun.Dfs` is proved equal to it, and the `DfsProperties` lemmas state its properties |
| Dfs.Children | tree_of_thoughts/treeofthoughts.py:281-287 | the loop over the sorted children, ended by True or an exception from below; no contract of its own: the loop of `Dfs.DfsRun.Dfs` is proved equal to it, and the `DfsProperties` lemmas state its properties |
| Dfs.Values | tree_of_thoughts/treeofthoughts.py:290 | the `x[1]` key of `max` over `output`; its contract gives each entry's score in order, and `Dfs.DfsResult` states the maximum taken over it |
| Dfs.DfsResult | tree_of_thoughts/treeofthoughts.py:289-290 | `tot_dfs` raises exactly when the search raised, and then the search's own exception unchanged; it returns None exactly when nothing was recorded, and otherwise returns the first entry with the highest score: no recorded entry outscores it, and every earlier entry scores strictly less |
| Dfs.DfsRun.constructor | tree_of_thoughts/treeofthoughts.py:252-255 | a run starts with an empty output, zero counters, no last value, no requests and no stopped leaves |
| Dfs.DfsRun.VisitLeaf | tree_of_thoughts/treeofthoughts.py:259-279 | the leaf branch leaves the run-state, and returns the signal, that `Leaf` specifies |
| Dfs.DfsRun.Dfs | tree_of_thoughts/treeofthoughts.py:257-287 | the recursive search leaves the run-state, and returns the signal, that `Explore` specifies from the state before the call |
| Dfs.TotDfs | tree_of_thoughts/treeofthoughts.py:251-290 | the imperative search returns `DfsResult` |
| DfsProperties.OutputBound | tree_of_thoughts/treeofthoughts.py:262-277 | with `max_iterations = m >= 1`, a run records at most m entries, whichever rule stops it |
| DfsProperties.OnlyAdmittedExpanded | tree_of_thoughts/treeofthoughts.py:281-284 | the search asks for children only of the root and of states whose last thought, scored on its own, is above `vth` and not below `pruning_threshold` unless that is None |
| DfsProperties.StopIsFinal | tree_of_thoughts/treeofthoughts.py:262-285 | when the search returns True, its last two requests are the stopping leaf's, that leaf's entry is the last one recorded, and that leaf met a stop rule: no later sibling was generated or scored |
| DfsProperties.ExploreStops | tree_of_thoughts/treeofthoughts.py:257-287 | for any scores and run-state, a search sees one leaf return True, by any stop rule, exactly when it returns True itself, and never more than one |
| DfsProperties.ChildrenStops | tree_of_thoughts/treeofthoughts.py:281-287 | the same for the loop over a state's remaining children: a True from below ends the loop |
| DfsProperties.LeafStopReachesRoot | tree_of_thoughts/treeofthoughts.py:276-285 | at most one leaf returns True, and when one does the root returns True; with `DfsProperties.StopIsFinal`, nothing is asked after it, whether confidence, `max_iterations` or `convergence_count` stopped it |
| DfsProperties.ExploreConfidentLast | tree_of_thoughts/treeofthoughts.py:257-287 | for any scores and any run-state, a search only appends to the output; every appended entry but the last is below the confidence threshold; a search that did not stop appended no confident entry |
| DfsProperties.ChildrenConfidentLast | tree_of_thoughts/treeofthoughts.py:281-287 | the same for the loop over a state's remaining children |
| DfsProperties.FirstConfidentLeafEnds | tree_of_thoughts/treeofthoughts.py:262-265 | for any scores, a confident entry is always the last one recorded and the search then returned True: the first confident leaf ends the search |
| DfsProperties.ConfidentLeafStops | tree_of_thoughts/treeofthoughts.py:262-265 | corollary: when every score reaches the confidence threshold, at most one leaf is recorded and recording it ends the search |
| DfsProperties.NothingAdmittedNoResult | tree_of_thoughts/treeofthoughts.py:280-290 | when every thought generated for the root is scored and pruned, the root's thoughts are scored one by one in ascending order, nothing else is asked, and the result is None |
| DfsProperties.VoteScoresBareThoughtZero | tree_of_thoughts/treeofthoughts.py:282 | in vote mode a bare thought always scores 0 |
| DfsProperties.VoteModeDfsNoResult | tree_of_thoughts/treeofthoughts.py:281-290 | in vote mode with `T >= 1` and a pruning test that a score of 0 fails, DFS returns None |
| DfsProperties.VoteModeDfsShallowAnswers | tree_of_thoughts/treeofthoughts.py:259-290 | in vote mode with `T < 1` the root is the leaf, and DFS returns the root's generated thought with score 0 |
| Solve.Truthy | tree_of_thoughts/treeofthoughts.py:231 | Python truthiness of a search result (`if result:`, also at lines 237, 299 and 304); no contract of its own: `Solve.Retry` and `SolveProperties.SolveResult` state that only a truthy result ends `solve` with a value |
| Solve.KnownAlgorithm | tree_of_thoughts/treeofthoughts.py:227-239 | the `'BFS'` and `'DFS'` tests; no contract of its own: `Solve.Retry` and `SolveProperties.SolveResult` state that any other algorithm raises before a search |
| Solve.Attempt | tree_of_thoughts/treeofthoughts.py:228-236 | one loop iteration runs `tot_bfs` or `tot_dfs` with the given arguments |
| Solve.Retry | tree_of_thoughts/treeofthoughts.py:225-240 | an unknown algorithm raises before any search; otherwise searches run while the budget lasts, all but the last falsy, the first that raises or is truthy decides the result, and None comes when the budget runs out; a falsy non-None result never comes back |
| Solve.Solve | tree_of_thoughts/treeofthoughts.py:225-240 | `TreeofThoughts.solve` is the retry loop with the DFS tunables at their defaults |
| Solve.OptimizedSolve | tree_of_thoughts/treeofthoughts.py:294-307 | `OptimizedTreeofThoughts.solve` passes on the stop-rule tunables but not `pruning_threshold`, which stays 0.5 |
| SolveProperties.SolveResult | tree_of_thoughts/treeofthoughts.py:225-240 | `solve` raises the algorithm error exactly for an unknown algorithm, and then runs no search; it never returns a falsy non-None result; a truthy result is the last search's, unchanged; None means every attempt of the budget came back falsy |
| SolveProperties.FirstTruthyDfsAttemptWins | tree_of_thoughts/treeofthoughts.py:234-238 | when attempts before n return None and attempt n finds an entry within the budget, `solve` runs exactly n + 1 searches and returns that entry |
| SolveProperties.EmptyDfsAttemptsExhaustBudget | tree_of_thoughts/treeofthoughts.py:234-238 | when no DFS attempt finds anything, `solve` spends the whole budget and returns None |
| SolveProperties.VoteModeDfsNeverSolves | tree_of_thoughts/treeofthoughts.py:234-238 | with vote-mode scoring, `T >= 1` and a pruning test that a score of 0 fails, the DFS retry loop spends the whole budget and returns None, whatever the model generates or votes |
| SolveProperties.VoteModeSolveNeverSolves | tree_of_thoughts/treeofthoughts.py:294-307 | with vote-mode scoring and `T >= 1`, DFS `solve` with `pruning_threshold` 0.5, as both classes use it, spends the whole budget and returns None |

## Left out

- The OpenAI plumbing is not modelled: API keys, the rate-limited request handler, choice-to-text conversion and prompt construction in `generate_thoughts` (lines 31-137). It is network I/O; thought generation is the oracle's `generate` parameter.
- Value-mode scoring (lines 140-154) is not modelled. It is one network request per state plus `float()` parsing. It is the `valueOf` parameter of `Scoring.EvaluateStates`, and an unparsable reply is taken to be already mapped to 0.
- The vote request of vote mode (lines 157-161) is not modelled. It is a network request; its reply is the `vote` parameter of `Scoring.LanguageModel`.
- `OptimizedOpenAILanguageModel` (lines 168-185) is not modelled: thread-pool concurrency, and caches that are never read.
- `CustomLanguageModel` (lines 19-29) is not modelled: it is an empty stub.
- Streamlit `st.code` calls and `print`s are not modelled: they are display side effects.
- The wall-clock deadline is not modelled: it is an attempt count.
- Solve.Solve: `timeout=None` loops until a search succeeds, possibly forever. The model always has a finite budget.
- The `__main__` demo, `tree-of-thoughts-ui.py` and `example.py` are not modelled: they hold configuration and UI wiring only.
- Scores are exact reals, not floating point.
- Python `str` comparison orders by code point. This is how `Ordering.StrLess` orders strings.
- Beam.SortByScore: its contract does not state stability (equal scores keeping their input order). The input order is itself left open, so `Beam.IsTopB` covers every order equal scores can take.
