/** The scoring side of the OpenAI-backed language model: the dispatch on the
    evaluation strategy and vote-mode scoring, which turns the model's
    free-text vote into a 0/1 score per state. The network request itself and
    value-mode parsing are parameters: `valueOf` is the per-state value
    (already 0 when the reply does not parse as a float) and the vote text is
    the reply to the vote prompt. */
module Scoring {
  import opened Wrappers
  import opened Thoughts

  /** The characters Python's `str.isspace` accepts, which `str.split()`
      treats as separators. */
  predicate IsSpace(c: char)
  {
    var n := c as int;
    || 0x09 <= n <= 0x0D || 0x1C <= n <= 0x20 || n == 0x85 || n == 0xA0
    || n == 0x1680 || 0x2000 <= n <= 0x200A || n == 0x2028 || n == 0x2029
    || n == 0x202F || n == 0x205F || n == 0x3000
  }

  /** A piece of text `str.split()` can return: non-empty, no separator in it. */
  predicate IsWord(w: string)
  {
    w != [] && forall i :: 0 <= i < |w| ==> !IsSpace(w[i])
  }

  /** `str.split()` with no argument, with `cur` the word read so far: runs of
      separators split, and leading or trailing separators give no empty words. */
  function SplitFrom(s: string, cur: string): (words: seq<string>)
    requires forall i :: 0 <= i < |cur| ==> !IsSpace(cur[i])
    ensures forall i :: 0 <= i < |words| ==> IsWord(words[i])
    decreases |s|
  {
    if s == [] then
      if cur == [] then [] else [cur]
    else if IsSpace(s[0]) then
      (if cur == [] then [] else [cur]) + SplitFrom(s[1..], [])
    else
      SplitFrom(s[1..], cur + [s[0]])
  }

  function Split(s: string): (words: seq<string>)
    ensures forall i :: 0 <= i < |words| ==> IsWord(words[i])
  {
    SplitFrom(s, [])
  }

  /** `' '.join(words)`, the text the vote prompt shows for a state. */
  function Join(words: seq<string>): string
  {
    if words == [] then ""
    else if |words| == 1 then words[0]
    else words[0] + " " + Join(words[1..])
  }

  lemma {:induction false} SplitFromWord(w: string, rest: string, cur: string)
    requires forall i :: 0 <= i < |cur| ==> !IsSpace(cur[i])
    requires forall i :: 0 <= i < |w| ==> !IsSpace(w[i])
    ensures SplitFrom(w + rest, cur) == SplitFrom(rest, cur + w)
    decreases |w|
  {
    if w != [] {
      var s := w + rest;
      assert s[0] == w[0] && !IsSpace(s[0]);
      assert s[1..] == w[1..] + rest;
      assert SplitFrom(s, cur) == SplitFrom(s[1..], cur + [w[0]]);
      assert cur + w == (cur + [w[0]]) + w[1..];
      SplitFromWord(w[1..], rest, cur + [w[0]]);
    } else {
      assert w + rest == rest && cur + w == cur;
    }
  }

  /** Splitting a space-joined list of words gives the words back. */
  lemma {:induction false} SplitJoin(words: seq<string>)
    requires forall i :: 0 <= i < |words| ==> IsWord(words[i])
    ensures Split(Join(words)) == words
  {
    if |words| == 1 {
      SplitFromWord(words[0], "", "");
      assert words[0] + "" == words[0] && "" + words[0] == words[0];
      assert SplitFrom("", words[0]) == [words[0]];
      assert words == [words[0]];
    } else if |words| > 1 {
      var w, tail := words[0], Join(words[1..]);
      assert Join(words) == w + (" " + tail);
      SplitFromWord(w, " " + tail, "");
      assert "" + w == w;
      var s := " " + tail;
      assert s[0] == ' ' && IsSpace(s[0]) && s[1..] == tail;
      assert SplitFrom(s, w) == [w] + SplitFrom(tail, []);
      SplitJoin(words[1..]);
      assert words == [w] + words[1..];
    }
  }

  predicate AllSpace(sep: string)
  {
    forall i :: 0 <= i < |sep| ==> IsSpace(sep[i])
  }

  /** `sep_0 + ws[0] + sep_1 + ... + ws[n-1] + sep_n`: words with runs of
      separators around and between them. */
  function Interleave(seps: seq<string>, ws: seq<string>): string
    requires |seps| == |ws| + 1
    decreases |ws|
  {
    if ws == [] then seps[0]
    else seps[0] + ws[0] + Interleave(seps[1..], ws[1..])
  }

  /** Separators before the next word are skipped. */
  lemma {:induction false} SkipSpaces(sep: string, rest: string)
    requires AllSpace(sep)
    ensures SplitFrom(sep + rest, []) == SplitFrom(rest, [])
    decreases |sep|
  {
    if sep != [] {
      var s := sep + rest;
      assert s[0] == sep[0] && s[1..] == sep[1..] + rest;
      SkipSpaces(sep[1..], rest);
    } else {
      assert sep + rest == rest;
    }
  }

  /** A separator run ends the word read so far. */
  lemma CloseWord(sep: string, rest: string, cur: string)
    requires cur != [] && forall i :: 0 <= i < |cur| ==> !IsSpace(cur[i])
    requires sep != [] && AllSpace(sep)
    ensures SplitFrom(sep + rest, cur) == [cur] + SplitFrom(rest, [])
  {
    var s := sep + rest;
    assert s[0] == sep[0] && s[1..] == sep[1..] + rest;
    SkipSpaces(sep[1..], rest);
  }

  /** Trailing separators, or none, after the last word. */
  lemma EndWord(sep: string, cur: string)
    requires cur != [] && forall i :: 0 <= i < |cur| ==> !IsSpace(cur[i])
    requires AllSpace(sep)
    ensures SplitFrom(sep, cur) == [cur]
  {
    if sep != [] {
      CloseWord(sep, "", cur);
      assert sep + "" == sep;
    }
  }

  /** Splitting words surrounded and separated by any runs of whitespace
      (leading and trailing runs possibly empty, inner runs not) gives the
      words back: the reply to a vote prompt is not stripped first. */
  lemma {:induction false} SplitSpaced(seps: seq<string>, ws: seq<string>)
    requires |seps| == |ws| + 1
    requires forall i :: 0 <= i < |ws| ==> IsWord(ws[i])
    requires forall i :: 0 <= i < |seps| ==> AllSpace(seps[i])
    requires forall i :: 0 < i < |ws| ==> seps[i] != []
    ensures Split(Interleave(seps, ws)) == ws
    decreases |ws|
  {
    if ws == [] {
      SkipSpaces(seps[0], "");
      assert seps[0] + "" == seps[0];
    } else {
      var w, tail := ws[0], Interleave(seps[1..], ws[1..]);
      assert Interleave(seps, ws) == seps[0] + (w + tail);
      SkipSpaces(seps[0], w + tail);
      SplitFromWord(w, tail, "");
      assert "" + w == w;
      if |ws| == 1 {
        assert tail == seps[1];
        EndWord(seps[1], w);
        assert ws == [w];
      } else {
        var rest := ws[1] + Interleave(seps[2..], ws[2..]);
        assert seps[1..][1..] == seps[2..] && ws[1..][1..] == ws[2..];
        assert tail == seps[1] + rest;
        CloseWord(seps[1], rest, w);
        SkipSpaces(seps[1], rest);
        SplitSpaced(seps[1..], ws[1..]);
        assert ws == [w] + ws[1..];
      }
    }
  }

  /** An example of an unstripped reply: surrounding newlines and a double space. */
  lemma SplitUnstrippedReply()
    ensures Split("\n a  b \n") == ["a", "b"]
  {
    SplitSpaced(["\n ", "  ", " \n"], ["a", "b"]);
    assert Interleave(["\n ", "  ", " \n"], ["a", "b"]) == "\n a  b \n";
  }

  /** Vote mode (`evaluate_states` with strategy 'vote'): the state equal to
      the tuple of the reply's words scores 1, every other state 0. */
  function VoteScores(states: set<State>, reply: string): (scores: map<State, real>)
    ensures scores.Keys == states
    ensures forall s :: s in states ==> scores[s] == 0.0 || scores[s] == 1.0
    ensures forall s :: s in states ==> (scores[s] == 1.0 <==> s == Steps(Split(reply)))
  {
    map s | s in states :: if s == Steps(Split(reply)) then 1.0 else 0.0
  }

  /** At most one state receives the vote. */
  lemma VoteIsUnique(states: set<State>, reply: string, s: State, s': State)
    requires s in states && s' in states
    requires VoteScores(states, reply)[s] == 1.0 && VoteScores(states, reply)[s'] == 1.0
    ensures s == s'
  {
  }

  /** A reply that repeats a candidate's prompt text verbatim votes for that
      candidate, provided its steps are non-empty and free of whitespace. */
  lemma VoteForJoinedState(states: set<State>, steps: seq<string>)
    requires Steps(steps) in states
    requires forall i :: 0 <= i < |steps| ==> IsWord(steps[i])
    ensures VoteScores(states, Join(steps))[Steps(steps)] == 1.0
    ensures forall s :: s in states && s != Steps(steps) ==> VoteScores(states, Join(steps))[s] == 0.0
  {
    SplitJoin(steps);
  }

  /** The same holds for a reply that spaces the words any way it likes. */
  lemma VoteForSpacedReply(states: set<State>, seps: seq<string>, steps: seq<string>)
    requires Steps(steps) in states
    requires forall i :: 0 <= i < |steps| ==> IsWord(steps[i])
    requires |seps| == |steps| + 1
    requires forall i :: 0 <= i < |seps| ==> AllSpace(seps[i])
    requires forall i :: 0 < i < |steps| ==> seps[i] != []
    ensures VoteScores(states, Interleave(seps, steps))[Steps(steps)] == 1.0
    ensures forall s :: s in states && s != Steps(steps) ==> VoteScores(states, Interleave(seps, steps))[s] == 0.0
  {
    SplitSpaced(seps, steps);
  }

  /** No reply can vote for a state with an empty step or a step containing
      whitespace, nor for a bare `str` state. */
  lemma VoteMissesUnsplittable(states: set<State>, s: State, reply: string)
    requires s in states
    requires s.Text? || exists i :: 0 <= i < |s.steps| && !IsWord(s.steps[i])
    ensures VoteScores(states, reply)[s] == 0.0
  {
  }

  /** The strategy dispatch of `evaluate_states`: 'value' scores each state
      independently, 'vote' scores them together, anything else raises. */
  function EvaluateStates(strategy: string, states: set<State>, valueOf: State -> real, reply: string)
    : (r: Result<map<State, real>, Error>)
    ensures r.Ok? <==> strategy == "value" || strategy == "vote"
    ensures r.Err? ==> r.error == InvalidEvaluationStrategy
    ensures r.Ok? ==> r.value.Keys == states
    ensures strategy == "value" ==> forall s :: s in states ==> r.value[s] == valueOf(s)
    ensures strategy == "vote" ==> r.value == VoteScores(states, reply)
  {
    if strategy == "value" then Ok(map s | s in states :: valueOf(s))
    else if strategy == "vote" then Ok(VoteScores(states, reply))
    else Err(InvalidEvaluationStrategy)
  }

  /** The OpenAI-backed oracle: generation is a parameter, scoring goes
      through the strategy dispatch; `vote(states)` is the reply to the vote
      prompt built from `states`. */
  function LanguageModel(strategy: string, generate: (State, int) -> seq<string>,
                         valueOf: State -> real, vote: set<State> -> string): (o: Oracle)
    ensures o.generate == generate
    ensures forall states :: o.evaluate(states) == EvaluateStates(strategy, states, valueOf, vote(states))
  {
    Oracle(generate, states => EvaluateStates(strategy, states, valueOf, vote(states)))
  }
}
