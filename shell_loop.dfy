/**
  The loop driver: prompt, read a line, split it, execute it, and go round
  again while the status is 1. The result of each iteration's system call is
  given by os, indexed by iteration.
 */
module ShellLoop {
  import opened LineReader
  import opened QuotedSpan
  import opened Tokenizer
  import opened Builtins

  const Prompt: string := "> "

  /** The lines executed, everything they did, and whether exit ended the loop. */
  datatype Trace = Trace(executed: seq<string>, effects: seq<Effect>, exited: bool)

  /** A line whose first word is exactly exit. */
  predicate IsExitLine(line: string) {
    var t := Tokens(line);
    t != [] && t[0] == "exit"
  }

  /** What one iteration shows: the prompt, then the effects of the line's command. */
  function StepEffects(line: string, ok: bool): seq<Effect> {
    [Stdout(Prompt)] + Dispatch(Split(line), ok).effects
  }

  /**
    The iterations of lsh_loop from iteration k on, over the input not yet
    read. It stops after a command returns 0, or once the input is used up:
    from then on every read returns the empty line and every iteration only
    prints the prompt (see EndOfInputIdles).
   */
  function Session(input: string, os: nat -> bool, k: nat): Trace
    decreases |input|
  {
    var line := LineOf(input);
    var rest := RestOf(input);
    var o := Dispatch(Split(line), os(k));
    var step := [Stdout(Prompt)] + o.effects;
    if o.status == Terminate then Trace([line], step, true)
    else if rest == [] then Trace([line], step, false)
    else
      var t := Session(rest, os, k + 1);
      Trace([line] + t.executed, step + t.effects, t.exited)
  }

  /** The index of the first exit line, or the number of lines when there is none. */
  function FirstExit(lines: seq<string>): (n: nat)
    ensures n <= |lines|
    ensures n < |lines| ==> IsExitLine(lines[n])
    ensures forall i :: 0 <= i < n ==> !IsExitLine(lines[i])
    decreases |lines|
  {
    if lines == [] then 0
    else if IsExitLine(lines[0]) then 0
    else 1 + FirstExit(lines[1..])
  }

  /** The effects of running the given lines in order, the first as iteration k. */
  function Replay(lines: seq<string>, os: nat -> bool, k: nat): seq<Effect>
    decreases |lines|
  {
    if lines == [] then [] else StepEffects(lines[0], os(k)) + Replay(lines[1..], os, k + 1)
  }

  /** A line stops the loop exactly when its first word is exit. */
  lemma StopsExactlyOnExit(line: string, ok: bool)
    ensures Dispatch(Split(line), ok).status == Terminate <==> IsExitLine(line)
  {
    SplitKeepsCommand(line);
    DispatchStatus(Split(line), ok);
  }

  /** A blank line (only delimiters, or nothing) executes nothing and keeps the loop going. */
  lemma BlankLineContinues(line: string, ok: bool)
    requires Tokens(line) == []
    ensures Dispatch(Split(line), ok) == Outcome(Continue, [])
  {
    SplitOverride(line);
  }

  /**
    At end of input a read yields the empty line and leaves the input empty,
    so that iteration repeats for ever, printing only the prompt.
   */
  lemma EndOfInputIdles(os: nat -> bool, k: nat)
    ensures LineOf([]) == [] && RestOf([]) == []
    ensures Session([], os, k) == Trace([[]], [Stdout(Prompt)], false)
  {
    BlankLineContinues([], os(k));
  }

  /** The lines up to and including the first exit line (all of them if there is none). */
  function UpToExit(lines: seq<string>): seq<string>
    decreases |lines|
  {
    if lines == [] then []
    else if IsExitLine(lines[0]) then [lines[0]]
    else [lines[0]] + UpToExit(lines[1..])
  }

  function HasExit(lines: seq<string>): bool
    decreases |lines|
  {
    lines != [] && (IsExitLine(lines[0]) || HasExit(lines[1..]))
  }

  /** Helper: one iteration that neither exits nor meets the end of the input. */
  lemma SessionStep(input: string, os: nat -> bool, k: nat)
    requires !IsExitLine(LineOf(input)) && RestOf(input) != []
    ensures var t := Session(RestOf(input), os, k + 1);
            Session(input, os, k)
            == Trace([LineOf(input)] + t.executed, StepEffects(LineOf(input), os(k)) + t.effects, t.exited)
  {
    StopsExactlyOnExit(LineOf(input), os(k));
  }

  /** Helper: the session follows the lines, up to the first exit line. */
  lemma {:induction false} SessionFollowsLines(input: string, os: nat -> bool, k: nat)
    ensures var t, ls := Session(input, os, k), Lines(input);
            t.executed == UpToExit(ls) && t.exited == HasExit(ls) && t.effects == Replay(t.executed, os, k)
    decreases |input|
  {
    var line, rest := LineOf(input), RestOf(input);
    var ls := Lines(input);
    StopsExactlyOnExit(line, os(k));
    if IsExitLine(line) || rest == [] {
      assert ls[0] == line;
      assert Replay([line], os, k) == StepEffects(line, os(k)) + [];
    } else {
      SessionStep(input, os, k);
      SessionFollowsLines(rest, os, k + 1);
      assert ls == [line] + Lines(rest);
      assert ls[1..] == Lines(rest);
    }
  }

  /** Helper: UpToExit and HasExit in terms of the index of the first exit line. */
  lemma {:induction false} UpToFirstExit(lines: seq<string>)
    ensures var n := FirstExit(lines);
            HasExit(lines) == (n < |lines|)
            && UpToExit(lines) == (if n < |lines| then lines[..n + 1] else lines)
    decreases |lines|
  {
    if lines != [] && !IsExitLine(lines[0]) {
      UpToFirstExit(lines[1..]);
      var n := FirstExit(lines[1..]);
      if n < |lines| - 1 {
        assert lines[..n + 2] == [lines[0]] + lines[1..][..n + 1];
      } else {
        assert lines == [lines[0]] + lines[1..];
      }
    }
  }

  /**
    The loop runs the input's lines in order and stops right after the first
    exit line; with no exit line it runs every line and ends with the input.
   */
  lemma SessionStopsAtFirstExit(input: string, os: nat -> bool, k: nat)
    ensures var t, ls := Session(input, os, k), Lines(input);
            var n := FirstExit(ls);
            t.exited == (n < |ls|)
            && t.executed == (if n < |ls| then ls[..n + 1] else ls)
            && t.effects == Replay(t.executed, os, k)
  {
    var t, ls := Session(input, os, k), Lines(input);
    SessionFollowsLines(input, os, k);
    UpToFirstExit(ls);
    assert t.executed == UpToExit(ls) && t.exited == HasExit(ls);
  }

  /** Prefixes what has already run to a trace of what is still to run. */
  function Then(executed: seq<string>, effects: seq<Effect>, t: Trace): Trace {
    Trace(executed + t.executed, effects + t.effects, t.exited)
  }

  /** Helper: Session unfolded once, in terms of Then. */
  lemma SessionUnfold(input: string, os: nat -> bool, k: nat)
    ensures var line, rest := LineOf(input), RestOf(input);
            var o := Dispatch(Split(line), os(k));
            var step := [Stdout(Prompt)] + o.effects;
            Session(input, os, k)
            == if o.status == Terminate then Trace([line], step, true)
               else if rest == [] then Trace([line], step, false)
               else Then([line], step, Session(rest, os, k + 1))
  {
  }

  /** Helper: Then composes. */
  lemma ThenThen(e1: seq<string>, f1: seq<Effect>, e2: seq<string>, f2: seq<Effect>, t: Trace)
    ensures Then(e1, f1, Then(e2, f2, t)) == Then(e1 + e2, f1 + f2, t)
  {
    assert e1 + (e2 + t.executed) == (e1 + e2) + t.executed;
    assert f1 + (f2 + t.effects) == (f1 + f2) + t.effects;
  }

  /** The body of the do-while after the prompt: read a line, split it, execute it. */
  method ReadSplitExecute(stdin: string, ok: bool) returns (line: string, rest: string, o: Outcome)
    ensures line == LineOf(stdin) && rest == RestOf(stdin)
    ensures o == Dispatch(Split(line), ok)
  {
    var buffer;
    buffer, line, rest := ReadLine(stdin);
    var tokens, args := SplitLine(line);
    o := Execute(args, ok);
  }

  /** Helper: one pass of the loop moves a line and its effects from what is still to run into what has run. */
  lemma Advance(input: string, os: nat -> bool, stdin: string, k: nat, done: seq<string>, before: seq<Effect>)
    requires Session(input, os, 0) == Then(done, before, Session(stdin, os, k))
    ensures var line, rest := LineOf(stdin), RestOf(stdin);
            var o := Dispatch(Split(line), os(k));
            var executed, effects := done + [line], before + ([Stdout(Prompt)] + o.effects);
            && (o.status == Terminate ==> Session(input, os, 0) == Trace(executed, effects, true))
            && (o.status != Terminate && rest == [] ==> Session(input, os, 0) == Trace(executed, effects, false))
            && (o.status != Terminate && rest != [] ==>
                  Session(input, os, 0) == Then(executed, effects, Session(rest, os, k + 1)))
  {
    var line, rest := LineOf(stdin), RestOf(stdin);
    var o := Dispatch(Split(line), os(k));
    var step := [Stdout(Prompt)] + o.effects;
    SessionUnfold(stdin, os, k);
    if o.status != Terminate && rest != [] {
      ThenThen(done, before, [line], step, Session(rest, os, k + 1));
    }
  }

  /** lsh_loop over a finite input. */
  method Loop(input: string, os: nat -> bool) returns (t: Trace)
    ensures t == Session(input, os, 0)
  {
    var stdin := input;
    var k: nat := 0;
    var executed: seq<string> := [];
    var effects: seq<Effect> := [];
    assert Then([], [], Session(input, os, 0)) == Session(input, os, 0);
    while true
      invariant Session(input, os, 0) == Then(executed, effects, Session(stdin, os, k))
      decreases |stdin|
    {
      Advance(input, os, stdin, k, executed, effects);
      // printf("> ") comes first; reading and splitting have no effect of their own
      var line, rest, o := ReadSplitExecute(stdin, os(k));
      executed := executed + [line];
      var step := [Stdout(Prompt)] + o.effects;
      effects := effects + step;
      if o.status == Terminate {
        return Trace(executed, effects, true);
      }
      if rest == [] {
        return Trace(executed, effects, false);
      }
      stdin := rest;
      k := k + 1;
    }
  }
}
