/**
  The line reader: characters are copied from standard input into a growable
  buffer until a newline or end of input, and the buffer is NUL-terminated.
  Standard input is the string of characters not yet read; end of input is
  the empty string.
 */
module LineReader {
  import opened Alloc

  /** Initial capacity of the line buffer and the amount it grows by. */
  const RlBufSize: nat := 1024
  const Nul: char := '\0'

  /** Index of the first newline, or the length when there is none. */
  function NewlineIndex(s: string): (n: nat)
    ensures n <= |s|
    ensures n < |s| ==> s[n] == '\n'
    ensures forall k :: 0 <= k < n ==> s[k] != '\n'
  {
    if s == [] || s[0] == '\n' then 0 else 1 + NewlineIndex(s[1..])
  }

  /** The line a read returns: every character before the first newline. */
  function LineOf(input: string): (line: string)
    ensures line <= input
    ensures '\n' !in line
    ensures |line| < |input| ==> input[|line|] == '\n'
  {
    input[..NewlineIndex(input)]
  }

  /** What is left of the input after a read: the newline itself is consumed. */
  function RestOf(input: string): (rest: string)
    ensures input == LineOf(input) + ['\n'] + rest || (input == LineOf(input) && rest == [])
    ensures input == [] || |rest| < |input|
  {
    var n := NewlineIndex(input);
    if n < |input| then input[n + 1..] else []
  }

  /**
    The lines the reader returns one after the other until the input is
    used up; the first read happens even on empty input.
   */
  function Lines(input: string): (ls: seq<string>)
    ensures |ls| >= 1
    ensures input == [] ==> ls == [[]]
    decreases |input|
  {
    var rest := RestOf(input);
    if rest == [] then [LineOf(input)] else [LineOf(input)] + Lines(rest)
  }

  /** Lines put back together with a newline between neighbours. */
  function JoinLines(ls: seq<string>): string
    decreases |ls|
  {
    if ls == [] then [] else if |ls| == 1 then ls[0] else ls[0] + "\n" + JoinLines(ls[1..])
  }

  /** Reading line after line loses nothing but a final newline. */
  lemma {:induction false} LinesRoundTrip(input: string)
    ensures var j := JoinLines(Lines(input));
            input == j || input == j + "\n"
    decreases |input|
  {
    var rest := RestOf(input);
    var line := LineOf(input);
    if rest != [] {
      LinesRoundTrip(rest);
      var ls := Lines(rest);
      assert Lines(input) == [line] + ls;
      assert JoinLines(Lines(input)) == line + "\n" + JoinLines(ls);
      if rest == JoinLines(ls) {
        assert input == line + "\n" + JoinLines(ls);
      } else {
        assert input == line + "\n" + JoinLines(ls) + "\n";
      }
    } else {
      assert Lines(input) == [line];
    }
  }

  /** No line the reader returns holds a newline. */
  lemma {:induction false} LinesHaveNoNewline(input: string)
    ensures forall i :: 0 <= i < |Lines(input)| ==> '\n' !in Lines(input)[i]
    decreases |input|
  {
    var rest := RestOf(input);
    if rest != [] {
      LinesHaveNoNewline(rest);
    }
  }

  /**
    lsh_read_line. Returns the NUL-terminated buffer, the line it holds and
    the input left unread. The buffer capacity is always a multiple of the
    fixed increment and exceeds the line length, so the terminator write is
    in bounds.
   */
  method ReadLine(input: string) returns (buffer: array<char>, line: string, rest: string)
    ensures line == LineOf(input) && rest == RestOf(input)
    ensures |line| < buffer.Length && buffer[..|line|] == line && buffer[|line|] == Nul
    ensures buffer.Length % RlBufSize == 0 && buffer.Length - RlBufSize <= |line|
  {
    var bufsize := RlBufSize;
    var position := 0;
    var buf := new char[bufsize](_ => Nul);
    var stdin := input;
    while true
      invariant fresh(buf)
      invariant position < bufsize == buf.Length
      invariant bufsize % RlBufSize == 0 && bufsize - RlBufSize <= position
      invariant position <= |input| && stdin == input[position..]
      invariant buf[..position] == input[..position]
      invariant forall k :: 0 <= k < position ==> input[k] != '\n'
      decreases |stdin|
    {
      if stdin == [] || stdin[0] == '\n' {
        // c == EOF || c == '\n'
        buf[position] := Nul;
        buffer, line := buf, buf[..position];
        rest := if stdin == [] then [] else stdin[1..];
        assert NewlineIndex(input) == position;
        return;
      }
      var c := stdin[0];
      stdin := stdin[1..];
      buf[position] := c;
      position := position + 1;
      if position >= bufsize {
        bufsize := bufsize + RlBufSize;
        buf := Realloc(buf, bufsize, Nul);
      }
    }
  }
}
