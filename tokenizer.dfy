/**
  The tokenizer: strtok over the delimiter set " \t\r\n\a", tokens collected
  into a growable NULL-terminated array, then the quoted span (if any)
  written over token 1.
 */
module Tokenizer {
  import opened Options
  import opened Alloc
  import opened QuotedSpan

  /** Initial capacity of the token array and the amount it grows by. */
  const TokBufSize: nat := 64
  /** LSH_TOK_DELIM: space, tab, carriage return, newline and bell. */
  predicate IsDelim(c: char) {
    c == ' ' || c == '\t' || c == '\r' || c == '\n' || c == '\U{7}'
  }

  /** A token: non-empty and free of delimiters. */
  predicate IsWord(t: string) {
    t != [] && forall i :: 0 <= i < |t| ==> !IsDelim(t[i])
  }

  predicate AllDelims(d: string) {
    forall i :: 0 <= i < |d| ==> IsDelim(d[i])
  }

  /** Length of the run of non-delimiters that starts s. */
  function RunLength(s: string): (n: nat)
    ensures n <= |s|
    ensures forall k :: 0 <= k < n ==> !IsDelim(s[k])
    ensures n < |s| ==> IsDelim(s[n])
  {
    if s == [] || IsDelim(s[0]) then 0 else 1 + RunLength(s[1..])
  }

  /** The maximal runs of non-delimiters of s, left to right. */
  function Tokens(s: string): seq<string>
    decreases |s|
  {
    if s == [] then []
    else if IsDelim(s[0]) then Tokens(s[1..])
    else
      var n := RunLength(s);
      [s[..n]] + Tokens(s[n..])
  }

  // ---------------------------------------------------------------------
  // Tokens characterised as the unique split into words and separators.
  // ---------------------------------------------------------------------

  /** No token is empty and none holds a delimiter. */
  lemma {:induction false} TokensAreWords(s: string)
    ensures forall k :: 0 <= k < |Tokens(s)| ==> IsWord(Tokens(s)[k])
    decreases |s|
  {
    if s == [] {
    } else if IsDelim(s[0]) {
      TokensAreWords(s[1..]);
    } else {
      TokensAreWords(s[RunLength(s)..]);
    }
  }

  /** sep0 + tok0 + sep1 + tok1 + ... + sep_n. */
  function Layout(seps: seq<string>, toks: seq<string>): string
    requires |seps| == |toks| + 1
    decreases |toks|
  {
    if toks == [] then seps[0] else seps[0] + toks[0] + Layout(seps[1..], toks[1..])
  }

  /**
    Separators are delimiter runs, tokens are words, and neighbouring tokens
    are parted by at least one delimiter.
   */
  predicate WellSeparated(seps: seq<string>, toks: seq<string>) {
    |seps| == |toks| + 1
    && (forall i :: 0 <= i < |seps| ==> AllDelims(seps[i]))
    && (forall i :: 0 <= i < |toks| ==> IsWord(toks[i]))
    && (forall i :: 0 < i < |toks| ==> seps[i] != [])
  }

  /** The delimiter runs around the tokens of s. */
  function Separators(s: string): (r: seq<string>)
    ensures |r| == |Tokens(s)| + 1
    decreases |s|
  {
    if s == [] then [[]]
    else if IsDelim(s[0]) then
      var r := Separators(s[1..]);
      [[s[0]] + r[0]] + r[1..]
    else
      [[]] + Separators(s[RunLength(s)..])
  }

  lemma {:induction false} LayoutPrepend(c: char, seps: seq<string>, toks: seq<string>)
    requires |seps| == |toks| + 1
    ensures Layout([[c] + seps[0]] + seps[1..], toks) == [c] + Layout(seps, toks)
  {
    var seps' := [[c] + seps[0]] + seps[1..];
    if toks != [] {
      assert seps'[1..] == seps[1..];
    }
  }

  lemma {:induction false} SeparatorsStart(s: string)
    requires s != [] && IsDelim(s[0])
    ensures Separators(s)[0] != []
  {
  }

  /** Every separator is a run of delimiters. */
  lemma {:induction false} SeparatorsAreDelims(s: string)
    ensures forall i :: 0 <= i < |Separators(s)| ==> AllDelims(Separators(s)[i])
    decreases |s|
  {
    if s == [] {
    } else if IsDelim(s[0]) {
      SeparatorsAreDelims(s[1..]);
      var r := Separators(s[1..]);
      assert AllDelims([s[0]] + r[0]);
      assert forall i :: 0 < i < |Separators(s)| ==> Separators(s)[i] == r[i];
    } else {
      SeparatorsAreDelims(s[RunLength(s)..]);
    }
  }

  /** Neighbouring tokens are parted by a non-empty separator. */
  lemma {:induction false} SeparatorsInteriorNonEmpty(s: string)
    ensures forall i :: 0 < i < |Tokens(s)| ==> Separators(s)[i] != []
    decreases |s|
  {
    if s == [] {
    } else if IsDelim(s[0]) {
      SeparatorsInteriorNonEmpty(s[1..]);
      var r := Separators(s[1..]);
      assert forall i :: 0 < i < |Separators(s)| ==> Separators(s)[i] == r[i];
    } else {
      var t := s[RunLength(s)..];
      SeparatorsInteriorNonEmpty(t);
      assert Tokens(s) == [s[..RunLength(s)]] + Tokens(t);
      assert Separators(s) == [[]] + Separators(t);
      if t != [] {
        SeparatorsStart(t);
      }
    }
  }

  /** Separators and tokens interleave back to the string. */
  lemma {:induction false} LayoutOfSeparators(s: string)
    ensures Layout(Separators(s), Tokens(s)) == s
    decreases |s|
  {
    if s == [] {
    } else if IsDelim(s[0]) {
      var r := Separators(s[1..]);
      LayoutOfSeparators(s[1..]);
      assert Tokens(s) == Tokens(s[1..]);
      assert Separators(s) == [[s[0]] + r[0]] + r[1..];
      LayoutPrepend(s[0], r, Tokens(s[1..]));
      assert [s[0]] + s[1..] == s;
    } else {
      var n := RunLength(s);
      var t := s[n..];
      LayoutOfSeparators(t);
      var seps := [[]] + Separators(t);
      var toks := [s[..n]] + Tokens(t);
      assert Separators(s) == seps && Tokens(s) == toks;
      assert seps[1..] == Separators(t) && toks[1..] == Tokens(t);
      assert Layout(seps, toks) == [] + s[..n] + t;
      assert s == s[..n] + t;
    }
  }

  /** Every string is the layout of its separators and tokens. */
  lemma TokensLayout(s: string)
    ensures WellSeparated(Separators(s), Tokens(s))
    ensures Layout(Separators(s), Tokens(s)) == s
  {
    TokensAreWords(s);
    SeparatorsAreDelims(s);
    SeparatorsInteriorNonEmpty(s);
    LayoutOfSeparators(s);
  }

  lemma {:induction false} TokensOfDelims(d: string)
    requires AllDelims(d)
    ensures Tokens(d) == []
    decreases |d|
  {
    if d != [] {
      TokensOfDelims(d[1..]);
    }
  }

  lemma {:induction false} TokensAfterDelims(d: string, x: string)
    requires AllDelims(d)
    ensures Tokens(d + x) == Tokens(x)
    decreases |d|
  {
    if d != [] {
      assert (d + x)[0] == d[0] && (d + x)[1..] == d[1..] + x;
      TokensSkipDelim(d + x);
      TokensAfterDelims(d[1..], x);
    } else {
      assert d + x == x;
    }
  }

  lemma TokensOfWordThen(w: string, x: string)
    requires IsWord(w) && (x == [] || IsDelim(x[0]))
    ensures Tokens(w + x) == [w] + Tokens(x)
  {
    var s := w + x;
    var n := RunLength(s);
    assert forall k :: 0 <= k < |w| ==> s[k] == w[k];
    assert |w| == |s| || IsDelim(s[|w|]);
    assert n == |w|;
    assert s[..n] == w && s[n..] == x;
  }

  /** A layout of words and separators tokenizes back to exactly those words. */
  lemma {:induction false} TokensOfLayout(seps: seq<string>, toks: seq<string>)
    requires WellSeparated(seps, toks)
    ensures Tokens(Layout(seps, toks)) == toks
    decreases |toks|
  {
    if toks == [] {
      TokensOfDelims(seps[0]);
    } else {
      var tail := Layout(seps[1..], toks[1..]);
      assert WellSeparated(seps[1..], toks[1..]) by {
        forall i | 0 < i < |toks[1..]| ensures seps[1..][i] != [] {
          assert seps[1..][i] == seps[i + 1];
        }
      }
      TokensOfLayout(seps[1..], toks[1..]);
      assert tail == [] || IsDelim(tail[0]) by {
        if toks[1..] == [] {
          assert tail == seps[1];
        } else {
          assert seps[1] != [];
          assert tail == seps[1] + (toks[1..][0] + Layout(seps[1..][1..], toks[1..][1..]));
        }
      }
      TokensOfWordThen(toks[0], tail);
      assert Layout(seps, toks) == seps[0] + (toks[0] + tail);
      TokensAfterDelims(seps[0], toks[0] + tail);
    }
  }

  lemma TokensSkipDelim(s: string)
    requires s != [] && IsDelim(s[0])
    ensures Tokens(s) == Tokens(s[1..])
  {
  }

  /** A non-delimiter anywhere in s gives s at least one token. */
  lemma {:induction false} TokensNonEmpty(s: string, i: nat)
    requires i < |s| && !IsDelim(s[i])
    ensures Tokens(s) != []
    decreases |s|
  {
    if IsDelim(s[0]) {
      TokensNonEmpty(s[1..], i - 1);
    }
  }

  // ---------------------------------------------------------------------
  // strtok and lsh_split_line
  // ---------------------------------------------------------------------

  /**
    One call of strtok, resuming at index from: skip delimiters, take the run
    after them, and resume after the delimiter that ends it (the one strtok
    overwrites with NUL). found is false when only delimiters remain.
   */
  method Strtok(line: string, from: nat) returns (found: bool, token: string, next: nat)
    requires from <= |line|
    ensures from <= next <= |line|
    ensures found ==> from < next && Tokens(line[from..]) == [token] + Tokens(line[next..])
    ensures !found ==> Tokens(line[from..]) == []
  {
    var i := from;
    while i < |line| && IsDelim(line[i])
      invariant from <= i <= |line|
      invariant forall k :: from <= k < i ==> IsDelim(line[k])
    {
      i := i + 1;
    }
    SkipDelims(line, from, i);
    if i == |line| {
      return false, [], i;
    }
    var j := i + 1;
    while j < |line| && !IsDelim(line[j])
      invariant i < j <= |line|
      invariant forall k :: i <= k < j ==> !IsDelim(line[k])
    {
      j := j + 1;
    }
    token := line[i..j];
    next := if j < |line| then j + 1 else j;
    TakeWord(line, i, j, next);
    found := true;
  }

  /** Helper: leading delimiters line[from..i] contribute no token. */
  lemma SkipDelims(line: string, from: nat, i: nat)
    requires from <= i <= |line|
    requires forall k :: from <= k < i ==> IsDelim(line[k])
    ensures Tokens(line[from..]) == Tokens(line[i..])
  {
    assert line[from..] == line[from..i] + line[i..];
    TokensAfterDelims(line[from..i], line[i..]);
  }

  /** Helper: the maximal run line[i..j] is the next token, and strtok resumes at next. */
  lemma TakeWord(line: string, i: nat, j: nat, next: nat)
    requires i < j <= |line|
    requires forall k :: i <= k < j ==> !IsDelim(line[k])
    requires j < |line| ==> IsDelim(line[j]) && next == j + 1
    requires j == |line| ==> next == j
    ensures Tokens(line[i..]) == [line[i..j]] + Tokens(line[next..])
  {
    WordAt(line, i, j);
    if j < |line| {
      var x := line[j..];
      assert x[1..] == line[j + 1..];
      TokensSkipDelim(x);
    }
  }

  /** Helper: a maximal run line[i..j] is the first token of line[i..]. */
  lemma WordAt(line: string, i: nat, j: nat)
    requires i < j <= |line|
    requires forall k :: i <= k < j ==> !IsDelim(line[k])
    requires j < |line| ==> IsDelim(line[j])
    ensures Tokens(line[i..]) == [line[i..j]] + Tokens(line[j..])
  {
    var w, x := line[i..j], line[j..];
    assert forall k :: 0 <= k < |w| ==> w[k] == line[i + k];
    assert line[i..] == w + x;
    TokensOfWordThen(w, x);
  }

  /**
    The argument vector lsh_split_line produces. With no quoted span it is
    the token sequence. With one, the quoted text takes index 1; when the
    line has a single token the text is appended after it, so the vector
    stays NULL-terminated.
   */
  function Split(line: string): seq<string> {
    Override(Tokens(line), FindBetweenQuote(line))
  }

  /**
    tokens[1] = grabQuote. With a single token the text is appended; with
    none, tokens[0] stays NULL and the vector stays empty.
   */
  function Override(t: seq<string>, quote: Option<string>): (r: seq<string>)
    ensures quote.None? || t == [] ==> r == t
    ensures quote.Some? && t != [] ==>
              |r| == (if |t| == 1 then 2 else |t|) && r[1] == quote.value
              && forall k :: 0 <= k < |t| && k != 1 ==> r[k] == t[k]
  {
    match quote
    case None => t
    case Some(q) => if |t| >= 2 then t[1 := q] else if |t| == 1 then t + [q] else t
  }

  /**
    What the override does: nothing without a quoted span; with one, index 1
    holds the quoted text verbatim, every other token keeps its strtok
    value, and a line with a single token gains the text as a second one.
    A quoted span always comes with at least one token, since the quote
    character is not a delimiter.
   */
  lemma SplitOverride(line: string)
    ensures FindBetweenQuote(line).None? ==> Split(line) == Tokens(line)
    ensures FindBetweenQuote(line).Some? ==>
              var t, r := Tokens(line), Split(line);
              |t| >= 1 && |r| == (if |t| == 1 then 2 else |t|)
              && r[1] == FindBetweenQuote(line).value
              && forall k :: 0 <= k < |t| && k != 1 ==> r[k] == t[k]
  {
    if FindBetweenQuote(line).Some? {
      TokensNonEmpty(line, FindChar(line, Quote).value);
    }
  }

  /** Argument index 0, the command name, is always the first token. */
  lemma SplitKeepsCommand(line: string)
    ensures (Split(line) == []) == (Tokens(line) == [])
    ensures Tokens(line) != [] ==> Split(line)[0] == Tokens(line)[0]
  {
  }

  lemma {:induction false} BlockMultiple(g: nat)
    ensures (TokBufSize * (g + 1)) % TokBufSize == 0
  {
    if g > 0 {
      BlockMultiple(g - 1);
      assert TokBufSize * (g + 1) == TokBufSize * g + TokBufSize;
    }
  }

  /**
    The quote override on the NULL-terminated array: tokens[1] gets the
    quoted text; with a single token the terminator moves to index 2; with
    none the text lands behind the NULL in tokens[0], out of the vector.
   */
  method OverrideArgOne(tokens: array<Option<string>>, t: seq<string>, quote: Option<string>)
    returns (args: seq<string>)
    requires 2 < tokens.Length && |t| < tokens.Length
    requires forall k :: 0 <= k < |t| ==> tokens[k] == Some(t[k])
    requires tokens[|t|] == None
    modifies tokens
    ensures args == Override(t, quote) && |args| < tokens.Length
    ensures forall k :: 0 <= k < |args| ==> tokens[k] == Some(args[k])
    ensures tokens[|args|] == None
  {
    args := t;
    if quote.Some? {
      if |t| >= 2 {
        tokens[1] := quote;
        args := t[1 := quote.value];
      } else if |t| == 1 {
        tokens[1] := quote;
        tokens[2] := None;
        args := t + [quote.value];
      } else {
        tokens[1] := quote;
      }
    }
  }

  /**
    lsh_split_line. Returns the token array and the argument vector it holds
    before its NULL terminator. The array capacity is a multiple of the fixed
    increment and is the smallest such above the strtok token count.
   */
  method SplitLine(line: string) returns (tokens: array<Option<string>>, args: seq<string>)
    ensures args == Split(line)
    ensures |args| < tokens.Length
    ensures forall k :: 0 <= k < |args| ==> tokens[k] == Some(args[k])
    ensures tokens[|args|] == None
    ensures tokens.Length % TokBufSize == 0
    ensures tokens.Length - TokBufSize <= |Tokens(line)| < tokens.Length
  {
    var bufsize := TokBufSize;
    var position := 0;
    var toks := new Option<string>[bufsize](_ => None);
    var grabQuote := FindBetweenQuote(line);
    var seen: seq<string> := [];
    ghost var grown: nat := 0;
    var found, token, next := Strtok(line, 0);
    while found
      invariant fresh(toks)
      invariant position < bufsize == toks.Length
      invariant bufsize == TokBufSize * (grown + 1) && bufsize - TokBufSize <= position
      invariant next <= |line| && |seen| == position
      invariant forall k :: 0 <= k < position ==> toks[k] == Some(seen[k])
      invariant found ==> Tokens(line) == seen + [token] + Tokens(line[next..])
      invariant !found ==> Tokens(line) == seen
      decreases |line| - next + (if found then 1 else 0)
    {
      toks[position] := Some(token);
      seen := seen + [token];
      position := position + 1;
      if position >= bufsize {
        bufsize := bufsize + TokBufSize;
        grown := grown + 1;
        toks := Realloc(toks, bufsize, None);
      }
      found, token, next := Strtok(line, next);
    }
    assert seen == Tokens(line);
    BlockMultiple(grown);
    toks[position] := None;
    args := OverrideArgOne(toks, seen, grabQuote);
    tokens := toks;
  }
}
