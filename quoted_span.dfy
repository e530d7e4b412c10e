/**
  The quoted-span extractor: the characters strictly between the first
  double quote of a line and the next double quote after it. It runs on the
  raw line, before tokenizing.
 */
module QuotedSpan {
  import opened Options

  const Quote: char := '"'

  /** strstr with a one-character needle: the first index holding c. */
  function FindChar(s: string, c: char): (r: Option<nat>)
    ensures r.None? <==> c !in s
    ensures r.Some? ==> r.value < |s| && s[r.value] == c && c !in s[..r.value]
  {
    if s == [] then None
    else if s[0] == c then Some(0)
    else match FindChar(s[1..], c)
      case None => None
      case Some(i) => assert s[1..][..i] == s[1..i + 1]; Some(i + 1)
  }

  /**
    findBetweenQoute: strstr for the first quote, then strstr again just past
    it; NULL when either search fails, else the text between the two.
   */
  function FindBetweenQuote(line: string): (r: Option<string>)
    ensures r.Some? ==> Quote !in r.value
  {
    match FindChar(line, Quote)
    case None => None
    case Some(i) =>
      var start := line[i + 1..];
      match FindChar(start, Quote)
      case None => None
      case Some(j) => Some(start[..j])
  }

  /** NULL exactly when the line holds fewer than two quotes. */
  lemma QuoteCount(line: string)
    ensures FindBetweenQuote(line).None? <==> multiset(line)[Quote] < 2
  {
    match FindChar(line, Quote)
    case None => NoneCounted(line);
    case Some(i) =>
      var start := line[i + 1..];
      SplitAtFirst(line, i);
      match FindChar(start, Quote)
      case None => NoneCounted(start);
      case Some(j) => SplitAtFirst(start, j);
  }

  /**
    The text found lies strictly between the first quote of the line and the
    next quote after it.
   */
  lemma QuotedSpanPosition(line: string)
    requires FindBetweenQuote(line).Some?
    ensures var i, q := FindChar(line, Quote).value, FindBetweenQuote(line).value;
            i + |q| + 2 <= |line| && Quote !in line[..i] && line[i] == Quote
            && line[i + 1..i + 1 + |q|] == q && line[i + 1 + |q|] == Quote
  {
    var i := FindChar(line, Quote).value;
    var j := SecondQuote(line, i);
  }

  /** Helper: where the closing quote sits, relative to the opening one. */
  lemma SecondQuote(line: string, i: nat) returns (j: nat)
    requires FindBetweenQuote(line).Some? && FindChar(line, Quote) == Some(i)
    ensures i + 1 + j < |line| && line[i + 1 + j] == Quote
    ensures |FindBetweenQuote(line).value| == j
    ensures line[i + 1..i + 1 + j] == FindBetweenQuote(line).value
  {
    var start := line[i + 1..];
    j := FindChar(start, Quote).value;
    var q := start[..j];
    assert FindBetweenQuote(line).value == q;
    assert line[i + 1 + j] == start[j];
    assert line[i + 1..i + 1 + j] == q;
  }

  /** Helper: a string without a quote counts none. */
  lemma NoneCounted(s: string)
    requires Quote !in s
    ensures multiset(s)[Quote] == 0
  {
  }

  /** Helper: the quotes of s, counted around its first quote at index i. */
  lemma SplitAtFirst(s: string, i: nat)
    requires i < |s| && s[i] == Quote && Quote !in s[..i]
    ensures multiset(s)[Quote] == 1 + multiset(s[i + 1..])[Quote]
  {
    assert s == s[..i] + [s[i]] + s[i + 1..];
    NoneCounted(s[..i]);
  }

  /** Conversely, a line made of a quote-free prefix, a quoted span and anything after yields that span. */
  lemma QuotedSpanOfShape(pre: string, q: string, post: string)
    requires Quote !in pre && Quote !in q
    ensures FindBetweenQuote(pre + [Quote] + q + [Quote] + post) == Some(q)
  {
    var line := pre + [Quote] + q + [Quote] + post;
    var tail := [Quote] + post;
    var start := q + tail;
    var rest := [Quote] + start;
    assert line == pre + rest;
    FirstIndexOf(pre, rest, Quote);
    assert line[|pre| + 1..] == start;
    FirstIndexOf(q, tail, Quote);
    assert start[..|q|] == q;
  }

  /** Helper: the first c in pre + rest, where pre holds none and rest starts with c. */
  lemma {:induction false} FirstIndexOf(pre: string, rest: string, c: char)
    requires c !in pre && rest != [] && rest[0] == c
    ensures FindChar(pre + rest, c) == Some(|pre|)
    decreases |pre|
  {
    if pre != [] {
      assert (pre + rest)[1..] == pre[1..] + rest;
      FirstIndexOf(pre[1..], rest, c);
    }
  }
}
