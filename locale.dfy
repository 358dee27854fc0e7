/**
 The Brazilian-locale rewrite applied to every formatted amount of the
 calculator: the text produced by an English-style `{:,.2f}` format
 ("1,234.50") becomes "1.234,50" through three chained single-character
 replacements: ',' to 'X', then '.' to ',', then 'X' to '.'.
 */
module BrazilianLocale {

  /** Every occurrence of `from` in `s` replaced by `to`, as a string's
      `replace` does for one-character arguments. */
  function ReplaceChar(s: string, from: char, to: char): (r: string)
    ensures |r| == |s|
    ensures forall i :: 0 <= i < |s| ==> r[i] == (if s[i] == from then to else s[i])
  {
    if s == [] then []
    else [if s[0] == from then to else s[0]] + ReplaceChar(s[1..], from, to)
  }

  /** What the swap does to one character; 'X' is the temporary marker and
      ends up as '.' whether it came from a ',' or was in the input. */
  function SwapChar(c: char): (d: char)
    ensures d != 'X'
    ensures c != 'X' ==> ((c == ',' || c == '.') <==> (d == ',' || d == '.'))
  {
    if c == ',' || c == 'X' then '.'
    else if c == '.' then ','
    else c
  }

  /** The three chained replacements, in the order the calculator applies them. */
  function SwapSeparators(s: string): (r: string)
    ensures |r| == |s|
    ensures forall i :: 0 <= i < |s| ==> r[i] == SwapChar(s[i])
    ensures 'X' !in r
  {
    ReplaceChar(ReplaceChar(ReplaceChar(s, ',', 'X'), '.', ','), 'X', '.')
  }

  /** A displayed amount: "R$ " followed by the formatted number, all of it
      passed through the swap. `numberText` stands for the output of the
      `{:,.2f}` format, which is not modelled. */
  function Currency(numberText: string): (r: string)
    ensures r == "R$ " + SwapSeparators(numberText)
  {
    SwapSeparators("R$ " + numberText)
  }

  /** On text without the marker, the swap exchanges ',' and '.' and keeps
      every other character. */
  lemma SwapWithoutMarker(s: string)
    requires 'X' !in s
    ensures |SwapSeparators(s)| == |s|
    ensures forall i :: 0 <= i < |s| && s[i] == ',' ==> SwapSeparators(s)[i] == '.'
    ensures forall i :: 0 <= i < |s| && s[i] == '.' ==> SwapSeparators(s)[i] == ','
    ensures forall i :: 0 <= i < |s| && s[i] != ',' && s[i] != '.' ==> SwapSeparators(s)[i] == s[i]
  {
  }

  /** On text without the marker, swapping twice gives the text back. */
  lemma SwapIsInvolution(s: string)
    requires 'X' !in s
    ensures SwapSeparators(SwapSeparators(s)) == s
  {
  }

  /** The swap works character by character, so it distributes over
      concatenation: a caption in front of an amount is rewritten on its own. */
  lemma SwapDistributes(a: string, b: string)
    ensures SwapSeparators(a + b) == SwapSeparators(a) + SwapSeparators(b)
  {
  }

  /** A message whose caption has no separator and no marker keeps its caption
      intact: only the amount after it is rewritten. */
  lemma CaptionUntouched(caption: string, numberText: string)
    requires forall i :: 0 <= i < |caption| ==> caption[i] != ',' && caption[i] != '.' && caption[i] != 'X'
    ensures SwapSeparators(caption + numberText) == caption + SwapSeparators(numberText)
  {
  }

  /** A grouped amount in the calculator's display form. */
  lemma SwapExample(s: string)
    requires s == "1,234.50"
    ensures SwapSeparators(s) == "1.234,50"
  {
  }
}
