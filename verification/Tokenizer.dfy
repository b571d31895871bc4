/** split() as every program of the repository has it: read up to the delimiter, keep what is not empty. */
module Tokenizer {
  import opened Common

  predicate Free(s: string, d: char) {
    forall i :: 0 <= i < |s| ==> s[i] != d
  }

  /** How many characters come before the first delimiter. */
  function Span(s: string, d: char): (n: nat)
    ensures n <= |s| && Free(s[..n], d)
    ensures n < |s| ==> s[n] == d
  {
    if s == [] || s[0] == d then 0 else 1 + Span(s[1..], d)
  }

  /** The non-empty pieces between delimiters, in order. */
  function Tokens(s: string, d: char): seq<string>
    decreases |s|
  {
    if s == [] then []
    else if s[0] == d then Tokens(s[1..], d)
    else [s[..Span(s, d)]] + Tokens(s[Span(s, d)..], d)
  }

  method Split(s: string, d: char) returns (re: seq<string>)
    ensures re == Tokens(s, d)
  {
    re := [];
    var pos := 0;
    assert Drop(s, 0) == s && Drop(s, |s|) == Drop(s, |s| + 1) == [];
    NoTokens(d);
    hide Tokens, Drop, Free;
    while pos < |s|
      invariant 0 <= pos <= |s| + 1
      invariant Tokens(s, d) == re + Tokens(Drop(s, pos), d)
    {
      var end := pos;
      while end < |s| && s[end] != d
        invariant pos <= end <= |s|
        invariant forall i :: pos <= i < end ==> s[i] != d
      {
        end := end + 1;
      }
      LineKept(re, s, pos, end, d);
      var tmp := s[pos..end];
      if |tmp| > 0 {
        re := re + [tmp];
      }
      pos := end + 1;
    }
  }

  lemma {:induction false} SpanIs(s: string, n: nat, d: char)
    requires n <= |s| && Free(s[..n], d) && (n < |s| ==> s[n] == d)
    ensures Span(s, d) == n
  {
    if n > 0 {
      assert s[..n][0] == s[0];
      assert s[1..][..n - 1] == s[..n][1..];
      assert forall i :: 0 <= i < n - 1 ==> s[..n][1..][i] == s[..n][i + 1] != d;
      SpanIs(s[1..], n - 1, d);
    }
  }

  /** A delimiter-free stretch at the front, up to a delimiter or the end. */
  lemma TokenHere(s: string, n: nat, d: char)
    requires n <= |s| && Free(s[..n], d) && (n < |s| ==> s[n] == d)
    ensures Tokens(s, d) == (if n > 0 then [s[..n]] else []) + Tokens(s[n..], d)
    ensures n < |s| ==> Tokens(s[n..], d) == Tokens(s[n..][1..], d)
  {
    SpanIs(s, n, d);
    if n > 0 {
      assert s[..n][0] == s[0];
    } else {
      assert s[0..] == s;
    }
  }

  /** One getline(): the characters up to `end`, and what is left behind the delimiter there. */
  lemma LineRead(s: string, pos: nat, end: nat, d: char)
    requires pos <= end <= |s| && (end < |s| ==> s[end] == d)
    requires forall i :: pos <= i < end ==> s[i] != d
    ensures Tokens(Drop(s, pos), d) == (if end > pos then [s[pos..end]] else []) + Tokens(Drop(s, end + 1), d)
  {
    var t := s[pos..];
    assert t[..end - pos] == s[pos..end] && t[end - pos..] == s[end..];
    TokenHere(t, end - pos, d);
    assert end < |s| ==> s[end..][1..] == s[end + 1..];
  }

  /** What one getline() adds to the pieces found so far. */
  lemma LineKept(re: seq<string>, s: string, pos: nat, end: nat, d: char)
    requires pos <= end <= |s| && (end < |s| ==> s[end] == d)
    requires forall i :: pos <= i < end ==> s[i] != d
    ensures re + Tokens(Drop(s, pos), d)
         == (if end > pos then re + [s[pos..end]] else re) + Tokens(Drop(s, end + 1), d)
  {
    LineRead(s, pos, end, d);
    hide *;
    Assoc(re, if end > pos then [s[pos..end]] else [], Tokens(Drop(s, end + 1), d));
    assert re + [] == re;
  }

  // ----- What the tokens are --------------------------------------------------------------------

  /** A string is its tokens, laid out with delimiters: gaps[i] of them before token i, and the last
      gap behind the last token. */
  function Layout(parts: seq<string>, gaps: seq<nat>, d: char): string
    requires |gaps| == |parts| + 1
  {
    if parts == [] then Fill(d, gaps[0])
    else Fill(d, gaps[0]) + parts[0] + Layout(parts[1..], gaps[1..], d)
  }

  function Fill(d: char, n: nat): string {
    seq(n, i => d)
  }

  ghost predicate AreTokens(parts: seq<string>, d: char) {
    forall i :: 0 <= i < |parts| ==> parts[i] != [] && Free(parts[i], d)
  }

  /** Between two tokens there is a delimiter. */
  ghost predicate Separated(gaps: seq<nat>) {
    forall i :: 0 < i < |gaps| - 1 ==> gaps[i] > 0
  }

  lemma {:induction false} FillTokens(d: char, n: nat, rest: string)
    ensures Tokens(Fill(d, n) + rest, d) == Tokens(rest, d)
  {
    if n == 0 {
      assert Fill(d, 0) + rest == rest;
    } else {
      assert (Fill(d, n) + rest)[1..] == Fill(d, n - 1) + rest;
      FillTokens(d, n - 1, rest);
    }
  }

  /** Splitting a laid-out list of tokens gives the tokens back. */
  lemma {:induction false} SplitOfLayout(parts: seq<string>, gaps: seq<nat>, d: char)
    requires |gaps| == |parts| + 1 && AreTokens(parts, d) && Separated(gaps)
    ensures Tokens(Layout(parts, gaps, d), d) == parts
  {
    if parts == [] {
      FillTokens(d, gaps[0], []);
      assert Fill(d, gaps[0]) + [] == Fill(d, gaps[0]);
    } else {
      var rest := Layout(parts[1..], gaps[1..], d);
      var s := parts[0] + rest;
      assert Layout(parts, gaps, d) == Fill(d, gaps[0]) + s;
      LayoutStart(parts[1..], gaps[1..], d);
      SplitOfLayout(parts[1..], gaps[1..], d);
      assert parts == [parts[0]] + parts[1..];
      hide Layout, Tokens, Fill;
      FillTokens(d, gaps[0], s);
      assert s[..|parts[0]|] == parts[0] && s[|parts[0]|..] == rest;
      TokenHere(s, |parts[0]|, d);
    }
  }

  /** Behind a token a layout goes on with a delimiter or not at all. */
  lemma LayoutStart(parts: seq<string>, gaps: seq<nat>, d: char)
    requires |gaps| == |parts| + 1 && (parts != [] ==> gaps[0] > 0)
    ensures var s := Layout(parts, gaps, d); s == [] || s[0] == d
  {}

  /** A delimiter between two strings separates their tokens. */
  lemma {:induction false} SplitAtDelimiter(a: string, b: string, d: char)
    ensures Tokens(a + [d] + b, d) == Tokens(a, d) + Tokens(b, d)
    decreases |a|
  {
    hide *;
    var s := a + [d] + b;
    var n := Span(a, d);
    NoTokens(d);
    TokenHere(a, n, d);
    Behind(a, n, d, b);
    TokenHere(s, n, d);
    if n < |a| {
      SplitAtDelimiter(a[n..][1..], b, d);
    }
  }

  lemma Behind(a: string, n: nat, d: char, b: string)
    requires n <= |a|
    ensures var s := a + [d] + b;
            s[..n] == a[..n] && s[n..][1..] == if n < |a| then a[n..][1..] + [d] + b else b
    ensures var s := a + [d] + b; n < |s| && s[n] == if n < |a| then a[n] else d
  {}

  lemma TokenAlone(s: string, d: char)
    requires s != [] && Free(s, d)
    ensures Tokens(s, d) == [s]
  {
    assert s[..|s|] == s && s[|s|..] == [];
    TokenHere(s, |s|, d);
  }

  lemma NoTokens(d: char)
    ensures Tokens([], d) == []
  {}

  lemma JoinOne(a: string, rest: string, d: char)
    requires a != [] && Free(a, d)
    ensures Tokens(a + [d] + rest, d) == [a] + Tokens(rest, d)
  {
    hide *;
    TokenAlone(a, d);
    SplitAtDelimiter(a, rest, d);
  }

  lemma HasToken(s: string, i: nat, d: char)
    requires i < |s| && s[i] != d
    ensures Tokens(s, d) != []
    decreases |s|
  {
    if s[0] == d {
      HasToken(s[1..], i - 1, d);
    }
  }

  /** A delimiter with something on both sides. */
  lemma TwoTokens(s: string, i: nat, j: nat, k: nat, d: char)
    requires i < j < k < |s| && s[i] != d && s[j] == d && s[k] != d
    ensures |Tokens(s, d)| >= 2
  {
    var a, b := s[..j], s[j + 1..];
    assert a[i] == s[i] && b[k - j - 1] == s[k];
    hide *;
    HasToken(a, i, d);
    HasToken(b, k - j - 1, d);
    SplitAtDelimiter(a, b, d);
    assert s == a + [d] + b;
  }

  /** Strings that meet without a delimiter share the token they meet in. */
  lemma {:induction false} Glue(a: string, b: string, d: char)
    requires a != [] && b != [] && a[|a| - 1] != d && b[0] != d
    ensures |Tokens(a + b, d)| == |Tokens(a, d)| + |Tokens(b, d)| - 1
    decreases |a|
  {
    var n := Span(a, d);
    hide Tokens, Span;
    TokenHere(a, n, d);
    if n == |a| {
      assert a[..|a|] == a;
      TokenAlone(a, d);
      GlueToken(a, b, d);
    } else {
      var rest := a[n..][1..];
      assert rest != [] && rest[|rest| - 1] == a[|a| - 1];
      Glue(rest, b, d);
      assert (a + b)[..n] == a[..n] && (a + b)[n..][1..] == rest + b;
      TokenHere(a + b, n, d);
    }
  }

  lemma GlueToken(a: string, b: string, d: char)
    requires a != [] && Free(a, d) && b != [] && b[0] != d
    ensures |Tokens(a + b, d)| == |Tokens(b, d)|
  {
    var m := Span(b, d);
    assert m > 0;
    hide Tokens, Span;
    TokenHere(b, m, d);
    assert (a + b)[..|a| + m] == a + b[..m] && (a + b)[|a| + m..] == b[m..];
    TokenHere(a + b, |a| + m, d);
  }

  /** Turning a character inside a token into a delimiter cuts that token in two. */
  lemma CutToken(a: string, c: char, b: string, d: char)
    requires a != [] && b != [] && a[|a| - 1] != d && c != d && b[0] != d
    ensures |Tokens(a + [d] + b, d)| == |Tokens(a + [c] + b, d)| + 1
  {
    hide *;
    TokenAlone([c], d);
    Glue(a, [c], d);
    Glue(a + [c], b, d);
    SplitAtDelimiter(a, b, d);
  }

  lemma OneMoreDelimiter(parts: seq<string>, gaps: seq<nat>, d: char)
    requires |gaps| == |parts| + 1
    ensures Layout(parts, [gaps[0] + 1] + gaps[1..], d) == [d] + Layout(parts, gaps, d)
  {
    assert ([gaps[0] + 1] + gaps[1..])[1..] == gaps[1..];
    assert Fill(d, gaps[0] + 1) == [d] + Fill(d, gaps[0]);
  }

  lemma OneMoreToken(p: string, parts: seq<string>, gaps: seq<nat>, d: char)
    requires |gaps| == |parts| + 1
    ensures Layout([p] + parts, [0] + gaps, d) == p + Layout(parts, gaps, d)
  {
    assert ([p] + parts)[1..] == parts && ([0] + gaps)[1..] == gaps;
    assert Fill(d, 0) == [];
  }

  /** The gaps lay the tokens of the string out as the string. */
  ghost predicate LaidOut(s: string, gaps: seq<nat>, d: char) {
    && AreTokens(Tokens(s, d), d)
    && |gaps| == |Tokens(s, d)| + 1 && Separated(gaps)
    && Layout(Tokens(s, d), gaps, d) == s
    && (s != [] && s[0] == d ==> gaps[0] > 0)
  }

  lemma DelimiterInFront(s: string, g: seq<nat>, d: char)
    requires s != [] && s[0] == d && LaidOut(s[1..], g, d)
    ensures LaidOut(s, [g[0] + 1] + g[1..], d)
  {
    assert Tokens(s, d) == Tokens(s[1..], d);
    hide Tokens, AreTokens;
    OneMoreDelimiter(Tokens(s[1..], d), g, d);
    assert s == [d] + s[1..];
    hide Layout;
  }

  lemma TokenInFront(s: string, n: nat, g: seq<nat>, d: char)
    requires 0 < n <= |s| && n == Span(s, d) && LaidOut(s[n..], g, d)
    ensures LaidOut(s, [0] + g, d)
  {
    var rest, p := Tokens(s[n..], d), s[..n];
    assert Tokens(s, d) == [p] + rest && s[0] != d;
    assert Free(p, d) && p != [];
    NoTokens(d);
    assert n < |s| ==> s[n..][0] == d;
    hide Tokens, Span, Free;
    OneMoreToken(p, rest, g, d);
    assert s == p + s[n..];
    hide Layout;
    TokenGaps(g, |rest|, n < |s|);
    MoreTokens(p, rest, d);
  }

  lemma TokenGaps(g: seq<nat>, k: nat, more: bool)
    requires |g| == k + 1 && Separated(g) && (k > 0 ==> more) && (more ==> g[0] > 0)
    ensures Separated([0] + g)
  {}

  lemma MoreTokens(p: string, rest: seq<string>, d: char)
    requires p != [] && Free(p, d) && AreTokens(rest, d)
    ensures AreTokens([p] + rest, d)
  {
    hide Free;
  }

  /** And every string is such a layout of its tokens: split loses nothing but delimiters. */
  lemma {:induction false} EveryStringIsALayout(s: string, d: char) returns (gaps: seq<nat>)
    ensures AreTokens(Tokens(s, d), d)
    ensures |gaps| == |Tokens(s, d)| + 1 && Separated(gaps)
    ensures Layout(Tokens(s, d), gaps, d) == s
    ensures LaidOut(s, gaps, d)
    decreases |s|
  {
    if s == [] {
      gaps := [0];
    } else if s[0] == d {
      var g := EveryStringIsALayout(s[1..], d);
      DelimiterInFront(s, g, d);
      gaps := [g[0] + 1] + g[1..];
      hide Layout, Tokens, AreTokens, Separated;
    } else {
      var n := Span(s, d);
      var g := EveryStringIsALayout(s[n..], d);
      TokenInFront(s, n, g, d);
      gaps := [0] + g;
      hide Layout, Tokens, AreTokens, Separated;
    }
  }
}
