/** The console's query string (hw3/src/cgi.cpp, hw4/src/cgi.cpp): split at ?, then at &, then at =,
    and the loop that takes three values at a time. */
module Query {
  import opened Decimal
  import opened Tokenizer

  datatype Triple = Triple(host: string, port: string, file: string)

  // ----- Reading --------------------------------------------------------------------------------

  function GetValue(input: string): string {
    var ar := Tokens(input, '=');
    if |ar| == 2 then ar[1] else ""
  }

  function Values(ar: seq<string>): seq<string> {
    seq(|ar|, i requires 0 <= i < |ar| => GetValue(ar[i]))
  }

  /** Triples start at every third place below n, from i on. */
  function Triples(v: seq<string>, i: nat, n: int): seq<Triple>
    decreases |v| - i
  {
    if i < n && i + 2 < |v| then [Triple(v[i], v[i + 1], v[i + 2])] + Triples(v, i + 3, n) else []
  }

  function Fields(query: string): seq<string> {
    var parts := Tokens(query, '?');
    if |parts| < 2 then [] else Tokens(parts[1], '&')
  }

  method ReadValue(input: string) returns (value: string)
    ensures value == GetValue(input)
  {
    var ar := Split(input, '=');
    if |ar| == 2 {
      return ar[1];
    }
    return "";
  }

  /** The loop of main() in hw3: every field belongs to a triple. */
  method Sessions(query: string) returns (re: seq<Triple>)
    requires |Tokens(query, '?')| >= 2 && |Fields(query)| % 3 == 0
    ensures re == Triples(Values(Fields(query)), 0, |Fields(query)|)
  {
    var parts := Split(query, '?');
    var ar := Split(parts[1], '&');
    re := Collect(ar, |ar|);
  }

  function WithoutSlash(uri: string): string {
    var at := Span(uri, '/');
    if at < |uri| then uri[..at] + uri[at + 1..] else uri
  }

  /** The first slash goes, wherever it is. */
  method DropSlash(uri: string) returns (re: string)
    requires '/' in uri
    ensures re == WithoutSlash(uri)
  {
    var at := 0;
    while uri[at] != '/'
      invariant at < |uri| && forall i :: 0 <= i < at ==> uri[i] != '/'
      invariant exists i :: at <= i < |uri| && uri[i] == '/'
      decreases |uri| - at
    {
      at := at + 1;
    }
    assert forall i :: 0 <= i < at ==> uri[..at][i] == uri[i];
    SpanIs(uri, at, '/');
    re := uri[..at] + uri[at + 1..];
  }

  /** The loop of main() in hw4: the last two fields are the proxy's host and port. */
  method SessionsAndProxy(uri: string) returns (re: seq<Triple>, sockHost: string, sockPort: string)
    requires '/' in uri && |Tokens(WithoutSlash(uri), '?')| >= 2 && |Fields(WithoutSlash(uri))| >= 2
    ensures var v := Values(Fields(WithoutSlash(uri)));
            re == Triples(v, 0, |v| - 2) && sockHost == v[|v| - 2] && sockPort == v[|v| - 1]
  {
    var query := DropSlash(uri);
    var parts := Split(query, '?');
    var ar := Split(parts[1], '&');
    sockHost := ReadValue(ar[|ar| - 2]);
    sockPort := ReadValue(ar[|ar| - 1]);
    re := Collect(ar, |ar| - 2);
  }

  /** Three fields a round; every round's third field must be there. */
  method Collect(ar: seq<string>, n: nat) returns (re: seq<Triple>)
    requires n + 2 <= |ar| || (n == |ar| && n % 3 == 0)
    ensures re == Triples(Values(ar), 0, n)
  {
    re := [];
    var i := 0;
    NoTriples(ar, n);
    hide GetValue, Triples, Values;
    while i < n
      invariant i % 3 == 0 && i <= n + 2
      invariant re + Triples(Values(ar), i, n) == Triples(Values(ar), 0, n)
      decreases n - i
    {
      TriplesStep(ar, i, n, re);
      var host := ReadValue(ar[i]);
      i := i + 1;
      var port := ReadValue(ar[i]);
      i := i + 1;
      var file := ReadValue(ar[i]);
      re := re + [Triple(host, port, file)];
      i := i + 1;
    }
  }

  lemma NoTriples(ar: seq<string>, n: nat)
    ensures forall i :: n <= i <= n + 2 ==> Triples(Values(ar), i, n) == []
  {}

  lemma TriplesStep(ar: seq<string>, i: nat, n: int, re: seq<Triple>)
    requires i < n && i + 2 < |ar|
    ensures re + Triples(Values(ar), i, n)
         == (re + [Triple(GetValue(ar[i]), GetValue(ar[i + 1]), GetValue(ar[i + 2]))]) + Triples(Values(ar), i + 3, n)
  {
    hide GetValue;
    var v := Values(ar);
    var next := [Triple(v[i], v[i + 1], v[i + 2])];
    assert Triples(v, i, n) == next + Triples(v, i + 3, n);
    assert re + (next + Triples(v, i + 3, n)) == (re + next) + Triples(v, i + 3, n);
  }

  // ----- Writing --------------------------------------------------------------------------------

  datatype Field = Field(name: string, value: string)

  /** None of the three delimiters. */
  ghost predicate Clean(s: string) {
    Free(s, '?') && Free(s, '&') && Free(s, '=')
  }

  ghost predicate Proper(f: Field) {
    f.name != [] && Clean(f.name) && Clean(f.value)
  }

  ghost predicate AllProper(fields: seq<Field>) {
    forall i :: 0 <= i < |fields| ==> Proper(fields[i])
  }

  function Text(f: Field): string {
    f.name + "=" + f.value
  }

  function Joined(fields: seq<Field>): string {
    if fields == [] then ""
    else if |fields| == 1 then Text(fields[0])
    else Text(fields[0]) + "&" + Joined(fields[1..])
  }

  function Texts(fields: seq<Field>): seq<string> {
    if fields == [] then [] else [Text(fields[0])] + Texts(fields[1..])
  }

  function ValuesOf(fields: seq<Field>): seq<string> {
    if fields == [] then [] else [fields[0].value] + ValuesOf(fields[1..])
  }

  lemma TextIsFree(f: Field)
    requires Proper(f)
    ensures Text(f) != [] && Free(Text(f), '?') && Free(Text(f), '&')
  {}

  /** A value comes back, an empty one too. */
  lemma ValueOfField(f: Field)
    requires Proper(f)
    ensures GetValue(Text(f)) == f.value
  {
    hide Tokens, Free;
    JoinOne(f.name, f.value, '=');
    if f.value == [] {
      NoTokens('=');
    } else {
      TokenAlone(f.value, '=');
    }
  }

  lemma {:induction false} JoinedSplits(fields: seq<Field>)
    requires AllProper(fields)
    ensures Tokens(Joined(fields), '&') == Texts(fields)
    ensures Free(Joined(fields), '?') && (fields != [] ==> Joined(fields) != [])
  {
    if fields != [] {
      var t := Text(fields[0]);
      TextIsFree(fields[0]);
      JoinedSplits(fields[1..]);
      assert |fields| == 1 ==> fields[1..] == [];
      assert Free("&", '?');
      hide Tokens, Text;
      TokenAlone(t, '&');
      JoinOne(t, Joined(fields[1..]), '&');
    } else {
      NoTokens('&');
    }
  }

  lemma {:induction false} TextsHoldValues(fields: seq<Field>)
    requires AllProper(fields)
    ensures Values(Texts(fields)) == ValuesOf(fields)
  {
    if fields != [] {
      ValueOfField(fields[0]);
      TextsHoldValues(fields[1..]);
      hide GetValue, Text, Proper;
      OneMoreValue(Text(fields[0]), Texts(fields[1..]));
    }
  }

  lemma OneMoreValue(t: string, ar: seq<string>)
    ensures Values([t] + ar) == [GetValue(t)] + Values(ar)
  {}

  /** Page name, question mark, fields: the nested split gives the field values back. */
  lemma FieldsComeBack(page: string, fields: seq<Field>)
    requires page != [] && Free(page, '?') && AllProper(fields) && fields != []
    ensures |Tokens(page + "?" + Joined(fields), '?')| == 2
    ensures Values(Fields(page + "?" + Joined(fields))) == ValuesOf(fields)
  {
    hide Tokens, Free, Joined, Values;
    JoinedSplits(fields);
    JoinOne(page, Joined(fields), '?');
    TokenAlone(Joined(fields), '?');
    TextsHoldValues(fields);
  }

  // ----- The form -------------------------------------------------------------------------------

  /** The form's fields h0, p0, f0, h1, ... for the sessions from number id on. */
  function FormFields(triples: seq<Triple>, id: nat): seq<Field> {
    if triples == [] then []
    else
      [Field("h" + ToString(id), triples[0].host), Field("p" + ToString(id), triples[0].port),
       Field("f" + ToString(id), triples[0].file)] + FormFields(triples[1..], id + 1)
  }

  ghost predicate AllClean(triples: seq<Triple>) {
    forall i :: 0 <= i < |triples| ==> Clean(triples[i].host) && Clean(triples[i].port) && Clean(triples[i].file)
  }

  function Flat(triples: seq<Triple>): seq<string> {
    if triples == [] then []
    else [triples[0].host, triples[0].port, triples[0].file] + Flat(triples[1..])
  }

  lemma NameIsClean(c: char, id: nat)
    requires c == 'h' || c == 'p' || c == 'f'
    ensures Clean([c] + ToString(id))
  {
    ValueOfText(id);
  }

  lemma {:induction false} FormIsProper(triples: seq<Triple>, id: nat)
    requires AllClean(triples)
    ensures AllProper(FormFields(triples, id)) && ValuesOf(FormFields(triples, id)) == Flat(triples)
  {
    if triples != [] {
      var t := triples[0];
      NameIsClean('h', id);
      NameIsClean('p', id);
      NameIsClean('f', id);
      FormIsProper(triples[1..], id + 1);
      var rest := FormFields(triples[1..], id + 1);
      var h, p, f := Field("h" + ToString(id), t.host), Field("p" + ToString(id), t.port), Field("f" + ToString(id), t.file);
      assert Proper(h) && Proper(p) && Proper(f);
      hide Clean, ToString, Proper, AllProper, ValuesOf;
      FrontThree(h, p, f, rest);
    }
  }

  lemma FrontThree(h: Field, p: Field, f: Field, rest: seq<Field>)
    ensures ValuesOf([h, p, f] + rest) == [h.value, p.value, f.value] + ValuesOf(rest)
    ensures Proper(h) && Proper(p) && Proper(f) && AllProper(rest) ==> AllProper([h, p, f] + rest)
  {
    Front(h, [p, f] + rest);
    Front(p, [f] + rest);
    Front(f, rest);
    hide *;
    assert [h, p, f] + rest == [h] + ([p, f] + rest);
    assert [p, f] + rest == [p] + ([f] + rest);
  }

  lemma Front(f: Field, rest: seq<Field>)
    ensures ValuesOf([f] + rest) == [f.value] + ValuesOf(rest)
    ensures Proper(f) && AllProper(rest) ==> AllProper([f] + rest)
  {
    assert ([f] + rest)[1..] == rest;
  }

  lemma {:induction false} TriplesOfFlat(before: seq<string>, triples: seq<Triple>, tail: seq<string>)
    ensures Triples(before + Flat(triples) + tail, |before|, |before| + |Flat(triples)|) == triples
    decreases triples
  {
    if triples != [] {
      var t := triples[0];
      var three := [t.host, t.port, t.file];
      TriplesOfFlat(before + three, triples[1..], tail);
      assert before + three + Flat(triples[1..]) + tail == before + Flat(triples) + tail;
    }
  }

  /** What the form asks for with these sessions filled in. */
  function FormQuery(page: string, triples: seq<Triple>): string {
    page + "?" + Joined(FormFields(triples, 0))
  }

  /** The same in hw4, where the form ends with the proxy's host and port and the slash is still there. */
  function ProxyUri(page: string, triples: seq<Triple>, host: Field, port: Field): string {
    "/" + (page + "?" + Joined(FormFields(triples, 0) + [host, port]))
  }

  /** hw3: the sessions filled into the form come back, in order, empty values included. */
  lemma SessionsComeBack(page: string, triples: seq<Triple>)
    requires page != [] && Free(page, '?') && AllClean(triples) && triples != []
    ensures var query := FormQuery(page, triples);
            |Tokens(query, '?')| == 2 && |Fields(query)| == 3 * |triples|
            && Triples(Values(Fields(query)), 0, |Fields(query)|) == triples
  {
    FormIsProper(triples, 0);
    FieldsComeBack(page, FormFields(triples, 0));
    TriplesOfFlat([], triples, []);
    FlatLength(triples);
    assert [] + Flat(triples) + [] == Flat(triples);
    hide Tokens, FormFields, Flat, Joined, Triples;
  }

  lemma {:induction false} FlatLength(triples: seq<Triple>)
    ensures |Flat(triples)| == 3 * |triples|
  {
    if triples != [] {
      FlatLength(triples[1..]);
    }
  }

  lemma {:induction false} ValuesConcat(a: seq<Field>, b: seq<Field>)
    ensures ValuesOf(a + b) == ValuesOf(a) + ValuesOf(b)
  {
    if a == [] {
      assert a + b == b;
    } else {
      assert (a + b)[1..] == a[1..] + b;
      ValuesConcat(a[1..], b);
    }
  }

  lemma SlashGoes(page: string)
    ensures '/' in "/" + page && WithoutSlash("/" + page) == page
  {
    var s := "/" + page;
    assert s[0] == '/' && s[1..] == page && s[..0] == [];
  }

  /** hw4: so do the sessions, possibly none, and the proxy's host and port behind them. */
  lemma SessionsAndProxyComeBack(page: string, triples: seq<Triple>, host: Field, port: Field)
    requires page != [] && Free(page, '?') && AllClean(triples) && Proper(host) && Proper(port)
    ensures var uri := ProxyUri(page, triples, host, port);
            '/' in uri && |Tokens(WithoutSlash(uri), '?')| >= 2
            && var v := Values(Fields(WithoutSlash(uri)));
               |v| >= 2 && Triples(v, 0, |v| - 2) == triples
               && v[|v| - 2] == host.value && v[|v| - 1] == port.value
  {
    var fields := FormFields(triples, 0) + [host, port];
    hide *;
    FormAndProxy(triples, host, port);
    ProxyUriIs(page, triples, host, port);
    TwoBehind(triples, host.value, port.value);
    SlashGoes(page + "?" + Joined(fields));
    FieldsComeBack(page, fields);
  }

  lemma ProxyUriIs(page: string, triples: seq<Triple>, host: Field, port: Field)
    ensures ProxyUri(page, triples, host, port) == "/" + (page + "?" + Joined(FormFields(triples, 0) + [host, port]))
  {}

  lemma TwoBehind(triples: seq<Triple>, host: string, port: string)
    ensures var v := Flat(triples) + [host, port];
            Triples(v, 0, |v| - 2) == triples && v[|v| - 2] == host && v[|v| - 1] == port
  {
    TriplesOfFlat([], triples, [host, port]);
    hide *;
    assert [] + Flat(triples) + [host, port] == Flat(triples) + [host, port];
  }

  lemma FormAndProxy(triples: seq<Triple>, host: Field, port: Field)
    requires AllClean(triples) && Proper(host) && Proper(port)
    ensures var fields := FormFields(triples, 0) + [host, port];
            AllProper(fields) && ValuesOf(fields) == Flat(triples) + [host.value, port.value]
  {
    FormIsProper(triples, 0);
    ValuesConcat(FormFields(triples, 0), [host, port]);
    Front(host, [port]);
    Front(port, []);
    assert [host, port] == [host] + [port] && [port] == [port] + [];
    hide Proper, FormFields, Flat;
  }

  // ----- Texts that no form produces ------------------------------------------------------------

  /** Only a text of exactly two pieces has a value, the second; a nameless or a doubled one has none. */
  lemma ValueIs(a: string, b: string, c: string)
    requires Free(a, '=') && Free(b, '=') && Free(c, '=')
    ensures GetValue(a) == "" && GetValue(a + "=" + b) == if a == "" then "" else b
    ensures GetValue(a + "=" + b + "=" + c) ==
      if a == "" && b != "" && c != "" then c
      else if a != "" && b != "" && c == "" then b
      else if a != "" && b == "" && c != "" then c
      else ""
  {
    PieceOf(a);
    PieceOf(b);
    PieceOf(c);
    hide *;
    SplitAtDelimiter(a, b, '=');
    SplitAtDelimiter(a + "=" + b, c, '=');
    GetOf(a);
    GetOf(a + "=" + b);
    GetOf(a + "=" + b + "=" + c);
  }

  lemma PieceOf(a: string)
    requires Free(a, '=')
    ensures Tokens(a, '=') == if a == "" then [] else [a]
  {
    if a == "" {
      NoTokens('=');
    } else {
      TokenAlone(a, '=');
    }
  }

  lemma GetOf(a: string)
    ensures GetValue(a) == if |Tokens(a, '=')| == 2 then Tokens(a, '=')[1] else ""
  {}

  /** The fields are what stands between the first two question marks, and there are none without one. */
  lemma FieldsAre(page: string, form: string, more: string)
    requires page != "" && form != "" && Free(page, '?') && Free(form, '?')
    ensures Fields(page + "?" + form + "?" + more) == Fields(page + "?" + form) == Tokens(form, '&')
    ensures Fields(page) == []
  {
    FieldsOf(page);
    FieldsOf(page + "?" + form);
    FieldsOf(page + "?" + form + "?" + more);
    hide *;
    TokenAlone(page, '?');
    TokenAlone(form, '?');
    SplitAtDelimiter(page, form, '?');
    SplitAtDelimiter(page + "?" + form, more, '?');
  }

  lemma FieldsOf(query: string)
    ensures var parts := Tokens(query, '?'); Fields(query) == if |parts| < 2 then [] else Tokens(parts[1], '&')
  {}

  /** The first slash goes, and what has none stays. */
  lemma FirstSlashGoes(a: string, b: string)
    requires Free(a, '/')
    ensures WithoutSlash(a + "/" + b) == a + b && WithoutSlash(a) == a
  {
    var s := a + "/" + b;
    assert s[..|a|] == a && s[|a| + 1..] == b && a[..|a|] == a;
    SpanIs(s, |a|, '/');
    SpanIs(a, |a|, '/');
  }

  /** Three values a round, in their order. */
  lemma {:induction false} TripleAt(v: seq<string>, i: nat, n: nat, j: nat)
    requires n <= |v| && i <= n && (n - i) % 3 == 0
    ensures |Triples(v, i, n)| == (n - i) / 3
    ensures i + 3 * j < n ==> Triples(v, i, n)[j] == Triple(v[i + 3 * j], v[i + 3 * j + 1], v[i + 3 * j + 2])
    decreases |v| - i
  {
    if i < n {
      TripleAt(v, i + 3, n, if j == 0 then 0 else j - 1);
    }
  }
}
