/** Escaping of session output in the console page (hw3/src/cgi.cpp): six replace_all passes one after
    the other, two more before printing, and the script element that carries the text. */
module Html {
  import opened Common
  import opened Decimal
  import opened Tokenizer

  // ----- One pass -------------------------------------------------------------------------------

  /** replace_all() for a pattern of one character. */
  function Replaced(s: string, c: char, sub: string): string {
    if s == [] then [] else (if s[0] == c then sub else [s[0]]) + Replaced(s[1..], c, sub)
  }

  lemma {:induction false} ReplacedConcat(a: string, b: string, c: char, sub: string)
    ensures Replaced(a + b, c, sub) == Replaced(a, c, sub) + Replaced(b, c, sub)
  {
    if a == [] {
      assert a + b == b;
    } else {
      assert (a + b)[1..] == a[1..] + b;
      ReplacedConcat(a[1..], b, c, sub);
    }
  }

  /** A pass touches nothing iff its character does not occur, whatever else the substitute is. */
  lemma {:induction false} ReplacedFree(s: string, c: char, sub: string)
    requires Free(s, c)
    ensures Replaced(s, c, sub) == s
  {
    if s != [] {
      ReplacedFree(s[1..], c, sub);
    }
  }

  /** One character further: what is behind it in the text is what was behind it. */
  lemma ReplaceStep(done: string, rest: string, c: char, sub: string)
    requires rest != []
    ensures var now := if rest[0] == c then sub else [rest[0]];
            done + Replaced(rest, c, sub) == (done + now) + Replaced(rest[1..], c, sub)
            && (done + rest)[..|done|] + now + (done + rest)[|done| + 1..] == (done + now) + rest[1..]
  {
    var now := if rest[0] == c then sub else [rest[0]];
    assert Replaced(rest, c, sub) == now + Replaced(rest[1..], c, sub);
    hide Replaced;
    var t := done + rest;
    assert t[..|done|] == done;
    assert t[|done| + 1..] == rest[1..];
    Assoc(done, now, Replaced(rest[1..], c, sub));
  }

  /** In place: behind a substitution the search goes on behind the substitute. */
  method ReplaceAll(s: string, c: char, sub: string) returns (content: string)
    ensures content == Replaced(s, c, sub)
  {
    content := s;
    var i := 0;
    ghost var done, rest: string := [], s;
    assert [] + s == s;
    assert Replaced([], c, sub) == [];
    hide Replaced;
    while i < |content|
      invariant i == |done| && content == done + rest
      invariant done + Replaced(rest, c, sub) == Replaced(s, c, sub)
      decreases |rest|
    {
      ReplaceStep(done, rest, c, sub);
      assert content[i] == rest[0];
      if content[i] == c {
        content, i := content[..i] + sub + content[i + 1..], i + |sub|;
        done, rest := done + sub, rest[1..];
      } else {
        assert content[..i] + [content[i]] + content[i + 1..] == content;
        i := i + 1;
        done, rest := done + [rest[0]], rest[1..];
      }
    }
  }

  // ----- All passes -----------------------------------------------------------------------------

  const AMP := "&amp;"
  const QUOT := "&quot;"
  const APOS := "&apos;"
  const LT := "&lt;"
  const GT := "&gt;"
  const NEW_LINE := "&NewLine;"

  method ReplaceHtmlChar(s: string) returns (content: string)
    ensures content == Escaped(s)
  {
    content := ReplaceAll(s, '&', AMP);
    content := ReplaceAll(content, '\"', QUOT);
    content := ReplaceAll(content, '\'', APOS);
    content := ReplaceAll(content, '<', LT);
    content := ReplaceAll(content, '>', GT);
    content := ReplaceAll(content, '\n', NEW_LINE);
    PassesAreOneMap(s);
  }

  /** The named reference of a character (section 13.5 of the WHATWG HTML Standard), or the character. */
  function Reference(c: char): (r: string)
    ensures r != []
  {
    match c
    case '&' => AMP
    case '\"' => QUOT
    case '\'' => APOS
    case '<' => LT
    case '>' => GT
    case '\n' => NEW_LINE
    case _ => [c]
  }

  /** Character by character. */
  function Escaped(s: string): string {
    if s == [] then [] else Reference(s[0]) + Escaped(s[1..])
  }

  function Passes(s: string): string {
    Replaced(Replaced(Replaced(Replaced(Replaced(Replaced(s,
      '&', AMP), '\"', QUOT), '\'', APOS), '<', LT), '>', GT), '\n', NEW_LINE)
  }

  lemma PassesConcat(a: string, b: string)
    ensures Passes(a + b) == Passes(a) + Passes(b)
  {
    hide Replaced;
    ReplacedConcat(a, b, '&', AMP);
    var a1, b1 := Replaced(a, '&', AMP), Replaced(b, '&', AMP);
    ReplacedConcat(a1, b1, '\"', QUOT);
    var a2, b2 := Replaced(a1, '\"', QUOT), Replaced(b1, '\"', QUOT);
    ReplacedConcat(a2, b2, '\'', APOS);
    var a3, b3 := Replaced(a2, '\'', APOS), Replaced(b2, '\'', APOS);
    ReplacedConcat(a3, b3, '<', LT);
    var a4, b4 := Replaced(a3, '<', LT), Replaced(b3, '<', LT);
    ReplacedConcat(a4, b4, '>', GT);
    ReplacedConcat(Replaced(a4, '>', GT), Replaced(b4, '>', GT), '\n', NEW_LINE);
  }

  lemma OnePass(x: char, c: char, sub: string)
    ensures Replaced([x], c, sub) == if x == c then sub else [x]
  {
    assert [x][1..] == [];
  }

  /** Of one character: its own pass turns it into its reference, and no later pass touches that. */
  lemma PassesOfOne(x: char)
    ensures Passes([x]) == Reference(x)
  {
    hide Replaced, Free;
    OnePass(x, '&', AMP);
    OnePass(x, '\"', QUOT);
    OnePass(x, '\'', APOS);
    OnePass(x, '<', LT);
    OnePass(x, '>', GT);
    OnePass(x, '\n', NEW_LINE);
    PlainReference(x);
    LaterPasses(Reference(x));
  }

  predicate Plain(s: string) {
    Free(s, '\"') && Free(s, '\'') && Free(s, '<') && Free(s, '>') && Free(s, '\n')
  }

  lemma LaterPasses(s: string)
    requires Plain(s)
    ensures Replaced(s, '\"', QUOT) == s && Replaced(s, '\'', APOS) == s
    ensures Replaced(s, '<', LT) == s && Replaced(s, '>', GT) == s && Replaced(s, '\n', NEW_LINE) == s
  {
    ReplacedFree(s, '\"', QUOT);
    ReplacedFree(s, '\'', APOS);
    ReplacedFree(s, '<', LT);
    ReplacedFree(s, '>', GT);
    ReplacedFree(s, '\n', NEW_LINE);
  }

  /** The six passes in their order are one map over the characters. */
  lemma {:induction false} PassesAreOneMap(s: string)
    ensures Passes(s) == Escaped(s)
  {
    if s != [] {
      assert s == [s[0]] + s[1..];
      PassesConcat([s[0]], s[1..]);
      PassesOfOne(s[0]);
      PassesAreOneMap(s[1..]);
    }
  }

  lemma PlainReference(c: char)
    ensures Plain(Reference(c))
  {}

  /** The result holds no quote, angle bracket or newline. */
  lemma {:induction false} EscapedIsPlain(s: string)
    ensures Plain(Escaped(s))
  {
    if s != [] {
      PlainReference(s[0]);
      EscapedIsPlain(s[1..]);
    }
  }

  // ----- Reading the references back ------------------------------------------------------------

  /** What a reader of HTML does with these references. */
  function Unescaped(t: string): string
    decreases |t|
  {
    if t == [] then []
    else if AMP <= t then ['&'] + Unescaped(t[5..])
    else if QUOT <= t then ['\"'] + Unescaped(t[6..])
    else if APOS <= t then ['\''] + Unescaped(t[6..])
    else if LT <= t then ['<'] + Unescaped(t[4..])
    else if GT <= t then ['>'] + Unescaped(t[4..])
    else if NEW_LINE <= t then ['\n'] + Unescaped(t[9..])
    else [t[0]] + Unescaped(t[1..])
  }

  lemma UnescapeOne(c: char, rest: string)
    ensures Unescaped(Reference(c) + rest) == [c] + Unescaped(rest)
  {
    var r := Reference(c);
    var t := r + rest;
    assert t[|r|..] == rest;
    Starts(r, rest, AMP);
    Starts(r, rest, QUOT);
    Starts(r, rest, APOS);
    Starts(r, rest, LT);
    Starts(r, rest, GT);
    Starts(r, rest, NEW_LINE);
  }

  /** No reference starts another, and only an ampersand starts one. */
  lemma Starts(r: string, rest: string, name: string)
    requires r != [] && |name| >= 3
    requires r[0] != name[0] || (|r| >= 3 && (r[1] != name[1] || r[2] != name[2])) || r == name
    ensures name <= r + rest <==> r == name
  {
    var t := r + rest;
    if r == name {
      assert t[..|r|] == r;
    } else {
      assert t[0] == r[0] && (|r| >= 3 ==> t[1] == r[1] && t[2] == r[2]);
    }
  }

  /** Reading undoes escaping, so escaping loses nothing. */
  lemma {:induction false} UnescapeEscaped(s: string)
    ensures Unescaped(Escaped(s)) == s
  {
    if s != [] {
      UnescapeOne(s[0], Escaped(s[1..]));
      UnescapeEscaped(s[1..]);
    }
  }

  // ----- What is printed ------------------------------------------------------------------------

  /** output_command(), output_shell() and output_host() differ in the element they write to. */
  datatype Target = Command | Shell | Host

  function ElementId(target: Target, id: nat): string {
    (if target.Host? then "h" else "s") + ToString(id)
  }

  const OPEN := "<script>document.getElementById("
  const APPEND := ").innerHTML += "
  const CLOSE := ";</script>"

  function Body(target: Target, content: string): string {
    if target.Shell? then "<b>" + content + "</b>" else content
  }

  function Element(target: Target, id: nat, content: string): string {
    OPEN + "'" + (ElementId(target, id) + "'" + (APPEND + "'" + (Body(target, content) + "'" + CLOSE)))
  }

  /** Each character's reference, and nothing for a carriage return. */
  function Shown(s: string): string {
    if s == [] then [] else (if s[0] == '\r' then [] else Reference(s[0])) + Shown(s[1..])
  }

  method Output(target: Target, id: nat, s: string) returns (out: string)
    ensures out == Element(target, id, Shown(s))
  {
    var content := ReplaceHtmlChar(s);
    content := ReplaceAll(content, '\n', "&#13");
    content := ReplaceAll(content, '\r', "");
    SecondNewlinePass(s);
    out := Element(target, id, content);
  }

  lemma {:induction false} EscapedConcat(a: string, b: string)
    ensures Escaped(a + b) == Escaped(a) + Escaped(b)
  {
    if a == [] {
      assert a + b == b;
    } else {
      assert (a + b)[1..] == a[1..] + b;
      EscapedConcat(a[1..], b);
    }
  }

  /** Wherever a character stands: six of them are written as their names, any other as itself; what is shown
      leaves out carriage returns besides. */
  lemma CharacterIsWritten(a: string, c: char, b: string)
    ensures var name :=
        if c == '&' then "&amp;" else if c == '\"' then "&quot;" else if c == '\'' then "&apos;"
        else if c == '<' then "&lt;" else if c == '>' then "&gt;" else if c == '\n' then "&NewLine;" else [c];
      && Escaped(a + [c] + b) == Escaped(a) + name + Escaped(b)
      && Shown(a + [c] + b) == Shown(a) + (if c == '\r' then "" else name) + Shown(b)
    ensures Escaped("") == "" && Shown("") == ""
  {
    EscapedConcat(a + [c], b);
    EscapedConcat(a, [c]);
    ShownConcat(a + [c], b);
    ShownConcat(a, [c]);
    assert [c][1..] == [];
    hide Escaped, Shown;
    OneEscaped(c);
  }

  lemma OneEscaped(c: char)
    ensures Escaped([c]) == Reference(c) && Shown([c]) == if c == '\r' then [] else Reference(c)
  {
    assert [c][1..] == [];
  }

  /** The whole text that is printed: a command is written to the element s of its session, what the session
      answers to the same in bold, and its host to the element h. */
  lemma ElementIs(target: Target, id: nat, content: string)
    ensures var name := match target case Command => "s" case Shell => "s" case Host => "h";
      var text := match target case Command => content case Shell => "<b>" + content + "</b>" case Host => content;
      Element(target, id, content)
        == "<script>document.getElementById('" + (name + ToString(id)) + "').innerHTML += '" + text + "';</script>"
  {
    hide *;
    var name := match target case Command => "s" case Shell => "s" case Host => "h";
    var text := match target case Command => content case Shell => "<b>" + content + "</b>" case Host => content;
    Quotes();
    Framed(OPEN, name + ToString(id), APPEND, text, "'" + CLOSE);
    FrameIs(target, id, content, name, text);
  }

  lemma FrameIs(target: Target, id: nat, content: string, name: string, text: string)
    requires name == match target case Command => "s" case Shell => "s" case Host => "h"
    requires text == match target case Command => content case Shell => "<b>" + content + "</b>" case Host => content
    ensures Element(target, id, content)
         == OPEN + "'" + ((name + ToString(id)) + "'" + (APPEND + "'" + (text + ("'" + CLOSE))))
  {
    hide ToString;
    Assoc(text, "'", CLOSE);
  }

  lemma Quotes()
    ensures OPEN + "'" == "<script>document.getElementById('"
    ensures "'" + (APPEND + "'") == "').innerHTML += '"
    ensures "'" + CLOSE == "';</script>"
  {}

  lemma Framed(open: string, id: string, append: string, body: string, close: string)
    ensures open + "'" + (id + "'" + (append + "'" + (body + close)))
         == (open + "'") + id + ("'" + (append + "'")) + body + close
  {}

  /** The second newline pass finds none; the last pass drops the carriage returns of the input. */
  lemma SecondNewlinePass(s: string)
    ensures Replaced(Escaped(s), '\n', "&#13") == Escaped(s)
    ensures Replaced(Escaped(s), '\r', "") == Shown(s)
  {
    EscapedIsPlain(s);
    ReplacedFree(Escaped(s), '\n', "&#13");
    DropReturns(s);
  }

  lemma {:induction false} DropReturns(s: string)
    ensures Replaced(Escaped(s), '\r', "") == Shown(s)
  {
    if s != [] {
      var c, rest := s[0], Escaped(s[1..]);
      DropReturns(s[1..]);
      DropOne(c);
      hide Reference, Replaced;
      ReplacedConcat(Reference(c), rest, '\r', "");
    }
  }

  lemma DropOne(c: char)
    ensures Replaced(Reference(c), '\r', "") == if c == '\r' then [] else Reference(c)
  {
    if c == '\r' {
      OnePass(c, '\r', "");
    } else {
      NoReturn(c);
      ReplacedFree(Reference(c), '\r', "");
    }
  }

  lemma NoReturn(c: char)
    requires c != '\r'
    ensures Free(Reference(c), '\r')
  {}

  /** Where the input is cut into chunks does not matter. */
  lemma {:induction false} ShownConcat(a: string, b: string)
    ensures Shown(a + b) == Shown(a) + Shown(b)
  {
    if a == [] {
      assert a + b == b;
    } else {
      assert (a + b)[1..] == a[1..] + b;
      ShownConcat(a[1..], b);
    }
  }

  function Flat(chunks: seq<string>): string {
    if chunks == [] then [] else chunks[0] + Flat(chunks[1..])
  }

  function ShownEach(chunks: seq<string>): seq<string> {
    if chunks == [] then [] else [Shown(chunks[0])] + ShownEach(chunks[1..])
  }

  lemma {:induction false} ChunksDoNotMatter(chunks: seq<string>)
    ensures Flat(ShownEach(chunks)) == Shown(Flat(chunks))
  {
    if chunks != [] {
      ShownConcat(chunks[0], Flat(chunks[1..]));
      ChunksDoNotMatter(chunks[1..]);
    }
  }

  /** What is shown reads as the input without its carriage returns. */
  lemma {:induction false} ShownReadsBack(s: string)
    ensures Unescaped(Shown(s)) == Replaced(s, '\r', "")
  {
    if s != [] {
      ShownReadsBack(s[1..]);
      UnescapeOne(s[0], Shown(s[1..]));
      hide Unescaped, Reference;
      assert [] + Shown(s[1..]) == Shown(s[1..]);
    }
  }

  lemma {:induction false} ShownIsPlain(s: string)
    ensures Plain(Shown(s))
  {
    if s != [] {
      PlainReference(s[0]);
      ShownIsPlain(s[1..]);
    }
  }

  lemma IdIsFree(target: Target, id: nat)
    ensures ElementId(target, id) != [] && Free(ElementId(target, id), '\'')
  {
    ValueOfText(id);
  }

  lemma BodyIsFree(target: Target, s: string)
    ensures Free(Body(target, Shown(s)), '\'')
  {
    ShownIsPlain(s);
    hide Shown;
  }

  /** Cut at its quotes, the script element gives back its two literals: the element's name and the
      text, whatever the session printed. */
  lemma ElementHoldsText(target: Target, id: nat, s: string)
    ensures var body := Body(target, Shown(s));
            Tokens(Element(target, id, Shown(s)), '\'')
            == [OPEN, ElementId(target, id), APPEND] + (if body == [] then [] else [body]) + [CLOSE]
  {
    var body, name := Body(target, Shown(s)), ElementId(target, id);
    IdIsFree(target, id);
    BodyIsFree(target, s);
    ScriptIsFree();
    hide Tokens, Free, Body, ElementId, Shown;
    QuotedParts(OPEN, name, APPEND, body, CLOSE, '\'');
  }

  lemma ScriptIsFree()
    ensures Free(OPEN, '\'') && Free(APPEND, '\'') && Free(CLOSE, '\'')
  {}

  lemma QuotedParts(a: string, b: string, c: string, body: string, e: string, d: char)
    requires a != [] && b != [] && c != [] && e != []
    requires Free(a, d) && Free(b, d) && Free(c, d) && Free(body, d) && Free(e, d)
    ensures Tokens(a + [d] + (b + [d] + (c + [d] + (body + [d] + e))), d)
            == [a, b, c] + (if body == [] then [] else [body]) + [e]
  {
    hide *;
    var rest := body + [d] + e;
    SplitAtDelimiter(body, e, d);
    TokenAlone(e, d);
    if body != [] {
      TokenAlone(body, d);
    } else {
      NoTokens(d);
    }
    JoinOne(c, rest, d);
    JoinOne(b, c + [d] + rest, d);
    JoinOne(a, b + [d] + (c + [d] + rest), d);
  }

  // ----- What the page's script reads -----------------------------------------------------------

  /** An escape sequence of a script: how many characters behind the backslash it takes, and for what. */
  datatype Taken = Taken(len: nat, text: string)

  /** What stands behind a backslash, in a table of the script language's escape sequences.  Each takes
      at least one character and stands for one at most (section 12.9.4 of ECMA-262). */
  ghost predicate Shortens(table: string -> Option<Taken>) {
    forall t: string :: table(t).Some? ==> table(t).value.len >= 1 && |table(t).value.text| <= 1
  }

  /** The value of a string literal, read from behind its opening single quote to its closing one. */
  function Literal(t: string, table: string -> Option<Taken>): Option<string>
    decreases |t|
  {
    if t == [] then None
    else if t[0] == '\'' then Some([])
    else if t[0] == '\\' then
      var r := table(t[1..]);
      if r.None? || r.value.len > |t| - 1 then None
      else
        var rest := Literal(t[1..][r.value.len..], table);
        if rest.None? then None else Some(r.value.text + rest.value)
    else
      var rest := Literal(t[1..], table);
      if rest.None? then None else Some([t[0]] + rest.value)
  }

  lemma {:induction false} Unclosed(t: string, table: string -> Option<Taken>)
    requires Free(t, '\'')
    ensures Literal(t, table).None?
    decreases |t|
  {
    if t != [] {
      if t[0] == '\\' {
        var r := table(t[1..]);
        if r.Some? && r.value.len <= |t| - 1 {
          Unclosed(t[1..][r.value.len..], table);
        }
      } else {
        Unclosed(t[1..], table);
      }
    }
  }

  lemma {:induction false} LiteralOfPlain(w: string, rest: string, table: string -> Option<Taken>)
    requires Free(w, '\'') && Free(w, '\\')
    ensures Literal(w + "'" + rest, table) == Some(w)
    decreases |w|
  {
    var t := w + "'" + rest;
    if w != [] {
      LiteralOfPlain(w[1..], rest, table);
      assert t[1..] == w[1..] + "'" + rest;
      assert t[0] == w[0] && w[0] != '\'' && w[0] != '\\';
      assert [w[0]] + w[1..] == w;
    } else {
      assert t[0] == '\'';
    }
  }

  /** Text with a backslash in it comes out shorter, if the literal is closed at all. */
  lemma {:induction false} LiteralShrinks(w: string, rest: string, table: string -> Option<Taken>)
    requires Shortens(table) && Free(w, '\'') && Free(rest, '\'')
    ensures var v := Literal(w + "'" + rest, table);
            v.Some? ==> |v.value| <= |w| && (!Free(w, '\\') ==> |v.value| < |w|)
    decreases |w|
  {
    var t := w + "'" + rest;
    if w != [] {
      assert t[1..] == w[1..] + "'" + rest;
      if w[0] == '\\' {
        var r := table(t[1..]);
        if r.Some? && r.value.len <= |t| - 1 {
          AfterEscape(w, rest, r.value.len, table);
          if r.value.len < |w| {
            LiteralShrinks(w[1..][r.value.len..], rest, table);
          }
        }
      } else {
        LiteralShrinks(w[1..], rest, table);
        assert Free(w, '\\') <==> Free(w[1..], '\\') by {
          assert w == [w[0]] + w[1..];
        }
      }
    }
  }

  /** Behind an escape at the front of w: the rest of w, or a string that is never closed. */
  lemma AfterEscape(w: string, rest: string, len: nat, table: string -> Option<Taken>)
    requires w != [] && Free(w, '\'') && Free(rest, '\'') && 1 <= len <= |w + "'" + rest| - 1
    ensures var t := (w + "'" + rest)[1..][len..];
            if len < |w| then t == w[1..][len..] + "'" + rest && Free(w[1..][len..], '\'')
            else Literal(t, table).None?
  {
    var t := (w + "'" + rest)[1..][len..];
    if len >= |w| {
      assert t == rest[len - |w|..];
      Unclosed(t, table);
    }
  }

  lemma {:induction false} ShownBackslash(s: string)
    ensures Free(Shown(s), '\\') <==> Free(s, '\\')
  {
    if s != [] {
      ShownBackslash(s[1..]);
      ReferenceBackslash(s[0]);
      var r := if s[0] == '\r' then [] else Reference(s[0]);
      assert Free(r, '\\') <==> s[0] != '\\';
      hide Shown, Reference, Free;
      FreeConcat(r, Shown(s[1..]), '\\');
      FreeConcat([s[0]], s[1..], '\\');
      assert [s[0]] + s[1..] == s;
      FreeOne(s[0], '\\');
      ShownFront(s);
    }
  }

  lemma ShownFront(s: string)
    requires s != []
    ensures Shown(s) == (if s[0] == '\r' then [] else Reference(s[0])) + Shown(s[1..])
  {}

  lemma ReferenceBackslash(c: char)
    ensures Free(Reference(c), '\\') <==> c != '\\'
  {
    if Reference(c) == [c] {
      FreeOne(c, '\\');
    }
  }

  lemma FreeOne(x: char, c: char)
    ensures Free([x], c) <==> x != c
  {
    assert [x][0] == x;
  }

  lemma FreeConcat(a: string, b: string, c: char)
    ensures Free(a + b, c) <==> Free(a, c) && Free(b, c)
  {
    assert forall i :: 0 <= i < |a| ==> (a + b)[i] == a[i];
    assert forall i :: 0 <= i < |b| ==> (a + b)[|a| + i] == b[i];
  }

  lemma BodyBackslash(target: Target, s: string)
    ensures Free(Body(target, Shown(s)), '\\') <==> Free(s, '\\')
  {
    ShownBackslash(s);
    assert Free("<b>", '\\') && Free("</b>", '\\');
    hide Shown, Free;
    FreeConcat("<b>", Shown(s), '\\');
    FreeConcat("<b>" + Shown(s), "</b>", '\\');
  }

  /** The page's script reads the text's literal as the text that was put there iff the session printed
      no backslash: a backslash is not escaped, so it takes what follows it, be it the closing quote.
      Without one the page shows what the session printed, without its carriage returns. */
  lemma PageShowsIff(target: Target, s: string, table: string -> Option<Taken>)
    requires Shortens(table)
    ensures Literal(Body(target, Shown(s)) + "'" + CLOSE, table) == Some(Body(target, Shown(s))) <==> '\\' !in s
    ensures Unescaped(Shown(s)) == Replaced(s, '\r', "")
  {
    ShownReadsBack(s);
    BodyIsFree(target, s);
    BodyBackslash(target, s);
    assert Free(CLOSE, '\'');
    assert Free(s, '\\') <==> '\\' !in s;
    var body := Body(target, Shown(s));
    hide Shown, Body, Literal, Free, Shortens, Unescaped, Replaced;
    if '\\' !in s {
      LiteralOfPlain(body, CLOSE, table);
    } else {
      LiteralShrinks(body, CLOSE, table);
    }
  }

  /** The one-character escapes; every other character stands for itself. */
  function OneCharacter(t: string): Option<Taken> {
    if t == [] then None
    else Some(Taken(1, [match t[0] case 'n' => '\n' case 't' => '\t' case 'r' => '\r' case c => c]))
  }

  /** The failing inputs: a lone backslash swallows the closing quote, so the script has no such literal;
      and a path comes out with a newline in it. */
  lemma BackslashBreaks()
    ensures Shortens(OneCharacter)
    ensures Literal(Body(Command, Shown("\\")) + "'" + CLOSE, OneCharacter) == None
    ensures Literal(Body(Command, Shown("C:\\new")) + "'" + CLOSE, OneCharacter) == Some("C:\new")
  {
    PathShown();
    LoneBackslash();
    PathRead();
  }

  lemma PathShown()
    ensures Shown("\\") == "\\" && Shown("C:\\new") == "C:\\new"
  {
    ShownPlain("\\");
    ShownPlain("C:\\new");
  }

  lemma {:induction false} ShownPlain(s: string)
    requires forall i :: 0 <= i < |s| ==> Reference(s[i]) == [s[i]] && s[i] != '\r'
    ensures Shown(s) == s
  {
    if s != [] {
      ShownPlain(s[1..]);
    }
  }

  lemma LoneBackslash()
    ensures Literal("\\" + "'" + CLOSE, OneCharacter) == None
  {
    var t := "\\" + "'" + CLOSE;
    assert t[1..][1..] == CLOSE && t[1..][0] == '\'';
    assert Free(CLOSE, '\'');
    Unclosed(CLOSE, OneCharacter);
  }

  lemma PathRead()
    ensures Literal("C:\\new" + "'" + CLOSE, OneCharacter) == Some("C:\new")
  {
    var t := "C:\\new" + "'" + CLOSE;
    var u := t[1..][1..];
    assert u[0] == '\\' && u[1..][0] == 'n' && u[1..][1..] == "ew" + "'" + CLOSE;
    LiteralOfPlain("ew", CLOSE, OneCharacter);
    assert Literal(u, OneCharacter) == Some("\n" + "ew");
    assert Literal(t[1..], OneCharacter) == Some(":" + ("\n" + "ew"));
    assert "C" + (":" + ("\n" + "ew")) == "C:\new";
  }
}
