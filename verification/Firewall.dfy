/** The rule list of the SOCKS server (hw4/src/sock_server.cpp): lines of socks.conf, filtered by the
    kind of the request and matched octet by octet, with one flag carried through the whole loop. */
module Firewall {
  import opened Decimal
  import opened Tokenizer

  // ----- What a line says -----------------------------------------------------------------------

  function Fields(line: string): seq<string> {
    Tokens(line, ' ')
  }

  function Parts(line: string): seq<string> {
    if |Fields(line)| < 3 then [] else Tokens(Fields(line)[2], '.')
  }

  /** The second word says which command the rule is for: c is CONNECT (1), b is BIND (2). */
  predicate Applies(line: string, status: int) {
    |Fields(line)| >= 2 && ((status == 1 && Fields(line)[1] == "c") || (status == 2 && Fields(line)[1] == "b"))
  }

  predicate PartMatches(part: string, octet: nat) {
    part == "*" || part == ToString(octet)
  }

  predicate Matches(line: string, a: seq<nat>) {
    |a| == 4 && |Parts(line)| >= 4 && forall k :: 0 <= k < 4 ==> PartMatches(Parts(line)[k], a[k])
  }

  /** The fields the loop looks at are there. */
  ghost predicate WellFormed(line: string, status: int) {
    (status == 1 || status == 2 ==> |Fields(line)| >= 2)
    && (Applies(line, status) ==> |Fields(line)| >= 3 && |Parts(line)| >= 4)
  }

  ghost predicate Applicable(lines: seq<string>, status: int) {
    exists line :: line in lines && Applies(line, status)
  }

  ghost predicate Admitted(lines: seq<string>, status: int, a: seq<nat>) {
    exists line :: line in lines && Applies(line, status) && Matches(line, a)
  }

  /** What the answer should be: no rule for this command, or one that matches. */
  ghost predicate Passes(lines: seq<string>, status: int, a: seq<nat>) {
    !Applicable(lines, status) || Admitted(lines, status, a)
  }

  // ----- The loop -------------------------------------------------------------------------------

  /** The inner loop: from the last octet down; -1 when none mismatched. */
  method MatchFrom(ip: seq<string>, a: seq<nat>) returns (i: int)
    requires |ip| >= 4 && |a| == 4
    ensures -1 <= i < 4
    ensures i == -1 <==> forall k :: 0 <= k < 4 ==> PartMatches(ip[k], a[k])
    ensures i >= 0 ==> !PartMatches(ip[i], a[i])
  {
    i := 3;
    while i >= 0
      invariant -1 <= i <= 3
      invariant forall k :: i < k < 4 ==> PartMatches(ip[k], a[k])
    {
      if ip[i] == "*" || ip[i] == ToString(a[i]) {
        i := i - 1;
      } else {
        break;
      }
    }
  }

  method Firewall(lines: seq<string>, a: seq<nat>, status: int) returns (re: bool)
    requires |a| == 4 && forall line :: line in lines ==> WellFormed(line, status)
    ensures re <==> Passes(lines, status, a)
  {
    re := true;
    for n := 0 to |lines|
      invariant re <==> !Applicable(lines[..n], status)
      invariant !Admitted(lines[..n], status, a)
    {
      var input := lines[n];
      assert WellFormed(input, status);
      assert lines[..n + 1] == lines[..n] + [input];
      ghost var before := re;
      var ar := Split(input, ' ');
      if status == 1 && ar[1] == "c" {
        var ip := Split(ar[2], '.');
        var i := MatchFrom(ip, a);
        if i >= 0 {
          re := false;
        }
        if i == -1 {
          re := true;
        }
        if re {
          assert Applies(input, status) && Matches(input, a);
          return;
        }
      } else if status == 2 && ar[1] == "b" {
        var ip := Split(ar[2], '.');
        var i := MatchFrom(ip, a);
        if i >= 0 {
          re := false;
        }
        if i == -1 {
          re := true;
        }
        if re {
          assert Applies(input, status) && Matches(input, a);
          return;
        }
      }
      OneMoreLine(lines[..n], input, status, a);
    }
    assert lines[..|lines|] == lines;
  }

  /** What one more line changes: a first rule for the command restricts, a further one only widens. */
  lemma OneMoreLine(lines: seq<string>, line: string, status: int, a: seq<nat>)
    ensures Applicable(lines + [line], status) <==> Applicable(lines, status) || Applies(line, status)
    ensures Admitted(lines + [line], status, a)
            <==> Admitted(lines, status, a) || (Applies(line, status) && Matches(line, a))
    ensures Applicable(lines, status)
            ==> (Passes(lines + [line], status, a)
                 <==> Passes(lines, status, a) || (Applies(line, status) && Matches(line, a)))
    ensures !Applicable(lines, status)
            ==> (Passes(lines + [line], status, a) <==> (Applies(line, status) ==> Matches(line, a)))
  {
    hide Applies, Matches;
    assert line in lines + [line];
    assert forall l :: l in lines ==> l in lines + [line];
  }

  // ----- The answer as a property of the rules --------------------------------------------------

  /** A part of a rule's address as it is printed. */
  datatype Part = Any | Is(octet: nat)

  datatype Rule = Rule(word: string, bind: bool, parts: seq<Part>)

  function PartText(p: Part): string {
    if p.Any? then "*" else ToString(p.octet)
  }

  ghost predicate Proper(r: Rule) {
    r.word != [] && Free(r.word, ' ') && |r.parts| == 4
  }

  ghost predicate AllProper(rules: seq<Rule>) {
    forall i :: 0 <= i < |rules| ==> Proper(rules[i])
  }

  function Address(parts: seq<Part>): string
    requires |parts| == 4
  {
    PartText(parts[0]) + "." + (PartText(parts[1]) + "." + (PartText(parts[2]) + "." + PartText(parts[3])))
  }

  function Printed(r: Rule): string
    requires |r.parts| == 4
  {
    r.word + " " + ((if r.bind then "b" else "c") + " " + Address(r.parts))
  }

  ghost function AllPrinted(rules: seq<Rule>): seq<string>
    requires AllProper(rules)
  {
    seq(|rules|, i requires 0 <= i < |rules| => Printed(rules[i]))
  }

  ghost predicate RuleAdmits(r: Rule, a: seq<nat>)
    requires |r.parts| == 4 && |a| == 4
  {
    forall k :: 0 <= k < 4 ==> r.parts[k].Any? || r.parts[k].octet == a[k]
  }

  lemma PartTextIs(p: Part, octet: nat)
    ensures PartText(p) != [] && Free(PartText(p), '.') && Free(PartText(p), ' ')
    ensures PartMatches(PartText(p), octet) <==> p.Any? || p.octet == octet
  {
    ValueOfText(octet);
    if p.Is? {
      ValueOfText(p.octet);
      if ToString(p.octet) == ToString(octet) {
        TextIsInjective(p.octet, octet);
      }
      assert '0' <= ToString(p.octet)[0] <= '9';
    } else {
      assert '0' <= ToString(octet)[0] <= '9';
    }
  }

  lemma FreeConcat(a: string, b: string, c: string, d: char)
    requires Free(a, d) && Free(b, d) && Free(c, d)
    ensures Free(a + b + c, d)
  {}

  lemma AddressSplits(parts: seq<Part>)
    requires |parts| == 4
    ensures Address(parts) != [] && Free(Address(parts), ' ')
    ensures Tokens(Address(parts), '.')
            == [PartText(parts[0]), PartText(parts[1]), PartText(parts[2]), PartText(parts[3])]
  {
    var a, b, c, d := PartText(parts[0]), PartText(parts[1]), PartText(parts[2]), PartText(parts[3]);
    PartTextIs(parts[0], 0);
    PartTextIs(parts[1], 0);
    PartTextIs(parts[2], 0);
    PartTextIs(parts[3], 0);
    assert Free(".", ' ');
    hide Tokens, Free, PartText;
    TokenAlone(d, '.');
    JoinOne(c, d, '.');
    JoinOne(b, c + "." + d, '.');
    JoinOne(a, b + "." + (c + "." + d), '.');
    FreeConcat(c, ".", d, ' ');
    FreeConcat(b, ".", c + "." + d, ' ');
    FreeConcat(a, ".", b + "." + (c + "." + d), ' ');
  }

  lemma PrintedSplits(r: Rule)
    requires Proper(r)
    ensures Fields(Printed(r)) == [r.word, if r.bind then "b" else "c", Address(r.parts)]
  {
    var kind := if r.bind then "b" else "c";
    AddressSplits(r.parts);
    assert Free(kind, ' ');
    hide Tokens, Address, Free;
    TokenAlone(Address(r.parts), ' ');
    JoinOne(kind, Address(r.parts), ' ');
    JoinOne(r.word, kind + " " + Address(r.parts), ' ');
  }

  /** A printed rule is well formed, is for its command only, and matches what its parts say. */
  lemma PrintedMeans(r: Rule, status: int, a: seq<nat>)
    requires Proper(r) && |a| == 4
    ensures WellFormed(Printed(r), status)
    ensures Applies(Printed(r), status) <==> status == (if r.bind then 2 else 1)
    ensures Matches(Printed(r), a) <==> RuleAdmits(r, a)
  {
    PrintedSplits(r);
    AddressSplits(r.parts);
    assert "c" != "b" by {
      assert "c"[0] != "b"[0];
    }
    PartTextIs(r.parts[0], a[0]);
    PartTextIs(r.parts[1], a[1]);
    PartTextIs(r.parts[2], a[2]);
    PartTextIs(r.parts[3], a[3]);
    hide Tokens, Address, Free, PartText, PartMatches, Printed;
  }

  /** What a rule list says, whatever the order of its rules and their permit or deny words. */
  ghost predicate SameMeaning(rules: seq<Rule>, order: seq<Rule>) {
    (forall i :: 0 <= i < |rules| ==> Says(order, rules[i])) && (forall i :: 0 <= i < |order| ==> Says(rules, order[i]))
  }

  ghost predicate Says(rules: seq<Rule>, r: Rule) {
    exists i :: 0 <= i < |rules| && rules[i].bind == r.bind && rules[i].parts == r.parts
  }

  /** The answer over printed rules, in terms of the rules: the permit or deny word plays no part, and
      neither does the order in which the rules are listed. */
  lemma PrintedRulesDecide(rules: seq<Rule>, order: seq<Rule>, bind: bool, a: seq<nat>)
    requires |a| == 4 && AllProper(rules)
    ensures Passes(AllPrinted(rules), if bind then 2 else 1, a) <==> Decides(rules, bind, a)
    ensures AllProper(order) && SameMeaning(rules, order)
            ==> (Passes(AllPrinted(order), if bind then 2 else 1, a)
                 <==> Passes(AllPrinted(rules), if bind then 2 else 1, a))
  {
    hide Passes, Decides, AllPrinted, RuleAdmits;
    PrintedDecide(rules, bind, a);
    if AllProper(order) && SameMeaning(rules, order) {
      PrintedDecide(order, bind, a);
      OrderDecides(rules, order, bind, a);
      OrderDecides(order, rules, bind, a);
    }
  }

  /** No rule is for the command, or one that is matches. */
  ghost predicate Decides(rules: seq<Rule>, bind: bool, a: seq<nat>)
    requires |a| == 4 && AllProper(rules)
  {
    (forall i :: 0 <= i < |rules| ==> rules[i].bind != bind)
    || (exists i :: 0 <= i < |rules| && rules[i].bind == bind && RuleAdmits(rules[i], a))
  }

  lemma OrderDecides(rules: seq<Rule>, order: seq<Rule>, bind: bool, a: seq<nat>)
    requires |a| == 4 && AllProper(rules) && AllProper(order) && SameMeaning(rules, order)
    ensures Decides(rules, bind, a) ==> Decides(order, bind, a)
  {
    if i :| 0 <= i < |rules| && rules[i].bind == bind && RuleAdmits(rules[i], a) {
      assert Says(order, rules[i]);
      var j :| 0 <= j < |order| && order[j].bind == rules[i].bind && order[j].parts == rules[i].parts;
      assert RuleAdmits(order[j], a);
    } else if Decides(rules, bind, a) {
      forall j | 0 <= j < |order|
        ensures order[j].bind != bind
      {
        assert Says(rules, order[j]);
      }
    }
  }

  lemma PrintedDecide(rules: seq<Rule>, bind: bool, a: seq<nat>)
    requires |a| == 4 && AllProper(rules)
    ensures Passes(AllPrinted(rules), if bind then 2 else 1, a) <==> Decides(rules, bind, a)
  {
    var lines, status := AllPrinted(rules), if bind then 2 else 1;
    forall i | 0 <= i < |rules|
      ensures lines[i] in lines && (Applies(lines[i], status) <==> rules[i].bind == bind)
      ensures Matches(lines[i], a) <==> RuleAdmits(rules[i], a)
    {
      PrintedMeans(rules[i], status, a);
    }
    hide Applies, Matches, RuleAdmits, Printed;
    assert forall line :: line in lines ==> exists i :: 0 <= i < |rules| && lines[i] == line;
  }

  /** The failing input: the one rule says deny to everything, and everything passes. */
  lemma DenyAllPasses(a: seq<nat>)
    requires |a| == 4
    ensures Passes(["deny c *.*.*.*"], 1, a)
  {
    var r := Rule("deny", false, [Any, Any, Any, Any]);
    assert Proper(r);
    PrintedRulesDecide([r], [r], false, a);
    assert Printed(r) == "deny c *.*.*.*";
    assert AllPrinted([r]) == ["deny c *.*.*.*"];
    assert RuleAdmits(r, a);
    assert [r][0].bind == false && RuleAdmits([r][0], a);
  }

  // ----- A line as it is written ----------------------------------------------------------------

  ghost predicate IsPart(p: string) {
    p != "" && Free(p, '.') && Free(p, ' ')
  }

  /** Three words with a space between two of them. */
  lemma WordsOfLine(word: string, kind: string, text: string)
    requires word != "" && kind != "" && text != "" && Free(word, ' ') && Free(kind, ' ') && Free(text, ' ')
    ensures Fields(word + " " + kind + " " + text) == [word, kind, text]
  {
    hide *;
    FieldsAre(word + " " + kind + " " + text);
    TokenAlone(word, ' ');
    TokenAlone(kind, ' ');
    TokenAlone(text, ' ');
    SplitAtDelimiter(word, kind, ' ');
    SplitAtDelimiter(word + " " + kind, text, ' ');
  }

  lemma FieldsAre(line: string)
    ensures Fields(line) == Tokens(line, ' ')
  {}

  lemma PartsOfText(p: string, q: string, r: string, s: string)
    requires IsPart(p) && IsPart(q) && IsPart(r) && IsPart(s)
    ensures var text := p + "." + q + "." + r + "." + s;
      text != "" && Free(text, ' ') && Tokens(text, '.') == [p, q, r, s]
  {
    assert Free(".", ' ');
    hide Tokens, Free;
    FreeConcat(p, ".", q, ' ');
    FreeConcat(p + "." + q, ".", r, ' ');
    FreeConcat(p + "." + q + "." + r, ".", s, ' ');
    TokenAlone(p, '.');
    TokenAlone(q, '.');
    TokenAlone(r, '.');
    TokenAlone(s, '.');
    SplitAtDelimiter(p, q, '.');
    SplitAtDelimiter(p + "." + q, r, '.');
    SplitAtDelimiter(p + "." + q + "." + r, s, '.');
  }

  /** A rule's second word is c for CONNECT (1) and b for BIND (2), its first word says nothing, and its address
      matches part by part, where a star matches every octet. */
  lemma LineSays(word: string, kind: string, p: string, q: string, r: string, s: string, status: int, a: seq<nat>)
    requires word != "" && kind != "" && Free(word, ' ') && Free(kind, ' ') && |a| == 4
    requires IsPart(p) && IsPart(q) && IsPart(r) && IsPart(s)
    ensures var line := word + " " + kind + " " + (p + "." + q + "." + r + "." + s);
      var fits := (p == "*" || p == ToString(a[0])) && (q == "*" || q == ToString(a[1]))
        && (r == "*" || r == ToString(a[2])) && (s == "*" || s == ToString(a[3]));
      && (Applies(line, status) <==> (status == 1 && kind == "c") || (status == 2 && kind == "b"))
      && (Matches(line, a) <==> fits)
      && (Passes([line], status, a) <==> ((status == 1 ==> kind != "c") && (status == 2 ==> kind != "b")) || fits)
  {
    var text := p + "." + q + "." + r + "." + s;
    PartsOfText(p, q, r, s);
    WordsOfLine(word, kind, text);
    var line := word + " " + kind + " " + text;
    assert Parts(line) == [p, q, r, s];
    hide Tokens, Fields, Parts, ToString, Free;
    assert Matches(line, a) <==>
      PartMatches(p, a[0]) && PartMatches(q, a[1]) && PartMatches(r, a[2]) && PartMatches(s, a[3]);
    OneLine(line, status, a);
  }

  lemma OneLine(line: string, status: int, a: seq<nat>)
    ensures Passes([line], status, a) <==> (Applies(line, status) ==> Matches(line, a))
  {
    OneMoreLine([], line, status, a);
    assert [] + [line] == [line];
  }
}
