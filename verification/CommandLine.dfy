/** From the text of an input line to what the shell does with it (hw2/2/shell.cpp, hw2/2/cmd.cpp):
    commands, numbered pipes |n and !n, built-in commands. */
module CommandLine {
  import opened Common
  import opened Decimal
  import opened Descriptors
  import opened Tokenizer
  import opened Shell

  // ----- The recognisers ------------------------------------------------------------------------

  /** Place of the last c, or -1. */
  function Last(s: string, c: char): (k: int)
    ensures -1 <= k < |s|
    ensures k >= 0 ==> s[k] == c
    ensures forall j :: k < j < |s| ==> s[j] != c
  {
    if s == [] then -1 else if s[|s| - 1] == c then |s| - 1 else Last(s[..|s| - 1], c)
  }

  lemma LastIs(s: string, c: char, k: nat)
    requires k < |s| && s[k] == c && forall j :: k < j < |s| ==> s[j] != c
    ensures Last(s, c) == k
  {}

  /** One to three digits, or 1000. */
  predicate IsNumber(w: string) {
    (1 <= |w| <= 3 && IsDigits(w)) || w == "1000"
  }

  /** is_number_pine(): the command is one such word. */
  predicate NumberCommand(command: string) {
    |Tokens(command, ' ')| == 1 && IsNumber(Tokens(command, ' ')[0])
  }

  /** is_execution_file(): there is a pipe sign, and no space behind the last one. */
  predicate Attached(input: string) {
    var k := Last(input, '|');
    k >= 0 && (k + 1 == |input| || input[k + 1] != ' ')
  }

  method IsExecutionFile(input: string) returns (b: bool)
    ensures b <==> Attached(input)
  {
    var i := |input| - 1;
    while i >= 0
      invariant -1 <= i < |input|
      invariant forall j :: i < j < |input| ==> input[j] != '|'
    {
      if input[i] == '|' {
        LastIs(input, '|', i);
        return i + 1 == |input| || input[i + 1] != ' ';
      }
      i := i - 1;
    }
    return false;
  }

  /** Place of the last exclamation mark that has something behind it, or -1. */
  function Mark(input: string): int {
    if input == [] then -1 else Last(input[..|input| - 1], '!')
  }

  /** is_error_number_pipe(): there is such a mark, with a space before it. */
  predicate Marked(input: string) {
    Mark(input) >= 1 && input[Mark(input) - 1] == ' '
  }

  method IsErrorNumberPipe(input: string) returns (b: bool)
    ensures b <==> Marked(input)
  {
    ghost var t := if input == [] then [] else input[..|input| - 1];
    var i := |input| - 1;
    while i >= 0
      invariant -1 <= i < |input|
      invariant forall j :: i < j < |t| ==> t[j] != '!'
    {
      if input[i] == '!' {
        if i < |input| - 1 {
          assert t[i] == '!';
          LastIs(t, '!', i);
          return i >= 1 && input[i - 1] == ' ';
        }
      }
      i := i - 1;
    }
    return false;
  }

  /** replace_input(): the last exclamation mark of all becomes a pipe sign. */
  function Substituted(input: string): string {
    var k := Last(input, '!');
    if k >= 0 then input[k := '|'] else input
  }

  method ReplaceInput(input: string) returns (re: string)
    requires '!' in input
    ensures re == Substituted(input)
  {
    var i := |input| - 1;
    while input[i] != '!'
      invariant 0 <= i < |input|
      invariant forall j :: i < j < |input| ==> input[j] != '!'
      invariant exists j :: 0 <= j <= i && input[j] == '!'
      decreases i
    {
      i := i - 1;
    }
    LastIs(input, '!', i);
    re := input[i := '|'];
  }

  // ----- Words of one command -------------------------------------------------------------------

  /** <, <n, <nn or the same with >: a user pipe. */
  predicate UserToken(w: string) {
    1 <= |w| <= 3 && (w[0] == '<' || w[0] == '>') && IsDigits(w[1..])
  }

  /** The words of a command by what they are for. */
  datatype Parsed = Parsed(args: seq<string>, files: seq<string>, users: seq<string>)

  const NOTHING := Parsed([], [], [])

  function Plus(p: Parsed, q: Parsed): Parsed {
    Parsed(p.args + q.args, p.files + q.files, p.users + q.users)
  }

  /** A > takes the next word for its file; a > at the end is dropped. */
  function Parse(ar: seq<string>): Parsed
    decreases |ar|
  {
    if ar == [] then NOTHING
    else if ar[0] == ">" then (if |ar| == 1 then NOTHING else Plus(Parsed([], [ar[1]], []), Parse(ar[2..])))
    else Plus(One(ar[0]), Parse(ar[1..]))
  }

  /** A word that is no >. */
  function One(w: string): Parsed {
    if UserToken(w) then Parsed([], [], [w]) else Parsed([w], [], [])
  }

  function Arguments(ar: seq<string>): seq<string> {
    Parse(ar).args
  }

  /** The last file counts. */
  function OutputFile(p: Parsed): string {
    if p.files == [] then "" else p.files[|p.files| - 1]
  }

  /** Whether the server accepts a user pipe of command `i`; it depends on the users and pipes at hand. */
  type Verdicts = (nat, string) -> bool

  /** Some user pipe among the words, as input or as output, is accepted or refused. */
  predicate Meets(users: seq<string>, input: bool, ok: bool, i: nat, v: Verdicts) {
    exists w :: w in users && Decided(w, input, ok, i, v)
  }

  predicate Decided(w: string, input: bool, ok: bool, i: nat, v: Verdicts) {
    (w != "" && w[0] == '<') == input && v(i, w) == ok
  }

  function FlagsOf(p: Parsed, i: nat, v: Verdicts): Flags {
    Flags(p.files != [], Meets(p.users, true, true, i, v), Meets(p.users, false, true, i, v),
      Meets(p.users, true, false, i, v), Meets(p.users, false, false, i, v))
  }

  /** The constructor's loop; `i` is the command's place in its line. */
  method ReadCommand(input: string, i: nat, v: Verdicts) returns (arg: seq<string>, outputFile: string, x: Flags)
    ensures var p := Parse(Tokens(input, ' '));
      arg == p.args && outputFile == OutputFile(p) && x == FlagsOf(p, i, v)
  {
    var ar := Split(input, ' ');
    arg, outputFile := [], "";
    var inFlag, outFlag, errorIn, errorOut := false, false, false, false;
    ghost var done := NOTHING;
    var k := 0;
    NothingDone(ar);
    hide Parse, Drop, UserToken, Tokens, Meets, Plus;
    while k < |ar|
      invariant k <= |ar| && Plus(done, Parse(Drop(ar, k))) == Parse(ar)
      invariant arg == done.args && outputFile == OutputFile(done)
      invariant inFlag == Meets(done.users, true, true, i, v) && outFlag == Meets(done.users, false, true, i, v)
      invariant errorIn == Meets(done.users, true, false, i, v) && errorOut == Meets(done.users, false, false, i, v)
    {
      ParseAt(ar, k, done);
      if ar[k] == ">" {
        if k + 1 < |ar| {
          k := k + 1;
          outputFile := ar[k];
          FileAdds(done, ar[k]);
          done := Plus(done, Parsed([], [ar[k]], []));
        }
      } else if UserToken(ar[k]) {
        UserAdds(done, ar[k], i, v);
        var ok := v(i, ar[k]);
        if ar[k][0] == '<' {
          if ok { inFlag := true; } else { errorIn := true; }
        } else {
          if ok { outFlag := true; } else { errorOut := true; }
        }
        done := Plus(done, One(ar[k]));
      } else {
        arg := arg + [ar[k]];
        ArgumentAdds(done, ar[k]);
        done := Plus(done, One(ar[k]));
      }
      k := k + 1;
    }
    AllDone(ar, done);
    FileIsWord(input);
    x := Flags(outputFile != "", inFlag, outFlag, errorIn, errorOut);
  }

  lemma NothingDone(ar: seq<string>)
    ensures Plus(NOTHING, Parse(Drop(ar, 0))) == Parse(ar)
    ensures forall input, ok, i, v :: !Meets([], input, ok, i, v)
  {}

  lemma AllDone(ar: seq<string>, done: Parsed)
    ensures Plus(done, Parse(Drop(ar, |ar|))) == done
  {}

  /** One round of the loop, at word k. */
  lemma ParseAt(ar: seq<string>, k: nat, done: Parsed)
    requires k < |ar|
    ensures Plus(done, Parse(Drop(ar, k)))
         == if ar[k] != ">" then Plus(Plus(done, One(ar[k])), Parse(Drop(ar, k + 1)))
            else if k + 1 < |ar| then Plus(Plus(done, Parsed([], [ar[k + 1]], [])), Parse(Drop(ar, k + 2)))
            else Plus(done, Parse(Drop(ar, k + 1)))
  {
    var rest := Drop(ar, k);
    assert rest[1..] == Drop(ar, k + 1);
    assert |rest| > 1 ==> rest[2..] == Drop(ar, k + 2);
    hide UserToken;
    if ar[k] != ">" {
      PlusAssoc(done, One(ar[k]), Parse(rest[1..]));
    } else if |rest| > 1 {
      PlusAssoc(done, Parsed([], [rest[1]], []), Parse(rest[2..]));
    }
  }

  lemma PlusAssoc(a: Parsed, b: Parsed, c: Parsed)
    ensures Plus(a, Plus(b, c)) == Plus(Plus(a, b), c)
  {}

  lemma FileAdds(done: Parsed, w: string)
    ensures var p := Plus(done, Parsed([], [w], []));
      p.args == done.args && p.users == done.users && OutputFile(p) == w
  {}

  lemma ArgumentAdds(done: Parsed, w: string)
    requires !UserToken(w)
    ensures var p := Plus(done, One(w));
      p.args == done.args + [w] && p.users == done.users && OutputFile(p) == OutputFile(done)
  {}

  lemma UserAdds(done: Parsed, w: string, i: nat, v: Verdicts)
    requires UserToken(w)
    ensures w != ""
    ensures var p := Plus(done, One(w));
      && p.args == done.args && OutputFile(p) == OutputFile(done)
      && forall input, ok :: Meets(p.users, input, ok, i, v) <==> Meets(done.users, input, ok, i, v) || Decided(w, input, ok, i, v)
  {
    var users := done.users + [w];
    assert forall u :: u in users <==> u in done.users || u == w;
    forall input, ok
      ensures Meets(users, input, ok, i, v) <==> Meets(done.users, input, ok, i, v) || Decided(w, input, ok, i, v)
    {
      hide Decided;
      assert w in users;
    }
  }

  lemma {:induction false} FilesAreWords(ar: seq<string>)
    ensures forall f :: f in Parse(ar).files ==> f in ar
    decreases |ar|
  {
    if ar != [] {
      if ar[0] == ">" && |ar| > 1 {
        FilesAreWords(ar[2..]);
      } else {
        FilesAreWords(ar[1..]);
      }
    }
  }

  /** How often the word was read, as anything. */
  ghost function TimesRead(p: Parsed, w: string): nat {
    multiset(p.args)[w] + multiset(p.files)[w] + multiset(p.users)[w]
  }

  lemma PlusReads(p: Parsed, q: Parsed, w: string)
    ensures TimesRead(Plus(p, q), w) == TimesRead(p, w) + TimesRead(q, w)
    ensures w in Plus(p, q).args <==> w in p.args || w in q.args
    ensures w in Plus(p, q).users <==> w in p.users || w in q.users
  {}

  lemma OneRead(x: string, w: string)
    ensures TimesRead(One(x), w) == TimesRead(Parsed([], [x], []), w) == if x == w then 1 else 0
    ensures (w in One(x).args <==> x == w && !UserToken(w)) && (w in One(x).users <==> x == w && UserToken(w))
  {
    hide UserToken;
  }

  lemma MoreWords(x: string, rest: seq<string>, w: string)
    ensures multiset([x] + rest)[w] == (if x == w then 1 else 0) + multiset(rest)[w]
  {}

  /** Words are told apart by their look, and every word but > itself is read as often as it stands there. */
  ghost predicate KeepsWord(ar: seq<string>, w: string) {
    var p := Parse(ar);
    && (w in p.args ==> w != ">" && !UserToken(w)) && (w in p.users ==> UserToken(w))
    && (w != ">" ==> TimesRead(p, w) == multiset(ar)[w])
  }

  lemma KeepsOne(x: string, rest: seq<string>, w: string)
    requires x != ">" && KeepsWord(rest, w)
    ensures KeepsWord([x] + rest, w)
  {
    assert ([x] + rest)[1..] == rest;
    assert Parse([x] + rest) == Plus(One(x), Parse(rest));
    OneRead(x, w);
    PlusReads(One(x), Parse(rest), w);
    MoreWords(x, rest, w);
    hide UserToken, Plus, One, TimesRead, Parse;
  }

  lemma ParseFile(x: string, rest: seq<string>)
    ensures Parse([">", x] + rest) == Plus(Parsed([], [x], []), Parse(rest))
  {
    assert ([">", x] + rest)[2..] == rest;
  }

  lemma FileRead(x: string, rest: seq<string>, w: string)
    ensures var p, q := Parse([">", x] + rest), Parse(rest);
      && (w in p.args <==> w in q.args) && (w in p.users <==> w in q.users)
      && TimesRead(p, w) == (if x == w then 1 else 0) + TimesRead(q, w)
  {
    var file := Parsed([], [x], []);
    ParseFile(x, rest);
    OneRead(x, w);
    hide UserToken, Plus, One, TimesRead, Parse;
    PlusReads(file, Parse(rest), w);
  }

  lemma FileWords(x: string, rest: seq<string>, w: string)
    ensures w != ">" ==> multiset([">", x] + rest)[w] == (if x == w then 1 else 0) + multiset(rest)[w]
  {
    MoreWords(x, rest, w);
    MoreWords(">", [x] + rest, w);
    assert [">", x] + rest == [">"] + ([x] + rest);
  }

  lemma KeepsFile(x: string, rest: seq<string>, w: string)
    requires KeepsWord(rest, w)
    ensures KeepsWord([">", x] + rest, w)
  {
    FileRead(x, rest, w);
    FileWords(x, rest, w);
    hide UserToken, TimesRead, Parse;
  }

  lemma KeepsNothing(w: string)
    ensures KeepsWord([], w) && KeepsWord([">"], w)
  {}

  /** So it is with any words: a file only behind a >, a user pipe by its look, an argument otherwise. */
  lemma {:induction false} ParseKeeps(ar: seq<string>, w: string)
    ensures KeepsWord(ar, w)
    decreases |ar|
  {
    hide *;
    if ar == [] || ar == [">"] {
      KeepsNothing(w);
    } else if ar[0] == ">" {
      ParseKeeps(ar[2..], w);
      KeepsFile(ar[1], ar[2..], w);
      assert ar == [">", ar[1]] + ar[2..];
    } else {
      ParseKeeps(ar[1..], w);
      KeepsOne(ar[0], ar[1..], w);
      assert ar == [ar[0]] + ar[1..];
    }
  }

  /** A word is never empty, so there is an output file iff its name is not. */
  lemma FileIsWord(input: string)
    ensures var p := Parse(Tokens(input, ' ')); p.files != [] <==> OutputFile(p) != ""
  {
    var ar := Tokens(input, ' ');
    var p := Parse(ar);
    var gaps := EveryStringIsALayout(input, ' ');
    FilesAreWords(ar);
    hide Tokens, Layout, LaidOut, Parse;
    if p.files != [] {
      assert OutputFile(p) in p.files;
    }
  }

  predicate IsBuiltin(w: string) {
    w == "setenv" || w == "printenv" || w == "exit" || w == "who" || w == "name" || w == "tell" || w == "yell"
  }

  const INT_MAX := 0x7fff_ffff

  function DigitPrefix(w: string): (d: string)
    ensures IsDigits(d)
  {
    if w != [] && '0' <= w[0] <= '9' then [w[0]] + DigitPrefix(w[1..]) else []
  }

  /** Reading an int from a word: sign and digits, cut off at the ends of the type; 0 when there are none. */
  function ReadInt(w: string): int {
    var sign := w != [] && (w[0] == '-' || w[0] == '+');
    var n: int := Value(DigitPrefix(if sign then w[1..] else w));
    if sign && w[0] == '-' then (if n > INT_MAX + 1 then -INT_MAX - 1 else -n)
    else if n > INT_MAX then INT_MAX else n
  }

  // ----- The line -------------------------------------------------------------------------------

  function Final(input: string): string {
    if Marked(input) then Substituted(input) else input
  }

  function Commands(input: string): seq<string> {
    Tokens(Final(input), '|')
  }

  function FirstArgument(command: string): string {
    var arg := Arguments(Tokens(command, ' '));
    if arg == [] then "" else arg[0]
  }

  predicate EndsInNumber(input: string) {
    var cmd := Commands(input);
    |cmd| > 1 && ((NumberCommand(cmd[|cmd| - 1]) && Attached(Final(input))) || Marked(input))
  }

  /** There is a command, and a word where the shell asks for the first argument. */
  predicate Readable(input: string) {
    var cmd := Commands(input);
    |cmd| >= 1 && (|cmd| == 1 || EndsInNumber(input) ==> Arguments(Tokens(cmd[|cmd| - 1], ' ')) != [])
  }

  /** The words of several commands, and their flags. */
  function WordLists(pieces: seq<string>): seq<seq<string>> {
    seq(|pieces|, i requires 0 <= i < |pieces| => Tokens(pieces[i], ' '))
  }

  function StageFlags(cmds: seq<seq<string>>, v: Verdicts): seq<Flags> {
    seq(|cmds|, i requires 0 <= i < |cmds| => FlagsOf(Parse(cmds[i]), i, v))
  }

  function Classified(input: string, v: Verdicts): Line
    requires Readable(input)
  {
    var cmd := Commands(input);
    var k := |cmd| - 1;
    if |cmd| == 1 then (if IsBuiltin(FirstArgument(cmd[0])) then Builtin else Plain(1, StageFlags(WordLists(cmd), v)))
    else if EndsInNumber(input) then
      Numbered(k, ReadInt(FirstArgument(cmd[k])), Marked(input), StageFlags(WordLists(cmd[..k]), v))
    else Plain(|cmd|, StageFlags(WordLists(cmd), v))
  }

  lemma MarkedHasMark(input: string)
    requires Marked(input)
    ensures '!' in input
  {
    assert input[Mark(input)] == '!';
  }

  method Classify(line: string, v: Verdicts) returns (l: Line)
    requires Readable(line)
    ensures l == Classified(line, v)
  {
    hide Last, Tokens, Marked, Attached, Parse, ReadInt, IsBuiltin, FlagsOf, StageFlags, WordLists;
    var input := line;
    var err := IsErrorNumberPipe(input);
    if err {
      MarkedHasMark(input);
      input := ReplaceInput(input);
    }
    var cmd := Split(input, '|');
    var last := cmd[|cmd| - 1];
    if |cmd| == 1 {
      var arg, file, x := ReadCommand(cmd[0], 0, v);
      OneFlag(cmd[0], v);
      assert cmd == [cmd[0]];
      l := if IsBuiltin(arg[0]) then Builtin else Plain(1, [x]);
    } else {
      var words := Split(last, ' ');
      var attached := IsExecutionFile(input);
      if (|words| == 1 && IsNumber(words[0]) && attached) || err {
        var arg, file, x := ReadCommand(last, |cmd| - 1, v);
        var flags := ReadAll(cmd[..|cmd| - 1], v);
        l := Numbered(|cmd| - 1, ReadInt(arg[0]), err, flags);
      } else {
        var flags := ReadAll(cmd, v);
        l := Plain(|cmd|, flags);
      }
    }
  }

  lemma OneFlag(piece: string, v: Verdicts)
    ensures StageFlags(WordLists([piece]), v) == [FlagsOf(Parse(Tokens(piece, ' ')), 0, v)]
  {
    hide Tokens, Parse, FlagsOf;
  }

  /** The commands of a line in turn. */
  method ReadAll(cmd: seq<string>, v: Verdicts) returns (flags: seq<Flags>)
    ensures flags == StageFlags(WordLists(cmd), v)
  {
    hide Tokens, Parse, FlagsOf;
    flags := [];
    var i := 0;
    while i < |cmd|
      invariant i <= |cmd| && flags == StageFlags(WordLists(cmd[..i]), v)
    {
      var arg, file, x := ReadCommand(cmd[i], i, v);
      assert cmd[..i + 1] == cmd[..i] + [cmd[i]];
      flags := flags + [x];
      i := i + 1;
    }
    assert cmd[..i] == cmd;
  }

  // ----- Printed lines --------------------------------------------------------------------------

  ghost predicate Word(w: string) {
    w != [] && Free(w, ' ') && Free(w, '|')
  }

  ghost predicate Command(c: seq<string>) {
    c != [] && forall i :: 0 <= i < |c| ==> Word(c[i])
  }

  ghost predicate Pipeline(cmds: seq<seq<string>>) {
    cmds != [] && forall i :: 0 <= i < |cmds| ==> Command(cmds[i])
  }

  /** The words of a command, a space between two of them. */
  function Words(c: seq<string>): string {
    if c == [] then "" else if |c| == 1 then c[0] else c[0] + " " + Words(c[1..])
  }

  /** Commands joined by " | ", with something before the first and behind the last. */
  function Printed(lead: string, cmds: seq<seq<string>>, trail: string): string
    decreases |cmds|
  {
    if cmds == [] then ""
    else if |cmds| == 1 then lead + Words(cmds[0]) + trail
    else (lead + Words(cmds[0]) + " ") + "|" + Printed(" ", cmds[1..], trail)
  }

  ghost predicate Splits(pieces: seq<string>, cmds: seq<seq<string>>) {
    |pieces| == |cmds| && forall i :: 0 <= i < |cmds| ==> Tokens(pieces[i], ' ') == cmds[i]
  }

  predicate Padding(s: string) {
    s == "" || s == " "
  }

  lemma {:induction false} WordsSplit(c: seq<string>)
    requires Command(c)
    ensures Words(c) != [] && Free(Words(c), '|') && Tokens(Words(c), ' ') == c
  {
    if |c| == 1 {
      TokenAlone(c[0], ' ');
    } else {
      assert Command(c[1..]) by {
        assert forall i :: 0 <= i < |c| - 1 ==> c[1..][i] == c[i + 1];
      }
      WordsSplit(c[1..]);
      hide Tokens;
      JoinOne(c[0], Words(c[1..]), ' ');
    }
  }

  /** Spaces around a command's text do not change its words. */
  lemma PaddedSplits(lead: string, c: seq<string>, trail: string)
    requires Command(c) && Padding(lead) && Padding(trail)
    ensures var t := lead + Words(c) + trail;
            t != [] && Free(t, '|') && Tokens(t, ' ') == c
  {
    WordsSplit(c);
    NoTokens(' ');
    var w := Words(c);
    hide Tokens, Words;
    SplitAtDelimiter([], w, ' ');
    assert [] + " " + w == " " + w && "" + w == w;
    SplitAtDelimiter(lead + w, [], ' ');
    assert (lead + w) + " " + [] == lead + w + " " && lead + w + "" == lead + w;
  }

  /** Split at the pipe signs and then at the spaces, a printed pipeline gives its words back. */
  lemma {:induction false} PrintedSplits(lead: string, cmds: seq<seq<string>>, trail: string)
    requires Pipeline(cmds) && Padding(lead) && Padding(trail)
    ensures Splits(Tokens(Printed(lead, cmds, trail), '|'), cmds)
    decreases |cmds|
  {
    assert Command(cmds[0]);
    if |cmds| == 1 {
      var t := lead + Words(cmds[0]) + trail;
      PaddedSplits(lead, cmds[0], trail);
      TokenAlone(t, '|');
    } else {
      var t, rest := lead + Words(cmds[0]) + " ", Printed(" ", cmds[1..], trail);
      PaddedSplits(lead, cmds[0], " ");
      assert Pipeline(cmds[1..]);
      PrintedSplits(" ", cmds[1..], trail);
      hide Tokens, Words;
      JoinOne(t, rest, '|');
    }
  }

  /** Behind the last pipe sign there is a space. */
  ghost predicate Detached(t: string) {
    var k := Last(t, '|');
    0 <= k < |t| - 1 && t[k + 1] == ' '
  }

  lemma {:induction false} LastPipeIsDetached(lead: string, cmds: seq<seq<string>>)
    requires Pipeline(cmds) && Padding(lead)
    ensures var t := Printed(lead, cmds, ""); if |cmds| == 1 then Free(t, '|') else Detached(t)
    decreases |cmds|
  {
    assert Command(cmds[0]);
    hide Words, Tokens, Last, Detached, Free;
    if |cmds| == 1 {
      PaddedSplits(lead, cmds[0], "");
    } else {
      assert Pipeline(cmds[1..]);
      LastPipeIsDetached(" ", cmds[1..]);
      LeadComesFirst(cmds[1..], "");
      DetachedBehind(lead + Words(cmds[0]) + " ", Printed(" ", cmds[1..], ""));
    }
  }

  lemma DetachedBehind(a: string, b: string)
    requires b != [] && b[0] == ' ' && (Free(b, '|') || Detached(b))
    ensures Detached(a + "|" + b)
  {
    LastBehind(a + "|", b, '|');
  }

  lemma LeadComesFirst(cmds: seq<seq<string>>, trail: string)
    requires cmds != []
    ensures Printed(" ", cmds, trail) != [] && Printed(" ", cmds, trail)[0] == ' '
  {}

  /** The last occurrence in a concatenation. */
  lemma LastBehind(a: string, b: string, c: char)
    ensures Last(b, c) >= 0 ==> Last(a + b, c) == |a| + Last(b, c)
    ensures Last(b, c) < 0 && a != [] && a[|a| - 1] == c ==> Last(a + b, c) == |a| - 1
  {
    if Last(b, c) >= 0 {
      LastIs(a + b, c, |a| + Last(b, c));
    } else if a != [] && a[|a| - 1] == c {
      LastIs(a + b, c, |a| - 1);
    }
  }

  /** Where a marked line is changed: at its last exclamation mark, which is not its first character. */
  lemma MarkedPlace(t: string)
    requires Marked(t)
    ensures Last(t, '!') >= Mark(t) >= 1 && Final(t) == t[Last(t, '!') := '|']
    ensures t[|t| - 1] == '!' ==> Last(t, '!') == |t| - 1
    ensures t[|t| - 1] != '!' ==> Last(t, '!') == Mark(t) < |t| - 1 && t[Mark(t) - 1] == ' '
  {
    LastMark(t);
    hide Last, Mark, Marked;
    assert Final(t) == Substituted(t);
  }

  lemma LastMark(t: string)
    requires Marked(t)
    ensures Last(t, '!') >= Mark(t) >= 1 && Mark(t) < |t| - 1 && t[Mark(t) - 1] == ' '
    ensures t[|t| - 1] == '!' ==> Last(t, '!') == |t| - 1
    ensures t[|t| - 1] != '!' ==> Last(t, '!') == Mark(t)
  {}

  /** The pieces' words are the commands. */
  lemma SplitsAre(pieces: seq<string>, cmds: seq<seq<string>>)
    requires Splits(pieces, cmds)
    ensures WordLists(pieces) == cmds
  {
    hide Tokens;
  }

  /** A printed pipeline of several commands is run as those commands, even if the last is a number, iff
      it is not marked; a marked one is taken for a numbered pipe. */
  lemma PipelineIsPlain(cmds: seq<seq<string>>, v: Verdicts)
    requires Pipeline(cmds) && |cmds| > 1
    ensures var t := Printed("", cmds, "");
            (!Marked(t) ==> Readable(t))
            && (Readable(t) ==> (Classified(t, v) == Plain(|cmds|, StageFlags(cmds, v)) <==> !Marked(t)))
            && (Readable(t) && Marked(t) ==> Classified(t, v).Numbered? && Classified(t, v).err)
  {
    var t := Printed("", cmds, "");
    if Marked(t) {
      MarkedStaysLong(cmds, "");
    } else {
      PrintedSplits("", cmds, "");
      SplitsAre(Tokens(t, '|'), cmds);
      LastPipeIsDetached("", cmds);
    }
    hide Printed, Last, Tokens, Marked, Parse, StageFlags, WordLists, ReadInt, IsBuiltin;
  }

  lemma FirstIsWord(cmds: seq<seq<string>>, trail: string)
    requires Pipeline(cmds)
    ensures var t := Printed("", cmds, trail); t != [] && t[0] != '|' && t[0] != ' '
  {
    assert Command(cmds[0]);
    assert Word(cmds[0][0]);
    var w := cmds[0][0];
    assert Words(cmds[0])[0] == w[0];
  }

  /** A marked pipeline of several commands still has several once its mark is a pipe sign. */
  lemma MarkedStaysLong(cmds: seq<seq<string>>, trail: string)
    requires Pipeline(cmds) && |cmds| > 1 && Marked(Printed("", cmds, trail))
    ensures |Commands(Printed("", cmds, trail))| > 1
  {
    var t, rest := Printed("", cmds, trail), Printed(" ", cmds[1..], trail);
    var front := "" + Words(cmds[0]) + " ";
    FirstIsWord(cmds, trail);
    LeadComesFirst(cmds[1..], trail);
    MarkedPlace(t);
    var j, k := |front|, Last(t, '!');
    assert t == front + "|" + rest;
    assert t[j] == '|' && t[j + 1] == ' ';
    TwoTokens(t[k := '|'], 0, j, j + 1, '|');
  }

  /** What the shell sees of a printed command that it runs alone: a mark is changed at its end only. */
  function Seen(t: string): string {
    if Marked(t) then t[..|t| - 1] else t
  }

  /** A printed command is run alone iff it is not marked, or only its last character becomes a pipe
      sign; then it is a built-in iff the first word left is one of the seven names. */
  lemma SingleCommand(c: seq<string>, v: Verdicts)
    requires Command(c)
    ensures var t := Words(c);
            var alone := !(Marked(t) && t[|t| - 1] != '!');
            var p := Parse(Tokens(Seen(t), ' '));
            && (!Marked(t) ==> Tokens(Seen(t), ' ') == c)
            && (alone ==> (Readable(t) <==> p.args != []))
            && (Readable(t) ==> (|Commands(t)| == 1 <==> alone) && (Classified(t, v).Numbered? <==> !alone))
            && (Readable(t) && alone ==>
                  Classified(t, v) == if IsBuiltin(p.args[0]) then Builtin else Plain(1, [FlagsOf(p, 0, v)]))
  {
    var t := Words(c);
    WordsSplit(c);
    if Marked(t) {
      if t[|t| - 1] == '!' {
        LastMarkDrops(t);
      } else {
        MarkCuts(t);
      }
    } else {
      TokenAlone(t, '|');
    }
    OneFlag(Seen(t), v);
    hide Words, Last, Tokens, Marked, IsBuiltin, Attached, Parse, Seen, FlagsOf, StageFlags, WordLists, ReadInt;
  }

  /** One command with a mark inside becomes two. */
  lemma MarkCuts(t: string)
    requires Marked(t) && t[|t| - 1] != '!' && Free(t, '|')
    ensures |Commands(t)| == 2
  {
    MarkedPlace(t);
    var k := Last(t, '!');
    var a, b := t[..k], t[k + 1..];
    assert Final(t) == a + "|" + b;
    hide Tokens, Last;
    TokenAlone(b, '|');
    JoinOne(a, b, '|');
  }

  /** With the mark at its end changed a command loses that character. */
  lemma LastMarkDrops(t: string)
    requires Free(t, '|') && Marked(t) && t[|t| - 1] == '!'
    ensures Commands(t) == [Seen(t)]
  {
    MarkedPlace(t);
    var a := t[..|t| - 1];
    assert Final(t) == a + "|" + "";
    hide Tokens, Last, Final, Marked;
    NoTokens('|');
    SplitAtDelimiter(a, "", '|');
    TokenAlone(a, '|');
  }

  lemma YellIsMarked()
    ensures Marked("yell hi !bob") && Final("yell hi !bob") == "yell hi " + "|" + "bob"
  {
    var t := "yell hi !bob";
    LastIs(t[..11], '!', 8);
    LastIs(t, '!', 8);
    assert t[8 := '|'] == "yell hi " + "|" + "bob";
  }

  lemma YellPrinted()
    ensures Command(["yell", "hi", "!bob"]) && Words(["yell", "hi", "!bob"]) == "yell hi !bob"
    ensures Command(["yell", "hi"]) && Words(["yell", "hi"]) == "yell hi"
  {
    var c := ["yell", "hi", "!bob"];
    assert Words(c[1..][1..]) == "!bob" && Words(c[1..]) == "hi !bob";
    var d := ["yell", "hi"];
    assert Words(d[1..]) == "hi";
  }

  lemma BobIsZero()
    ensures Tokens("bob", '|') == ["bob"] && Tokens("bob", ' ') == ["bob"] && Arguments(["bob"]) == ["bob"]
    ensures ReadInt("bob") == 0
  {
    var w := ["bob"];
    assert w[1..] == [];
    TokenAlone("bob", '|');
    TokenAlone("bob", ' ');
  }

  lemma YellHasNoFlags(v: Verdicts)
    ensures StageFlags(WordLists(["yell hi "]), v) == [NONE]
  {
    YellPrinted();
    PaddedSplits("", ["yell", "hi"], " ");
    assert "" + "yell hi" + " " == "yell hi ";
    OneFlag("yell hi ", v);
    var d := ["yell", "hi"];
    assert d[1..][1..] == [];
    assert Parse(d[1..]) == Plus(One("hi"), NOTHING);
    assert Parse(d).users == [] && Parse(d).files == [];
    hide Tokens, Parse, StageFlags, WordLists;
  }

  lemma YellIsWhole()
    ensures Free("yell hi ", '|') && "yell hi " != []
  {}

  /** The failing input: a chat line whose last word starts with an exclamation mark is forked as an
      external command in front of a pipe that is never due. */
  lemma YellIsTakenForNumbered(v: Verdicts)
    ensures Command(["yell", "hi", "!bob"]) && Words(["yell", "hi", "!bob"]) == "yell hi !bob"
    ensures Readable("yell hi !bob") && Classified("yell hi !bob", v) == Numbered(1, 0, true, [NONE])
  {
    hide *;
    YellPrinted();
    YellIsMarked();
    BobIsZero();
    YellHasNoFlags(v);
    YellIsWhole();
    MarkedPair("yell hi !bob", "yell hi ", "bob", v);
  }

  lemma MarkedPair(t: string, a: string, b: string, v: Verdicts)
    requires Marked(t) && Final(t) == a + "|" + b && a != [] && Free(a, '|')
    requires Tokens(b, '|') == [b] && Tokens(b, ' ') == [b] && Arguments([b]) == [b]
    ensures Readable(t) && Classified(t, v) == Numbered(1, ReadInt(b), true, StageFlags(WordLists([a]), v))
  {
    assert Commands(t) == Tokens(a + "|" + b, '|');
    hide *;
    JoinOne(a, b, '|');
    MarkedMeans(t, b, v);
    assert ([a] + [b])[..1] == [a];
  }

  lemma {:induction false} PrefixOfDigits(w: string)
    requires IsDigits(w)
    ensures DigitPrefix(w) == w
  {
    if w != [] {
      PrefixOfDigits(w[1..]);
    }
  }

  lemma FreeDigits(w: string, d: char)
    requires IsDigits(w) && !('0' <= d <= '9')
    ensures Free(w, d)
  {}

  lemma OneDigitMore(n: nat)
    ensures |ToString(n)| == if n < 10 then 1 else |ToString(n / 10)| + 1
  {}

  lemma ShortNumbers(n: nat)
    ensures |ToString(n)| <= 3 <==> n < 1000
    ensures ToString(n) == "1000" <==> n == 1000
  {
    OneDigitMore(n);
    OneDigitMore(n / 10);
    OneDigitMore(n / 100);
    assert n / 10 / 10 == n / 100 && n / 100 / 10 == n / 1000;
    assert ToString(1000) == ToString(100) + "0" && ToString(100) == ToString(10) + "0" && ToString(10) == "10";
    if ToString(n) == "1000" {
      TextIsInjective(n, 1000);
    }
  }

  lemma SingleArgument(w: string)
    requires w != [] && '0' <= w[0] <= '9'
    ensures Arguments([w]) == [w]
  {
    var one := [w];
    assert one[1..] == [];
    assert Parse(one) == Plus(One(w), NOTHING);
  }

  lemma NumberIsDigits(n: nat)
    ensures var w := ToString(n); IsDigits(w) && w != [] && '0' <= w[0] <= '9' && Value(w) == n && DigitPrefix(w) == w
  {
    ValueOfText(n);
    PrefixOfDigits(ToString(n));
  }

  lemma NumberValue(n: nat)
    ensures ReadInt(ToString(n)) == if n > INT_MAX then INT_MAX else n
  {
    NumberIsDigits(n);
    hide IsDigits, Value, ToString, DigitPrefix;
  }

  /** The text of a number is one command of one word, and is read as the number. */
  lemma NumberReads(n: nat)
    ensures var w := ToString(n);
            Tokens(w, '|') == [w] && Tokens(w, ' ') == [w] && Arguments([w]) == [w] && Free(w, '|') && Free(w, '!')
            && ReadInt(w) == (if n > INT_MAX then INT_MAX else n)
            && (IsNumber(w) <==> n <= 1000) && w[0] != ' '
  {
    var w := ToString(n);
    NumberIsDigits(n);
    NumberValue(n);
    ShortNumbers(n);
    assert IsNumber(w) <==> n <= 1000;
    hide *;
    FreeDigits(w, '|');
    FreeDigits(w, ' ');
    FreeDigits(w, '!');
    TokenAlone(w, '|');
    TokenAlone(w, ' ');
    SingleArgument(w);
  }

  /** With a number behind one more pipe sign. */
  lemma NumberedSplits(cmds: seq<seq<string>>, n: nat)
    requires Pipeline(cmds)
    ensures var t := Printed("", cmds, " ") + "|" + ToString(n);
            |Tokens(t, '|')| == |cmds| + 1 && Tokens(t, '|')[|cmds|] == ToString(n)
            && WordLists(Tokens(t, '|')[..|cmds|]) == cmds && WordLists(Tokens(t, '|')) == cmds + [[ToString(n)]]
            && Last(t, '|') == |Printed("", cmds, " ")| && t[Last(t, '|') + 1] != ' '
  {
    PrintedSplits("", cmds, " ");
    NumberReads(n);
    var p, w := Printed("", cmds, " "), ToString(n);
    SplitsAre(Tokens(p, '|'), cmds);
    OneMoreList(Tokens(p, '|'), w);
    hide Tokens, ToString, Printed, WordLists;
    SplitAtDelimiter(p, w, '|');
    LastIs(p + "|" + w, '|', |p|);
    assert (Tokens(p, '|') + [w])[..|cmds|] == Tokens(p, '|');
  }

  lemma OneMoreList(pieces: seq<string>, w: string)
    ensures WordLists(pieces + [w]) == WordLists(pieces) + [Tokens(w, ' ')]
  {
    hide Tokens;
  }

  /** The int that a number typed by the user is read as. */
  function Count(n: nat): nat {
    if n > INT_MAX then INT_MAX else n
  }

  /** A line ending in |n is the numbered pipe it looks like iff n is at most 1000 (0 is let through)
      and no earlier exclamation mark is taken for the start of a number; a larger number is taken for
      one more command, and a mark for one more pipe sign. */
  lemma NumberedIff(cmds: seq<seq<string>>, n: nat, v: Verdicts)
    requires Pipeline(cmds)
    ensures var t := Printed("", cmds, " ") + "|" + ToString(n);
            Readable(t)
            && var l, read := Classified(t, v), Numbered(|cmds|, n, false, StageFlags(cmds, v));
            && (l == read <==> n <= 1000 && !Marked(t))
            && if Marked(t) then l.Numbered? && l.stages == |cmds| + 1 && l.count == Count(n) && l.err
               else l == if n <= 1000 then read else Plain(|cmds| + 1, StageFlags(cmds + [[ToString(n)]], v))
  {
    var p, w := Printed("", cmds, " "), ToString(n);
    NumberedSplits(cmds, n);
    NumberReads(n);
    if Marked(p + "|" + w) {
      EndsInSpace(cmds);
      PipesAreSpaced("", cmds, " ");
      hide *;
      MarkBeforePipe(p, w);
      MarkedMeans(p + "|" + w, w, v);
    } else {
      hide *;
      UnmarkedMeans(p + "|" + w, w, |cmds|, v);
    }
  }

  lemma UnmarkedMeans(t: string, w: string, k: nat, v: Verdicts)
    requires !Marked(t) && k > 0 && |Tokens(t, '|')| == k + 1 && Tokens(t, '|')[k] == w
    requires Tokens(w, ' ') == [w] && Arguments([w]) == [w] && Last(t, '|') + 1 < |t| && Last(t, '|') >= 0
    requires t[Last(t, '|') + 1] != ' '
    ensures Readable(t)
    ensures Classified(t, v) == if IsNumber(w) then Numbered(k, ReadInt(w), false, StageFlags(WordLists(Tokens(t, '|')[..k]), v))
                                else Plain(k + 1, StageFlags(WordLists(Tokens(t, '|')), v))
  {
    hide Tokens, Last, Marked, Parse, ReadInt, IsNumber, IsBuiltin, StageFlags, WordLists;
  }

  /** Before every pipe sign there is a space. */
  ghost predicate PipesSpaced(t: string) {
    forall i :: 0 <= i < |t| - 1 && t[i + 1] == '|' ==> t[i] == ' '
  }

  lemma {:induction false} PipesAreSpaced(lead: string, cmds: seq<seq<string>>, trail: string)
    requires Pipeline(cmds) && Padding(lead) && Padding(trail)
    ensures PipesSpaced(Printed(lead, cmds, trail))
    decreases |cmds|
  {
    assert Command(cmds[0]);
    hide Words, Tokens, Free, PipesSpaced;
    if |cmds| == 1 {
      PaddedSplits(lead, cmds[0], trail);
      FreeIsSpaced(lead + Words(cmds[0]) + trail);
    } else {
      PaddedSplits(lead, cmds[0], " ");
      assert Pipeline(cmds[1..]);
      PipesAreSpaced(" ", cmds[1..], trail);
      LeadComesFirst(cmds[1..], trail);
      SpacedBehind(lead + Words(cmds[0]), Printed(" ", cmds[1..], trail));
    }
  }

  lemma FreeIsSpaced(t: string)
    requires Free(t, '|')
    ensures PipesSpaced(t)
  {}

  lemma SpacedBehind(a: string, b: string)
    requires Free(a + " ", '|') && b != [] && b[0] == ' ' && PipesSpaced(b)
    ensures PipesSpaced((a + " ") + "|" + b)
  {
    var t := (a + " ") + "|" + b;
    assert forall i :: 0 <= i < |a| + 1 ==> t[i] == (a + " ")[i];
    assert forall i :: |a| + 2 <= i < |t| ==> t[i] == b[i - |a| - 2];
  }

  /** Where the mark of such a line is: inside a command, behind a space. */
  lemma MarkInCommand(p: string, w: string) returns (a: string, b: string)
    requires p != [] && p[|p| - 1] == ' ' && w != [] && Free(w, '!') && PipesSpaced(p) && Marked(p + "|" + w)
    ensures a != [] && b != [] && a[|a| - 1] != '|' && b[0] != '|'
    ensures p == a + "!" + b && Final(p + "|" + w) == (a + "|" + b) + "|" + w
  {
    var t := p + "|" + w;
    MarkedPlace(t);
    hide Marked, Final, Last, Mark;
    var k := Last(t, '!');
    assert t[|p|..] == "|" + w && k < |p|;
    a, b := p[..k], p[k + 1..];
    assert p == a + "!" + b;
    assert t[k := '|'] == (a + "|" + b) + "|" + w;
    assert a[|a| - 1] == t[k - 1] && b[0] == p[k + 1];
  }

  /** A mark in front of a number's pipe sign cuts one command in two. */
  lemma MarkBeforePipe(p: string, w: string)
    requires p != [] && p[|p| - 1] == ' ' && w != [] && Free(w, '!') && Free(w, '|')
    requires PipesSpaced(p) && Marked(p + "|" + w)
    ensures |Commands(p + "|" + w)| == |Tokens(p + "|" + w, '|')| + 1
    ensures Commands(p + "|" + w)[|Commands(p + "|" + w)| - 1] == w
  {
    var a, b := MarkInCommand(p, w);
    assert Commands(p + "|" + w) == Tokens((a + "|" + b) + "|" + w, '|');
    hide *;
    CutToken(a, '!', b, '|');
    TokenAlone(w, '|');
    SplitAtDelimiter(p, w, '|');
    SplitAtDelimiter(a + "|" + b, w, '|');
  }

  /** A line ending in !n is always a numbered pipe for both outputs, whatever the size of n, up to the
      largest int. */
  lemma MarkedIsNumbered(cmds: seq<seq<string>>, n: nat, v: Verdicts)
    requires Pipeline(cmds)
    ensures var t := Printed("", cmds, " ") + "!" + ToString(n);
            Readable(t) && Marked(t) && Classified(t, v) == Numbered(|cmds|, Count(n), true, StageFlags(cmds, v))
  {
    var p, w := Printed("", cmds, " "), ToString(n);
    NumberedSplits(cmds, n);
    NumberReads(n);
    EndsInSpace(cmds);
    hide *;
    MarkedLine(p, w, |cmds|, v);
  }

  lemma MarkedLine(p: string, w: string, k: nat, v: Verdicts)
    requires p != [] && p[|p| - 1] == ' ' && w != [] && Free(w, '!') && k > 0
    requires |Tokens(p + "|" + w, '|')| == k + 1 && Tokens(p + "|" + w, '|')[k] == w
    requires Tokens(w, ' ') == [w] && Arguments([w]) == [w]
    ensures Readable(p + "!" + w) && Marked(p + "!" + w)
    ensures Classified(p + "!" + w, v)
         == Numbered(k, ReadInt(w), true, StageFlags(WordLists(Tokens(p + "|" + w, '|')[..k]), v))
  {
    assert Commands(p + "!" + w) == Tokens(Final(p + "!" + w), '|');
    hide *;
    MarkBeforeNumber(p, w);
    MarkedMeans(p + "!" + w, w, v);
  }

  lemma MarkedMeans(input: string, w: string, v: Verdicts)
    requires Marked(input) && |Commands(input)| > 1 && Commands(input)[|Commands(input)| - 1] == w
    requires Tokens(w, ' ') == [w] && Arguments([w]) == [w]
    ensures Readable(input)
    ensures var k := |Commands(input)| - 1;
            Classified(input, v) == Numbered(k, ReadInt(w), true, StageFlags(WordLists(Commands(input)[..k]), v))
  {
    hide Tokens, Last, Marked, Attached, Parse, ReadInt, Final, Commands, NumberCommand, IsBuiltin, StageFlags, WordLists;
  }

  lemma {:induction false} EndsInSpace(cmds: seq<seq<string>>, lead: string := "")
    requires cmds != []
    ensures var p := Printed(lead, cmds, " "); p != [] && p[|p| - 1] == ' '
    decreases |cmds|
  {
    if |cmds| > 1 {
      EndsInSpace(cmds[1..], " ");
    }
  }

  lemma MarkBeforeNumber(p: string, w: string)
    requires p != [] && p[|p| - 1] == ' ' && w != [] && Free(w, '!')
    ensures Marked(p + "!" + w) && Final(p + "!" + w) == p + "|" + w
  {
    var t := p + "!" + w;
    LastIs(t[..|t| - 1], '!', |p|);
    LastIs(t, '!', |p|);
    assert t[|p| := '|'] == p + "|" + w;
  }
}
