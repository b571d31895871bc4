/** Laws of the line's recognisers, on the characters and words of the line itself. */
module LineLaws {
  import opened Decimal
  import opened Descriptors
  import opened Shell
  import opened Tokenizer
  import opened CommandLine

  // ----- Marks and signs ------------------------------------------------------------------------

  /** Position k holds c, and from there to `end` no other does. */
  ghost predicate LastAt(s: string, c: char, k: nat, end: int) {
    k < end <= |s| && s[k] == c && forall j :: k < j < end ==> s[j] != c
  }

  ghost predicate MarkAt(t: string, k: nat) {
    LastAt(t, '!', k, |t| - 1) && k > 0 && t[k - 1] == ' '
  }

  ghost predicate SignAt(t: string, k: nat) {
    LastAt(t, '|', k, |t|) && (k + 1 < |t| ==> t[k + 1] != ' ')
  }

  /** A line is marked iff, its last character left aside, its last exclamation mark stands behind a space. */
  lemma MarkedIff(t: string)
    ensures Marked(t) <==> exists k: nat :: MarkAt(t, k)
  {
    if t == [] {
    } else {
      var front := t[..|t| - 1];
      if k: nat :| MarkAt(t, k) {
        LastIs(front, '!', k);
      }
      if Marked(t) {
        assert MarkAt(t, Mark(t));
      }
    }
  }

  /** A line asks for its last command by number, as far as its pipe signs go, iff no space follows the last one. */
  lemma AttachedIff(t: string)
    ensures Attached(t) <==> exists k: nat :: SignAt(t, k)
  {
    if k: nat :| SignAt(t, k) {
      LastIs(t, '|', k);
    }
    if Attached(t) {
      assert SignAt(t, Last(t, '|'));
    }
  }

  /** The last exclamation mark becomes a pipe sign, and nothing else changes. */
  lemma SubstitutedIs(a: string, b: string)
    requires Free(b, '!')
    ensures Substituted(a + "!" + b) == a + "|" + b
    ensures Free(a, '!') ==> Substituted(a) == a
  {
    var t := a + "!" + b;
    assert forall j :: |a| < j < |t| ==> t[j] == b[j - |a| - 1];
    LastIs(t, '!', |a|);
    assert t[|a| := '|'] == a + "|" + b;
  }

  // ----- Numbers --------------------------------------------------------------------------------

  lemma {:induction false} PrefixIs(d: string, rest: string)
    requires IsDigits(d) && (rest != [] ==> !('0' <= rest[0] <= '9'))
    ensures DigitPrefix(d + rest) == d
  {
    if d == [] {
      assert d + rest == rest;
    } else {
      assert (d + rest)[1..] == d[1..] + rest;
      PrefixIs(d[1..], rest);
    }
  }

  /** A word is read as an int: digits up to the first other character, after at most one sign, cut off at the ends
      of the type; no digits are 0. */
  lemma ReadIntIs(d: string, rest: string)
    requires IsDigits(d) && (rest != [] ==> !('0' <= rest[0] <= '9'))
    ensures var n: int := Value(d);
      && ReadInt("+" + (d + rest)) == (if n <= 2147483647 then n else 2147483647)
      && ReadInt("-" + (d + rest)) == (if n <= 2147483648 then -n else -2147483648)
      && (d != [] || rest == [] || (rest[0] != '+' && rest[0] != '-')
          ==> ReadInt(d + rest) == if n <= 2147483647 then n else 2147483647)
  {
    PrefixIs(d, rest);
    var w := d + rest;
    assert ("+" + w)[1..] == w && ("-" + w)[1..] == w;
    assert w != [] ==> w[0] == if d != [] then d[0] else rest[0];
    hide DigitPrefix, Value;
  }

  /** One to three digits, leading zeros too, or the word 1000. */
  ghost predicate LooksLikeCount(w: string) {
    w == "1000" || (1 <= |w| <= 3 && forall i :: 0 <= i < |w| ==> '0' <= w[i] <= '9')
  }

  /** Whatever word stands behind the last pipe sign of an unmarked line, with no space between: it is a count iff it
      has one to three digits or is 1000, and one more command otherwise. */
  lemma AttachedWord(cmds: seq<seq<string>>, w: string, v: Verdicts)
    requires Pipeline(cmds) && Word(w) && w != ">" && !UserToken(w)
    requires !Marked(Printed("", cmds, " ") + "|" + w)
    ensures var t := Printed("", cmds, " ") + "|" + w;
      Readable(t) && Classified(t, v) ==
        if LooksLikeCount(w) then Numbered(|cmds|, ReadInt(w), false, StageFlags(cmds, v))
        else Plain(|cmds| + 1, StageFlags(cmds + [[w]], v))
  {
    assert IsNumber(w) <==> LooksLikeCount(w);
    WordAlone(w);
    hide *;
    CutWithWord(cmds, w);
    UnmarkedMeans(Printed("", cmds, " ") + "|" + w, w, |cmds|, v);
  }

  lemma WordAlone(w: string)
    requires Word(w) && w != ">" && !UserToken(w)
    ensures w != [] && w[0] != ' ' && Free(w, '|') && Tokens(w, ' ') == [w] && Tokens(w, '|') == [w]
    ensures Arguments([w]) == [w]
  {
    TokenAlone(w, ' ');
    TokenAlone(w, '|');
    assert [w][1..] == [];
    assert Parse([w]) == Plus(One(w), NOTHING);
    hide Tokens;
  }

  lemma CutWithWord(cmds: seq<seq<string>>, w: string)
    requires Pipeline(cmds) && w != [] && w[0] != ' ' && Free(w, '|') && Tokens(w, '|') == [w] && Tokens(w, ' ') == [w]
    ensures var t := Printed("", cmds, " ") + "|" + w;
      |cmds| > 0 && |Tokens(t, '|')| == |cmds| + 1 && Tokens(t, '|')[|cmds|] == w
      && WordLists(Tokens(t, '|')[..|cmds|]) == cmds && WordLists(Tokens(t, '|')) == cmds + [[w]]
      && 0 <= Last(t, '|') < |t| - 1 && t[Last(t, '|') + 1] != ' '
  {
    PrintedSplits("", cmds, " ");
    var p := Printed("", cmds, " ");
    SplitsAre(Tokens(p, '|'), cmds);
    OneMoreList(Tokens(p, '|'), w);
    hide Tokens, Printed, WordLists;
    SplitAtDelimiter(p, w, '|');
    LastIs(p + "|" + w, '|', |p|);
    assert (Tokens(p, '|') + [w])[..|cmds|] == Tokens(p, '|');
  }

  // ----- Words ----------------------------------------------------------------------------------

  /** The sign c with at most two digits behind it. */
  predicate PipeWord(w: string, c: char) {
    1 <= |w| <= 3 && w[0] == c && forall k :: 1 <= k < |w| ==> '0' <= w[k] <= '9'
  }

  predicate LooksLikeUserPipe(w: string) {
    PipeWord(w, '<') || PipeWord(w, '>')
  }

  lemma UserPipeIff(w: string)
    ensures UserToken(w) <==> LooksLikeUserPipe(w)
    ensures UserToken(w) && w[0] == '<' <==> PipeWord(w, '<')
    ensures UserToken(w) && w[0] == '>' <==> PipeWord(w, '>')
  {
    assert |w| >= 1 ==> forall k :: 1 <= k < |w| ==> w[1..][k - 1] == w[k];
  }

  /** A single word, and a file in front of more. */
  lemma WordIs(w: string, f: string, rest: seq<string>)
    ensures Parse([]) == Parsed([], [], [])
    ensures Parse([w]) ==
      if w == ">" then Parsed([], [], []) else if LooksLikeUserPipe(w) then Parsed([], [], [w]) else Parsed([w], [], [])
    ensures var p := Parse(rest);
      Parse([">", f] + rest) == Parsed(p.args, [f] + p.files, p.users)
  {
    UserPipeIff(w);
    assert [w][1..] == [];
    ParseFile(f, rest);
    hide UserToken, LooksLikeUserPipe;
  }

  /** Words are read in their order: unless it ends in a >, what comes first is read first. */
  lemma {:induction false} ParseJoins(a: seq<string>, b: seq<string>)
    requires a != [] ==> a[|a| - 1] != ">"
    ensures var p, q := Parse(a), Parse(b);
      Parse(a + b) == Parsed(p.args + q.args, p.files + q.files, p.users + q.users)
    decreases |a|
  {
    if a == [] {
      assert a + b == b;
    } else if a[0] == ">" {
      assert a == [">", a[1]] + a[2..] && a + b == [">", a[1]] + (a[2..] + b);
      ParseJoins(a[2..], b);
      ParseFile(a[1], a[2..]);
      ParseFile(a[1], a[2..] + b);
      hide Parse;
      PlusAssoc(Parsed([], [a[1]], []), Parse(a[2..]), Parse(b));
    } else {
      assert (a + b)[1..] == a[1..] + b;
      ParseJoins(a[1..], b);
      assert Parse(a) == Plus(One(a[0]), Parse(a[1..])) && Parse(a + b) == Plus(One(a[0]), Parse(a[1..] + b));
      hide Parse, One;
      PlusAssoc(One(a[0]), Parse(a[1..]), Parse(b));
    }
  }

  /** The last file of a command is the one it writes. */
  lemma LastFileCounts(a: seq<string>, f: string, b: seq<string>)
    requires (a != [] ==> a[|a| - 1] != ">") && Parse(b).files == []
    ensures OutputFile(Parse(a + ([">", f] + b))) == f
    ensures OutputFile(Parse(b)) == ""
  {
    hide *;
    ParseJoins(a, [">", f] + b);
    WordIs(f, f, b);
    LastOf(Parse(a + ([">", f] + b)), Parse(a).files, f);
    NoFile(Parse(b));
  }

  lemma LastOf(p: Parsed, files: seq<string>, f: string)
    requires p.files == files + ([f] + [])
    ensures OutputFile(p) == f
  {}

  lemma NoFile(p: Parsed)
    requires p.files == []
    ensures OutputFile(p) == ""
  {}

  // ----- Built-in commands ----------------------------------------------------------------------

  predicate OneOfSeven(w: string) {
    w == "setenv" || w == "printenv" || w == "exit" || w == "who" || w == "name" || w == "tell" || w == "yell"
  }

  ghost predicate HasMark(text: string) {
    exists k: nat :: MarkAt(text, k)
  }

  /** The line that is cut at its pipe signs: a marked one has its last exclamation mark changed. */
  ghost function CutText(text: string): string {
    if HasMark(text) then Substituted(text) else text
  }

  ghost function Pieces(text: string): seq<string> {
    Tokens(CutText(text), '|')
  }

  ghost function LastWords(text: string): seq<string> {
    var pieces := Pieces(text);
    if pieces == [] then [] else Tokens(pieces[|pieces| - 1], ' ')
  }

  /** There are several pieces, and the line is marked or its last piece is one word that looks like a count and
      follows its pipe sign at once. */
  ghost predicate AsksByNumber(text: string) {
    var words := LastWords(text);
    |Pieces(text)| > 1
    && (HasMark(text) || (|words| == 1 && LooksLikeCount(words[0]) && exists j: nat :: SignAt(CutText(text), j)))
  }

  /** Any line, however it is spaced. */
  lemma AnyLine(text: string, v: Verdicts)
    requires Readable(text)
    ensures Pieces(text) != [] && (|Pieces(text)| == 1 || AsksByNumber(text) ==> Arguments(LastWords(text)) != [])
    ensures var pieces, args := Pieces(text), Arguments(LastWords(text));
      Classified(text, v) ==
        if AsksByNumber(text) then
          Numbered(|pieces| - 1, ReadInt(args[0]), HasMark(text), StageFlags(WordLists(pieces[..|pieces| - 1]), v))
        else if |pieces| == 1 && OneOfSeven(args[0]) then Builtin
        else Plain(|pieces|, StageFlags(WordLists(pieces), v))
  {
    SamePieces(text);
    SameNumbering(text);
    var args := Arguments(LastWords(text));
    if args != [] {
      SevenNames(args[0]);
    }
    hide Tokens, Marked, EndsInNumber, AsksByNumber, Arguments, ReadInt, WordLists, StageFlags;
    hide Commands, Pieces, HasMark, IsBuiltin, OneOfSeven;
  }

  lemma SevenNames(w: string)
    ensures IsBuiltin(w) <==> OneOfSeven(w)
  {}

  lemma SamePieces(text: string)
    ensures CutText(text) == Final(text) && Pieces(text) == Commands(text) && (HasMark(text) <==> Marked(text))
  {
    MarkedIff(text);
    hide Marked, MarkAt, Substituted, Tokens;
  }

  lemma SameNumbering(text: string)
    ensures EndsInNumber(text) <==> AsksByNumber(text)
  {
    SamePieces(text);
    AttachedIff(CutText(text));
    if Commands(text) != [] {
      CountIff(Commands(text)[|Commands(text)| - 1]);
    }
    hide Tokens, Marked, Attached, SignAt, NumberCommand, LooksLikeCount, Pieces, Commands, CutText, Final, HasMark;
  }

  lemma CountIff(piece: string)
    ensures NumberCommand(piece) <==> |Tokens(piece, ' ')| == 1 && LooksLikeCount(Tokens(piece, ' ')[0])
  {
    hide Tokens;
  }

  /** A command that is typed alone, unmarked, is built in iff its first argument is one of these seven words. */
  lemma NamesAreBuiltin(c: seq<string>, v: Verdicts)
    requires Command(c) && !Marked(Words(c)) && Arguments(c) != []
    ensures var t, first := Words(c), Arguments(c)[0];
      Readable(t) && (Classified(t, v) == Builtin <==> OneOfSeven(first))
      && (Classified(t, v) != Builtin ==> Classified(t, v) == Plain(1, StageFlags([c], v)))
  {
    SingleCommand(c, v);
    LoneFlags(c, v);
    var first := Arguments(c)[0];
    SevenNames(first);
    hide Tokens, Readable, Classified, Marked, Parse, FlagsOf, StageFlags, IsBuiltin, OneOfSeven, Words, Commands;
  }

  lemma LoneFlags(c: seq<string>, v: Verdicts)
    ensures StageFlags([c], v) == [FlagsOf(Parse(c), 0, v)]
  {
    hide Parse, FlagsOf;
  }

  /** The first argument is the first word, unless that is a sign. */
  lemma FirstWord(c: seq<string>)
    requires c != [] && c[0] != ">" && !LooksLikeUserPipe(c[0])
    ensures Arguments(c) != [] && Arguments(c)[0] == c[0]
  {
    WordIs(c[0], c[0], []);
    ParseJoins([c[0]], c[1..]);
    assert [c[0]] + c[1..] == c;
    hide Parse;
  }
}
