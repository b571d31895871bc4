/** From the words of a typed line to the standard slots of the processes that are forked for it. */
module TypedSlots {
  import opened Common
  import opened Descriptors
  import opened Shell
  import opened ShellRuns
  import opened ShellTheorems
  import opened ForkFacts
  import opened LineLaws
  import opened Tokenizer
  import C = CommandLine

  // ----- What the words of one command ask for --------------------------------------------------

  /** Word j is the name of a file: it stands behind a > that is no such name itself. */
  predicate IsFileName(words: seq<string>, j: nat) {
    0 < j < |words| && words[j - 1] == ">" && !IsFileName(words, j - 1)
  }

  /** Word j of command i asks for a user pipe, as input when c is <, and is accepted or refused. */
  predicate AsksAt(words: seq<string>, j: nat, c: char, ok: bool, i: nat, v: C.Verdicts) {
    j < |words| && PipeWord(words[j], c) && words[j] != ">" && !IsFileName(words, j) && v(i, words[j]) == ok
  }

  ghost predicate Asks(words: seq<string>, c: char, ok: bool, i: nat, v: C.Verdicts) {
    exists j: nat :: AsksAt(words, j, c, ok, i, v)
  }

  ghost predicate Saves(words: seq<string>) {
    exists j: nat :: IsFileName(words, j)
  }

  lemma {:induction false} NameBehindWord(x: string, rest: seq<string>, j: nat)
    requires x != ">"
    ensures IsFileName([x] + rest, j + 1) <==> IsFileName(rest, j)
  {
    if j > 0 {
      NameBehindWord(x, rest, j - 1);
    }
  }

  lemma {:induction false} NameBehindFile(x: string, rest: seq<string>, j: nat)
    ensures IsFileName([">", x] + rest, j + 2) <==> IsFileName(rest, j)
  {
    assert IsFileName([">", x] + rest, 1) by {
      assert !IsFileName([">", x] + rest, 0);
    }
    if j > 0 {
      NameBehindFile(x, rest, j - 1);
    }
  }

  lemma AsksBehindWord(x: string, rest: seq<string>, c: char, ok: bool, i: nat, v: C.Verdicts)
    requires x != ">"
    ensures Asks([x] + rest, c, ok, i, v) <==> (PipeWord(x, c) && v(i, x) == ok) || Asks(rest, c, ok, i, v)
  {
    hide PipeWord, IsFileName;
    var words := [x] + rest;
    forall j: nat
      ensures AsksAt(words, j + 1, c, ok, i, v) <==> AsksAt(rest, j, c, ok, i, v)
    {
      NameBehindWord(x, rest, j);
    }
    NotFirst(words);
    assert AsksAt(words, 0, c, ok, i, v) <==> PipeWord(x, c) && v(i, x) == ok;
    if j: nat :| AsksAt(words, j, c, ok, i, v) {
      assert j == 0 || AsksAt(rest, j - 1, c, ok, i, v) by {
        assert j > 0 ==> AsksAt(words, (j - 1) + 1, c, ok, i, v);
      }
    }
    if j: nat :| AsksAt(rest, j, c, ok, i, v) {
      assert AsksAt(words, j + 1, c, ok, i, v);
    }
  }

  lemma NotFirst(words: seq<string>)
    ensures !IsFileName(words, 0)
  {}

  lemma AsksBehindFile(x: string, rest: seq<string>, c: char, ok: bool, i: nat, v: C.Verdicts)
    ensures Asks([">", x] + rest, c, ok, i, v) <==> Asks(rest, c, ok, i, v)
  {
    var words := [">", x] + rest;
    NotFirst(words);
    assert IsFileName(words, 1);
    hide PipeWord, IsFileName;
    forall j: nat
      ensures AsksAt(words, j + 2, c, ok, i, v) <==> AsksAt(rest, j, c, ok, i, v)
    {
      NameBehindFile(x, rest, j);
    }
    if j: nat :| AsksAt(words, j, c, ok, i, v) {
      assert j >= 2;
      assert AsksAt(words, (j - 2) + 2, c, ok, i, v);
      assert AsksAt(rest, j - 2, c, ok, i, v);
    }
    if j: nat :| AsksAt(rest, j, c, ok, i, v) {
      assert AsksAt(words, j + 2, c, ok, i, v);
    }
  }

  lemma SavesBehindWord(x: string, rest: seq<string>)
    requires x != ">"
    ensures Saves([x] + rest) <==> Saves(rest)
  {
    hide IsFileName;
    var words := [x] + rest;
    NotFirst(words);
    if j: nat :| IsFileName(words, j) {
      NameBehindWord(x, rest, j - 1);
      assert IsFileName(rest, j - 1);
    }
    if j: nat :| IsFileName(rest, j) {
      NameBehindWord(x, rest, j);
    }
  }

  lemma SavesFile(x: string, rest: seq<string>)
    ensures Saves([">", x] + rest)
  {
    NotFirst([">", x] + rest);
    assert IsFileName([">", x] + rest, 1);
  }

  lemma NothingAsked(words: seq<string>, c: char, ok: bool, i: nat, v: C.Verdicts)
    requires words == [] || words == [">"]
    ensures !Asks(words, c, ok, i, v) && !Saves(words)
  {}

  lemma OneMeets(x: string, c: char, ok: bool, i: nat, v: C.Verdicts)
    requires c == '<' || c == '>'
    ensures C.Meets(C.One(x).users, c == '<', ok, i, v) <==> PipeWord(x, c) && v(i, x) == ok
  {
    UserPipeIff(x);
    if C.UserToken(x) {
      assert x in C.One(x).users;
    }
  }

  lemma PlusMeets(p: C.Parsed, q: C.Parsed, input: bool, ok: bool, i: nat, v: C.Verdicts)
    ensures C.Meets(C.Plus(p, q).users, input, ok, i, v) <==> C.Meets(p.users, input, ok, i, v) || C.Meets(q.users, input, ok, i, v)
  {
    hide C.Decided;
    assert forall w :: w in C.Plus(p, q).users <==> w in p.users || w in q.users;
  }

  /** What parsing found is what stands there. */
  lemma {:induction false} ParsedIs(words: seq<string>, c: char, ok: bool, i: nat, v: C.Verdicts)
    requires c == '<' || c == '>'
    ensures C.Meets(C.Parse(words).users, c == '<', ok, i, v) <==> Asks(words, c, ok, i, v)
    ensures C.Parse(words).files != [] <==> Saves(words)
    decreases |words|
  {
    if words == [] || words == [">"] {
      NothingAsked(words, c, ok, i, v);
    } else if words[0] == ">" {
      var x, rest := words[1], words[2..];
      ParsedIs(rest, c, ok, i, v);
      assert words == [">", x] + rest;
      hide *;
      C.ParseFile(x, rest);
      AsksBehindFile(x, rest, c, ok, i, v);
      SavesFile(x, rest);
      FileMeets(x, C.Parse(rest), c == '<', ok, i, v);
    } else {
      var x, rest := words[0], words[1..];
      ParsedIs(rest, c, ok, i, v);
      assert C.Parse(words) == C.Plus(C.One(x), C.Parse(rest));
      assert words == [x] + rest;
      hide *;
      AsksBehindWord(x, rest, c, ok, i, v);
      SavesBehindWord(x, rest);
      OneMeets(x, c, ok, i, v);
      PlusMeets(C.One(x), C.Parse(rest), c == '<', ok, i, v);
      WordAdds(x, C.Parse(rest));
    }
  }

  lemma FileMeets(x: string, q: C.Parsed, input: bool, ok: bool, i: nat, v: C.Verdicts)
    ensures var p := C.Plus(C.Parsed([], [x], []), q);
      p.files != [] && p.users == q.users
  {}

  lemma WordAdds(x: string, q: C.Parsed)
    ensures C.Plus(C.One(x), q).files == q.files
  {}

  /** A command's flags, read off its words. */
  lemma FlagsAre(cmds: seq<seq<string>>, i: nat, v: C.Verdicts)
    requires i < |cmds|
    ensures var x := FlagsAt(C.StageFlags(cmds, v), i);
      && (x.file <==> Saves(cmds[i]))
      && (x.inOk <==> Asks(cmds[i], '<', true, i, v)) && (x.inBad <==> Asks(cmds[i], '<', false, i, v))
      && (x.outOk <==> Asks(cmds[i], '>', true, i, v)) && (x.outBad <==> Asks(cmds[i], '>', false, i, v))
  {
    var p := C.Parse(cmds[i]);
    ParsedIs(cmds[i], '<', true, i, v);
    ParsedIs(cmds[i], '<', false, i, v);
    ParsedIs(cmds[i], '>', true, i, v);
    ParsedIs(cmds[i], '>', false, i, v);
    assert FlagsAt(C.StageFlags(cmds, v), i) == C.FlagsOf(p, i, v);
    hide C.Parse, C.StageFlags, C.Meets, Asks, Saves;
  }

  // ----- From the words to the slots ------------------------------------------------------------

  /** The processes forked for a line and their standard slots, when the server's own are on the terminal. */
  lemma ForkedSlots(lines: seq<Line>, l: Line, i: nat)
    requires i < Stages(l)
    ensures |NewChildren(Run(lines), l)| == Stages(l)
    ensures var u := Prepare(Run(lines), l);
      u.delivered == Delivered(Run(lines).pending)
      && (if l.Numbered? then u.out.Write? && Waiting(u.out.pipe, l.count) in u.pending && u.err == l.err
          else u.out == Socket && u.next == Run(lines).next && !u.err)
    ensures var u, x, c := Prepare(Run(lines), l), FlagsAt(l.flags, i), NewChildren(Run(lines), l)[i].fds;
      && Std(0) in c && c[Std(0)] == InputOf(Terminal, u.delivered, u.out, u.next, i, Stages(l), x)
      && Std(1) in c && c[Std(1)] == OutputOf(u.out, u.next, i, Stages(l), x)
      && Std(2) in c && c[Std(2)] == ErrorOf(Terminal, u.out, u.err, u.next, i, Stages(l), x)
  {
    RunShape(lines);
    StandardSlots(lines, 0);
    StandardSlots(lines, 2);
    NewChildFacts(Run(lines), l, i);
    PrepareShape(Run(lines), l);
    NumberedErr(Run(lines), l);
    hide Prepare, Run, Shape, InputOf, OutputOf, ErrorOf, Tidy, Below, NewChildren, DeliveredOpen, Delivered;
  }

  lemma NumberedErr(s: State, l: Line)
    ensures l.Numbered? ==> Prepare(s, l).err == l.err
  {
    hide Find, Keep, Ticked, Delivered;
  }

  /** A line that is run as it stands: how it was cut. */
  lemma PlainCut(text: string, v: C.Verdicts)
    requires C.Readable(text) && C.Classified(text, v).Plain?
    ensures var l, cmds := C.Classified(text, v), C.WordLists(C.Commands(text));
      |cmds| == |C.Commands(text)| == l.stages && l.flags == C.StageFlags(cmds, v)
  {
    hide C.Commands, C.EndsInNumber, C.ReadInt, C.StageFlags, C.IsBuiltin, C.Parse, C.FirstArgument;
  }

  lemma LinesOf(l: Line)
    ensures !l.Builtin? ==> Stages(l) == l.stages
  {}

  lemma PlainEnds(d: Option<nat>, next: nat, i: nat, k: nat, x: Flags)
    requires i < k
    ensures InputOf(Terminal, d, Socket, next, i, k, x) ==
      if (i == 0 || i + 1 == k) && x.inBad then Null
      else if i > 0 then Read(next + i - 1)
      else if x.inOk && (d.None? || k > 1 || x.outOk) then UserIn
      else if d.Some? then Read(d.value) else Terminal
    ensures OutputOf(Socket, next, i, k, x) ==
      if x.file then File
      else if (i == 0 || i + 1 == k) && x.outBad then Null
      else if i + 1 < k then Write(next + i)
      else if x.outOk then UserOut else Socket
    ensures ErrorOf(Terminal, Socket, false, next, i, k, x) == if i + 1 == k && x.outOk then Terminal else Socket
  {}

  lemma NumberedEnds(d: Option<nat>, out: End, err: bool, next: nat, i: nat, k: nat, x: Flags)
    requires i < k && out.Write?
    ensures var to := if i + 1 == k then out else Write(next + i);
      && InputOf(Terminal, d, out, next, i, k, x) == (
           if i > 0 then Read(next + i - 1)
           else if x.inBad then Null
           else if d.Some? then Read(d.value)
           else if x.inOk then UserIn else Terminal)
      && OutputOf(out, next, i, k, x) == (if x.file then File else if i == 0 && x.outBad then Null else to)
      && ErrorOf(Terminal, out, err, next, i, k, x) == (if err then to else Socket)
  {}

  /** In every history, the standard slots of the i-th process of a typed plain line, from its words. */
  lemma PlainLineSlots(lines: seq<Line>, text: string, v: C.Verdicts, i: nat)
    requires C.Readable(text) && C.Classified(text, v).Plain? && i < |C.Commands(text)|
    ensures var s, l, k := Run(lines), C.Classified(text, v), |C.Commands(text)|;
      var w, d := C.WordLists(C.Commands(text))[i], Delivered(s.pending);
      |NewChildren(s, l)| == k && var c := NewChildren(s, l)[i].fds;
      && Std(0) in c && c[Std(0)] == (
           if (i == 0 || i + 1 == k) && Asks(w, '<', false, i, v) then Null
           else if i > 0 then Read(s.next + i - 1)
           else if Asks(w, '<', true, i, v) && (d.None? || k > 1 || Asks(w, '>', true, i, v)) then UserIn
           else if d.Some? then Read(d.value) else Terminal)
      && Std(1) in c && c[Std(1)] == (
           if Saves(w) then File
           else if (i == 0 || i + 1 == k) && Asks(w, '>', false, i, v) then Null
           else if i + 1 < k then Write(s.next + i)
           else if Asks(w, '>', true, i, v) then UserOut else Socket)
      && Std(2) in c && c[Std(2)] == (if i + 1 == k && Asks(w, '>', true, i, v) then Terminal else Socket)
  {
    hide *;
    var l := C.Classified(text, v);
    PlainCut(text, v);
    FlagsAre(C.WordLists(C.Commands(text)), i, v);
    LinesOf(l);
    ForkedSlots(lines, l, i);
    PlainEnds(Delivered(Run(lines).pending), Run(lines).next, i, |C.Commands(text)|, FlagsAt(l.flags, i));
  }

  /** The same in front of a numbered pipe, whose last command writes to the pipe it waits for. */
  lemma NumberedLineSlots(lines: seq<Line>, text: string, v: C.Verdicts, i: nat)
    requires C.Readable(text) && C.Classified(text, v).Numbered? && i + 1 < |C.Commands(text)|
    ensures var s, l, k := Run(lines), C.Classified(text, v), |C.Commands(text)| - 1;
      var w, d, u := C.WordLists(C.Commands(text))[i], Delivered(s.pending), Prepare(s, l);
      u.out.Write? && Waiting(u.out.pipe, l.count) in u.pending
      && |NewChildren(s, l)| == k && var c := NewChildren(s, l)[i].fds;
      var to := if i + 1 == k then u.out else Write(u.next + i);
      && Std(0) in c && c[Std(0)] == (
           if i > 0 then Read(u.next + i - 1)
           else if Asks(w, '<', false, i, v) then Null
           else if d.Some? then Read(d.value)
           else if Asks(w, '<', true, i, v) then UserIn else Terminal)
      && Std(1) in c && c[Std(1)] == (
           if Saves(w) then File else if i == 0 && Asks(w, '>', false, i, v) then Null else to)
      && Std(2) in c && c[Std(2)] == (if C.Marked(text) then to else Socket)
  {
    hide *;
    var l := C.Classified(text, v);
    var cmd := C.Commands(text);
    NumberedCut(text, v);
    ListsOfFront(cmd, i);
    FlagsAre(C.WordLists(cmd[..|cmd| - 1]), i, v);
    LinesOf(l);
    ForkedSlots(lines, l, i);
    var u := Prepare(Run(lines), l);
    NumberedEnds(u.delivered, u.out, u.err, u.next, i, |cmd| - 1, FlagsAt(l.flags, i));
  }

  lemma ListsOfFront(cmd: seq<string>, i: nat)
    requires i + 1 < |cmd|
    ensures var front := C.WordLists(cmd[..|cmd| - 1]);
      |front| == |cmd| - 1 && |C.WordLists(cmd)| == |cmd| && front[i] == C.WordLists(cmd)[i]
  {}

  lemma NumberedCut(text: string, v: C.Verdicts)
    requires C.Readable(text) && C.Classified(text, v).Numbered?
    ensures var l, cmd := C.Classified(text, v), C.Commands(text);
      |cmd| >= 2 && l.stages == |cmd| - 1 && l.flags == C.StageFlags(C.WordLists(cmd[..|cmd| - 1]), v) && l.err == C.Marked(text)
  {
    hide C.Commands, C.Marked, C.EndsInNumber, C.ReadInt, C.WordLists, C.StageFlags, C.IsBuiltin, C.Parse, C.FirstArgument;
  }

  // ----- Lines as they are typed ----------------------------------------------------------------

  /** Without a mark the commands are cut where they were typed. */
  lemma CutAsTyped(cmds: seq<seq<string>>)
    requires C.Pipeline(cmds)
    ensures var t := C.Printed("", cmds, "");
      !C.Marked(t) ==> C.WordLists(C.Commands(t)) == cmds && |C.Commands(t)| == |cmds|
  {
    var t := C.Printed("", cmds, "");
    C.PrintedSplits("", cmds, "");
    hide C.Marked, C.Printed, C.Pipeline, Tokens;
    C.SplitsAre(Tokens(t, '|'), cmds);
  }

  /** The ends of a line's processes, by its words.  The first command reads another user's pipe iff its words hold
      an accepted < and no refused one; alone, it does so only if nothing is delivered or it also writes to a user.
      It reads nothing iff one is refused.  The last command writes to another user's pipe iff its words hold an
      accepted >, no refused one and no file, and to the client iff they hold none of these. */
  ghost predicate EndsByWords(forked: seq<Child>, d: Option<nat>, cmds: seq<seq<string>>, v: C.Verdicts)
    requires cmds != []
  {
    var k := |cmds|;
    var first, last := cmds[0], cmds[k - 1];
    && |forked| == k && Std(0) in forked[0].fds && Std(1) in forked[k - 1].fds
    && var input, output := forked[0].fds[Std(0)], forked[k - 1].fds[Std(1)];
    && (input == UserIn <==>
          && Asks(first, '<', true, 0, v) && !Asks(first, '<', false, 0, v)
          && (k == 1 ==> d.None? || Asks(first, '>', true, 0, v)))
    && (input == Null <==> Asks(first, '<', false, 0, v))
    && (output == File <==> Saves(last))
    && (output == UserOut <==> !Saves(last) && Asks(last, '>', true, k - 1, v) && !Asks(last, '>', false, k - 1, v))
    && (output == Null <==> !Saves(last) && Asks(last, '>', false, k - 1, v))
    && (output == Socket <==> !Saves(last) && !Asks(last, '>', true, k - 1, v) && !Asks(last, '>', false, k - 1, v))
  }

  /** In every history, for every pipeline that is typed and not marked. */
  lemma TypedEnds(lines: seq<Line>, cmds: seq<seq<string>>, v: C.Verdicts)
    requires C.Pipeline(cmds) && !C.Marked(C.Printed("", cmds, ""))
    requires C.Readable(C.Printed("", cmds, "")) && C.Classified(C.Printed("", cmds, ""), v).Plain?
    ensures cmds != []
    ensures var s := Run(lines);
      EndsByWords(NewChildren(s, C.Classified(C.Printed("", cmds, ""), v)), Delivered(s.pending), cmds, v)
  {
    hide *;
    var t := C.Printed("", cmds, "");
    CutAsTyped(cmds);
    SomeCommand(cmds);
    PlainLineSlots(lines, t, v, 0);
    PlainLineSlots(lines, t, v, |cmds| - 1);
    EndsFrom(NewChildren(Run(lines), C.Classified(t, v)), Delivered(Run(lines).pending), cmds, v, Run(lines).next);
  }

  lemma EndsFrom(forked: seq<Child>, d: Option<nat>, cmds: seq<seq<string>>, v: C.Verdicts, next: nat)
    requires cmds != [] && |forked| == |cmds|
    requires var k, w, c := |cmds|, cmds[0], forked[0].fds;
      Std(0) in c && c[Std(0)] == (
        if Asks(w, '<', false, 0, v) then Null
        else if Asks(w, '<', true, 0, v) && (d.None? || k > 1 || Asks(w, '>', true, 0, v)) then UserIn
        else if d.Some? then Read(d.value) else Terminal)
    requires var i := |cmds| - 1;
      var w, c := cmds[i], forked[i].fds;
      Std(1) in c && c[Std(1)] == (
        if Saves(w) then File
        else if Asks(w, '>', false, i, v) then Null
        else if Asks(w, '>', true, i, v) then UserOut else Socket)
    ensures EndsByWords(forked, d, cmds, v)
  {
    hide Asks, Saves;
  }

  lemma SomeCommand(cmds: seq<seq<string>>)
    requires C.Pipeline(cmds)
    ensures |cmds| > 0
  {}
}
