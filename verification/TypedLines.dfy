/** From what is typed to what is delivered: the text of a line, its classification, and whole runs. */
module TypedLines {
  import opened Decimal
  import opened Descriptors
  import opened Shell
  import opened ShellRuns
  import opened ShellTheorems
  import opened Tokenizer
  import C = CommandLine

  ghost predicate AllReadable(texts: seq<string>) {
    forall i :: 0 <= i < |texts| ==> C.Readable(texts[i])
  }

  /** The verdicts on each line's user pipes. */
  type Rulings = nat -> C.Verdicts

  ghost function Typed(texts: seq<string>, vs: Rulings): seq<Line>
    requires AllReadable(texts)
  {
    seq(|texts|, i requires 0 <= i < |texts| => C.Classified(texts[i], vs(i)))
  }

  /** A printed pipeline with |n, or !n when `both`, behind it. */
  function Text(cmds: seq<seq<string>>, n: nat, both: bool): string {
    C.Printed("", cmds, " ") + (if both then "!" else "|") + ToString(n)
  }

  /** Whether the line is read as a numbered one: with !n always, with |n if n is at most 1000 or if an
      earlier exclamation mark makes it one. */
  predicate IsNumbered(text: string, n: nat) {
    n <= 1000 || C.Marked(text)
  }

  /** The words of a numbered line's last command send its output elsewhere: to a file, or, when it is the
      `only` command and its >b is refused, nowhere. */
  predicate Elsewhere(words: seq<string>, only: bool, v: C.Verdicts) {
    var p := C.Parse(words);
    p.files != [] || (only && C.Meets(p.users, false, false, 0, v))
  }

  /** The same of a line, cut as the shell cuts it. */
  predicate SentElsewhere(text: string, v: C.Verdicts) {
    var cmd := C.Commands(text);
    |cmd| >= 2 && Elsewhere(Tokens(cmd[|cmd| - 2], ' '), |cmd| == 2, v)
  }

  /** Every command is the one that was typed: no exclamation mark cuts one in two. */
  predicate AsWritten(text: string, both: bool) {
    both || !C.Marked(text)
  }

  lemma TextIs(cmds: seq<seq<string>>, n: nat, both: bool, v: C.Verdicts)
    requires C.Pipeline(cmds)
    ensures var t := Text(cmds, n, both);
      && C.Readable(t) && (both ==> C.Marked(t))
      && var l := C.Classified(t, v);
         (l.Numbered? <==> IsNumbered(t, n))
         && (IsNumbered(t, n) ==> l.count == C.Count(n) && l.err == C.Marked(t))
         && (IsNumbered(t, n) && AsWritten(t, both) ==> l.stages == |cmds| && l.flags == C.StageFlags(cmds, v))
  {
    hide C.Readable, C.Classified, C.Printed, ToString, C.Marked, C.StageFlags;
    if both {
      C.MarkedIsNumbered(cmds, n, v);
    } else {
      C.NumberedIff(cmds, n, v);
    }
  }

  lemma LastFlags(cmds: seq<seq<string>>, v: C.Verdicts)
    requires cmds != []
    ensures FlagsAt(C.StageFlags(cmds, v), |cmds| - 1) == C.FlagsOf(C.Parse(cmds[|cmds| - 1]), |cmds| - 1, v)
  {
    hide C.Parse, C.FlagsOf;
  }

  /** Whether a numbered line's output is diverted can be told from its words. */
  lemma DivertsIff(cmds: seq<seq<string>>, l: Line, v: C.Verdicts)
    requires cmds != [] && l.Numbered? && l.stages == |cmds| && l.flags == C.StageFlags(cmds, v)
    ensures Diverts(l) <==> Elsewhere(cmds[|cmds| - 1], |cmds| == 1, v)
  {
    LastFlags(cmds, v);
    hide C.Parse, C.StageFlags, C.Meets;
  }

  lemma LineDiverts(text: string, v: C.Verdicts)
    requires C.Readable(text) && C.Classified(text, v).Numbered?
    ensures Diverts(C.Classified(text, v)) <==> SentElsewhere(text, v)
  {
    var cmd := C.Commands(text);
    CutLine(text, v);
    var lists := C.WordLists(cmd[..|cmd| - 1]);
    assert lists[|cmd| - 2] == Tokens(cmd[|cmd| - 2], ' ');
    hide Tokens, C.Commands, C.Classified, C.Readable, C.WordLists, C.StageFlags, Elsewhere, Diverts;
    DivertsIff(lists, C.Classified(text, v), v);
  }

  lemma CutLine(text: string, v: C.Verdicts)
    requires C.Readable(text) && C.Classified(text, v).Numbered?
    ensures var l, cmd := C.Classified(text, v), C.Commands(text);
      |cmd| >= 2 && l.stages == |cmd| - 1 && l.flags == C.StageFlags(C.WordLists(cmd[..|cmd| - 1]), v)
  {
    hide C.Commands, C.Marked, C.Attached, C.ReadInt, C.NumberCommand, C.WordLists, C.StageFlags, C.IsBuiltin, C.Parse, Tokens;
  }

  lemma AllRead(before: seq<string>, text: string, after: seq<string>, vs: Rulings)
    requires AllReadable(before) && AllReadable(after) && C.Readable(text)
    ensures AllReadable(before + [text] + after)
    ensures var lines := Typed(before + [text] + after, vs);
      |lines| == |before| + 1 + |after| && lines[|before|] == C.Classified(text, vs(|before|))
  {
    var texts := before + [text] + after;
    hide C.Readable, C.Classified;
    assert forall i :: 0 <= i < |texts| ==>
      texts[i] == if i < |before| then before[i] else if i == |before| then text else after[i - |before| - 1];
  }

  /** A line typed with |n or !n is a producer of the n-th next line, if it is read as a numbered one,
      and of no other. */
  lemma TypedProducer(before: seq<string>, cmds: seq<seq<string>>, n: nat, both: bool, after: seq<string>,
                      vs: Rulings, target: int)
    requires AllReadable(before) && AllReadable(after) && C.Pipeline(cmds)
    ensures var text := Text(cmds, n, both);
      var texts := before + [text] + after;
      AllReadable(texts)
      && (|before| in Producers(Typed(texts, vs), target) <==> IsNumbered(text, n) && target == |before| + C.Count(n))
  {
    var text := Text(cmds, n, both);
    TextIs(cmds, n, both, vs(|before|));
    hide C.Readable, C.Classified, Text, IsNumbered, Typed, AllReadable, AsWritten, C.StageFlags;
    AllRead(before, text, after, vs);
  }

  /** The line's last command has its standard slot `n`, 1 for output and 2 for errors, on the pipe that is
      delivered now. */
  ghost predicate Reaches(lines: seq<Line>, t: nat, n: nat) {
    var s := Run(lines);
    var d := Delivered(s.pending);
    d.Some? && t in WritingLines(s.children, n, d.value)
  }

  lemma ReachesIff(lines: seq<Line>, t: nat)
    requires t < |lines|
    ensures Reaches(lines, t, 1) <==> t in Producers(lines, |lines|) && !Diverts(lines[t])
    ensures Reaches(lines, t, 2) <==> t in Producers(lines, |lines|) && lines[t].err
  {
    DeliveryIsExact(lines);
    hide Run, Delivered, WritingLines, Diverts;
  }

  /** Whatever else was typed: when the n-th next line comes, a pipe is delivered to it, and the last
      command of the line typed with |n or !n writes to that pipe unless its own words send its output
      elsewhere; its errors go there iff the line is marked.  Neither ever goes to a pipe delivered to
      another line. */
  lemma TypedDelivery(before: seq<string>, cmds: seq<seq<string>>, n: nat, both: bool, after: seq<string>, vs: Rulings)
    requires AllReadable(before) && AllReadable(after) && C.Pipeline(cmds)
    ensures var text, v := Text(cmds, n, both), vs(|before|);
      var texts := before + [text] + after;
      var due := IsNumbered(text, n) && |texts| == |before| + C.Count(n);
      && AllReadable(texts)
      && (Reaches(Typed(texts, vs), |before|, 1) <==> due && !SentElsewhere(text, v))
      && (Reaches(Typed(texts, vs), |before|, 2) <==> due && C.Marked(text))
      && (due && AsWritten(text, both) ==> (SentElsewhere(text, v) <==> Elsewhere(cmds[|cmds| - 1], |cmds| == 1, v)))
  {
    var text, v := Text(cmds, n, both), vs(|before|);
    TextIs(cmds, n, both, v);
    TypedProducer(before, cmds, n, both, after, vs, |before + [text] + after|);
    AllRead(before, text, after, vs);
    ReachesIff(Typed(before + [text] + after, vs), |before|);
    var l := C.Classified(text, v);
    if l.Numbered? {
      LineDiverts(text, v);
      if AsWritten(text, both) {
        DivertsIff(cmds, l, v);
      }
    }
    hide *;
    assert l.Numbered? && |before| in Producers(Typed(before + [text] + after, vs), |before + [text] + after|) ==>
      l.count == C.Count(n);
  }

  lemma NotSent(before: seq<string>, c: seq<string>, after: seq<string>, vs: Rulings, text: string)
    requires AllReadable(before) && AllReadable(after) && C.Command(c)
    requires text == Text([c], 1, false) && Free(text, '!') && Elsewhere(c, true, vs(|before|))
    ensures var texts := before + [text] + after;
      AllReadable(texts) && !Reaches(Typed(texts, vs), |before|, 1)
      && (|after| == 0 ==> |before| in Producers(Typed(texts, vs), |texts|))
  {
    assert C.Pipeline([c]);
    NoMark(text);
    hide Reaches, Typed, C.Readable, C.Marked, Text, Elsewhere, SentElsewhere, Producers, AllReadable;
    TypedDelivery(before, [c], 1, false, after, vs);
    TypedProducer(before, [c], 1, false, after, vs, |before + [text] + after|);
  }

  lemma NoMark(t: string)
    requires Free(t, '!')
    ensures !C.Marked(t)
  {}

  lemma OneCommand(c: seq<string>)
    ensures Text([c], 1, false) == C.Words(c) + " |1"
  {
    hide C.Words;
    assert "" + C.Words(c) + " " == C.Words(c) + " ";
    assert ToString(1) == "1";
  }

  lemma FileLine(v: C.Verdicts)
    ensures C.Command(["ls", ">", "f"]) && Text([["ls", ">", "f"]], 1, false) == "ls > f |1"
    ensures Elsewhere(["ls", ">", "f"], true, v)
  {
    var c := ["ls", ">", "f"];
    OneCommand(c);
    assert C.Words(c[1..][1..]) == "f" && C.Words(c[1..]) == "> f";
    assert C.Parse(c[1..]) == C.Plus(C.Parsed([], ["f"], []), C.Parse(c[1..][2..]));
    assert C.Parse(c).files == [] + (["f"] + C.Parse(c[1..][2..]).files);
  }

  lemma RefusedLine(v: C.Verdicts)
    requires !v(0, ">9")
    ensures C.Command(["ls", ">9"]) && Text([["ls", ">9"]], 1, false) == "ls >9 |1"
    ensures Elsewhere(["ls", ">9"], true, v)
  {
    var c := ["ls", ">9"];
    OneCommand(c);
    assert C.Words(c[1..]) == ">9";
    assert C.UserToken(">9");
    assert C.Parse(c[1..]) == C.Plus(C.One(">9"), C.Parse(c[1..][1..]));
    assert C.Parse(c).users == [] + ([">9"] + C.Parse(c[1..][1..]).users);
    assert ">9" in C.Parse(c).users;
    assert C.Decided(">9", false, false, 0, v);
  }

  /** The failing input with an output file: in every history what `ls > f |1` prints goes to its file, so
      no delivered pipe is written by it. */
  lemma FileIsNeverDelivered(before: seq<string>, after: seq<string>, vs: Rulings)
    requires AllReadable(before) && AllReadable(after)
    ensures var texts := before + ["ls > f |1"] + after;
      AllReadable(texts) && !Reaches(Typed(texts, vs), |before|, 1)
      && (|after| == 0 ==> |before| in Producers(Typed(texts, vs), |texts|))
  {
    FileLine(vs(|before|));
    assert Free("ls > f |1", '!');
    hide *;
    NotSent(before, ["ls", ">", "f"], after, vs, "ls > f |1");
  }

  /** The failing input with a refused user pipe: so it is with `ls >9 |1` when user 9 is not there. */
  lemma RefusedIsNeverDelivered(before: seq<string>, after: seq<string>, vs: Rulings)
    requires AllReadable(before) && AllReadable(after) && !vs(|before|)(0, ">9")
    ensures var texts := before + ["ls >9 |1"] + after;
      AllReadable(texts) && !Reaches(Typed(texts, vs), |before|, 1)
      && (|after| == 0 ==> |before| in Producers(Typed(texts, vs), |texts|))
  {
    RefusedLine(vs(|before|));
    assert Free("ls >9 |1", '!');
    hide *;
    NotSent(before, ["ls", ">9"], after, vs, "ls >9 |1");
  }

  /** The failing input with a mark: in every history nothing of this chat line is delivered to any line. */
  lemma YellIsNeverDelivered(texts: seq<string>, vs: Rulings, t: nat)
    requires AllReadable(texts) && t < |texts| && texts[t] == "yell hi !bob"
    ensures Typed(texts, vs)[t] == Numbered(1, 0, true, [NONE])
    ensures !Reaches(Typed(texts, vs), t, 1) && !Reaches(Typed(texts, vs), t, 2)
  {
    C.YellIsTakenForNumbered(vs(t));
    ReachesIff(Typed(texts, vs), t);
    hide Reaches, C.Readable, C.Classified, Diverts;
    assert t !in Producers(Typed(texts, vs), |texts|);
  }
}
