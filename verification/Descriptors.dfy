/** Descriptor tables of the shell and of the processes it forks (hw2/2/shell.cpp).

    A table maps the descriptor slots a program uses to the open ends behind them.  Slots 0, 1 and 2
    are the standard ones; every other slot is named after the end it was opened for, so a program
    variable such as pi[i][1] is the slot Fd(Write(p)). */
module Descriptors {
  import opened Common

  datatype End =
    | Read(pipe: nat)
    | Write(pipe: nat)
    | Terminal          // what the server's own slots 0, 1 and 2 were opened on
    | Socket            // the client's connection
    | File              // the output file of a command
    | Null              // /dev/null
    | UserIn            // the read end of another user's pipe to this one
    | UserOut           // the write end of this user's pipe to another one

  datatype Slot = Std(number: nat) | Fd(end: End)

  type Table = map<Slot, End>

  predicate IsPipeEnd(e: End) {
    e.Read? || e.Write?
  }

  /** pipe(): a fresh pipe leaves both of its ends in the table. */
  function OpenPipe(t: Table, id: nat): Table {
    t[Fd(Read(id)) := Read(id)][Fd(Write(id)) := Write(id)]
  }

  /** dup2(from, to); a closed source slot leaves the target as it was. */
  function Dup2(t: Table, from: Slot, to: Slot): Table {
    if from in t then t[to := t[from]] else t
  }

  /** close(); closing a slot twice is harmless. */
  function Close(t: Table, s: Slot): Table {
    t - {s}
  }

  function CloseWrite(t: Table, delivered: Option<nat>): Table {
    if delivered.None? then t else Close(t, Fd(Write(delivered.value)))
  }

  function CloseBoth(t: Table, delivered: Option<nat>): Table {
    if delivered.None? then t
    else Close(Close(t, Fd(Read(delivered.value))), Fd(Write(delivered.value)))
  }

  /** What a COMMAND found among its words: an output file; an accepted <a or >b (in_flag, out_flag); a
      refused one (error_in_flag, error_out_flag). */
  datatype Flags = Flags(file: bool, inOk: bool, outOk: bool, inBad: bool, outBad: bool)

  const NONE := Flags(false, false, false, false, false)

  function FlagsAt(flags: seq<Flags>, i: nat): Flags {
    if i < |flags| then flags[i] else NONE
  }

  /** Opening something and moving it to a standard slot. */
  function Redirect(t: Table, on: bool, n: nat, e: End): Table {
    if on then t[Std(n) := e] else t
  }

  /** error_user_pipe(): refused redirections become /dev/null. */
  function Refuse(t: Table, x: Flags): Table {
    Redirect(Redirect(t, x.inBad, 0, Null), x.outBad, 1, Null)
  }

  /** exe_cmd(): the output file comes last. */
  function Exec(t: Table, x: Flags): Table {
    Redirect(t, x.file, 1, File)
  }

  /** Some slot of the table is open on the end. */
  ghost predicate Holds(t: Table, e: End) {
    exists s :: s in t && t[s] == e
  }

  /** A slot named after an end is open on that end.  Programs redirect the standard slots only: an
      open write end still has its own slot, and a pipe is read through its own slot or slot 0. */
  ghost predicate Tidy(t: Table) {
    forall s :: s in t ==>
      && (s.Fd? ==> t[s] == s.end)
      && (t[s].Write? ==> Fd(t[s]) in t)
      && (t[s].Read? && s.Std? ==> s == Std(0))
  }

  /** Every pipe the table mentions was opened before `limit`. */
  ghost predicate Below(t: Table, limit: nat) {
    forall s :: s in t && IsPipeEnd(t[s]) ==> t[s].pipe < limit
  }

  /** In a tidy table the open ends are those whose own slot is open, and what slot 0 reads. */
  lemma HoldsIff(t: Table, q: nat)
    requires Tidy(t)
    ensures Holds(t, Write(q)) <==> Fd(Write(q)) in t
    ensures Holds(t, Read(q)) <==> Fd(Read(q)) in t || (Std(0) in t && t[Std(0)] == Read(q))
  {
    if Fd(Write(q)) in t {
      assert t[Fd(Write(q))] == Write(q);
    }
    if Fd(Read(q)) in t {
      assert t[Fd(Read(q))] == Read(q);
    }
  }

  // ----- What each forked child does to its copy of the shell's table before exec ---------------

  /** A lone external command: output to the client or to a user, input from the delivered pipe if there
      is one, or from a user; with both users nothing else is redirected. */
  function SingleChild(t: Table, delivered: Option<nat>, x: Flags): Table {
    var wired :=
      if x.inOk && x.outOk then Redirect(Redirect(t, true, 1, UserOut), true, 0, UserIn)
      else
        var o := if x.outOk then Redirect(t, true, 1, UserOut) else StageOutput(t, Socket, false);
        if delivered.None? then Redirect(o, x.inOk, 0, UserIn)
        else CloseBoth(Dup2(o, Fd(Read(delivered.value)), Std(0)), delivered);
    Exec(Refuse(wired, x), x)
  }

  /** The one command in front of a numbered pipe `q`; a delivered pipe overrides a user. */
  function NumberedChild(t: Table, delivered: Option<nat>, q: nat, err: bool, x: Flags): Table {
    var c := Close(Redirect(t, x.inOk, 0, UserIn), Fd(Read(q)));
    var i := if delivered.None? then c else Dup2(c, Fd(Read(delivered.value)), Std(0));
    Exec(Refuse(StageOutput(i, Write(q), err), x), x)
  }

  /** The input side of stage `i` of commands chained by the pipes `first`, `first + 1`, ...: at the first
      stage a user overrides a delivered pipe in a plain chain, and is overridden in front of a numbered
      pipe. */
  function StageInput(t: Table, delivered: Option<nat>, plain: bool, first: nat, i: nat, x: Flags): Table {
    if i > 0 then Dup2(t, Fd(Read(first + i - 1)), Std(0))
    else
      var c := Redirect(Close(t, Fd(Read(first))), x.inOk, 0, UserIn);
      if delivered.Some? && !(plain && x.inOk) then Dup2(c, Fd(Read(delivered.value)), Std(0)) else c
  }

  /** The output side: `err` sends standard error where standard output goes. */
  function StageOutput(t: Table, target: End, err: bool): Table {
    Dup2(Dup2(t, Fd(target), Std(1)), Fd(if err then target else Socket), Std(2))
  }

  /** Refused redirections are looked at in the first stage, and in the last one of a plain line. */
  predicate Refusable(out: End, i: nat, k: nat) {
    i == 0 || (out.Socket? && i + 1 == k)
  }

  /** Stage `i` of `k`; the last stage writes to `out`, or to a user, the others to their own pipe. */
  function StageChild(t: Table, delivered: Option<nat>, out: End, err: bool, first: nat, i: nat, k: nat, x: Flags): Table {
    var input := StageInput(t, delivered, out.Socket?, first, i, x);
    var wired :=
      if out.Socket? && i + 1 == k && x.outOk then Redirect(input, true, 1, UserOut)
      else StageOutput(input, if i + 1 == k then out else Write(first + i), err);
    Exec(if Refusable(out, i, k) then Refuse(wired, x) else wired, x)
  }

  // ----- Where that leaves its standard slots ---------------------------------------------------

  /** Standard input of stage `i` of `k`, when the shell's is `own`. */
  function InputOf(own: End, delivered: Option<nat>, out: End, first: nat, i: nat, k: nat, x: Flags): End {
    if x.inBad && Refusable(out, i, k) then Null
    else if i > 0 then Read(first + i - 1)
    else if x.inOk && (delivered.None? || (out.Socket? && (k > 1 || x.outOk))) then UserIn
    else if delivered.Some? then Read(delivered.value)
    else own
  }

  /** Where the stage's output is meant to go. */
  function TargetOf(out: End, first: nat, i: nat, k: nat): End {
    if i + 1 == k then out else Write(first + i)
  }

  /** Standard output of the stage. */
  function OutputOf(out: End, first: nat, i: nat, k: nat, x: Flags): End {
    if x.file then File
    else if x.outBad && Refusable(out, i, k) then Null
    else if x.outOk && out.Socket? && i + 1 == k then UserOut
    else TargetOf(out, first, i, k)
  }

  /** Standard error of the stage, when the shell's is `own`: an output file takes the output only. */
  function ErrorOf(own: End, out: End, err: bool, first: nat, i: nat, k: nat, x: Flags): End {
    if x.outOk && out.Socket? && i + 1 == k then own
    else if err then TargetOf(out, first, i, k)
    else Socket
  }

  /** The three standard slots of the stage. */
  ghost predicate Slots(c: Table, own: Table, delivered: Option<nat>, out: End, err: bool,
                        first: nat, i: nat, k: nat, x: Flags)
    requires Std(0) in own && Std(2) in own
  {
    && Std(0) in c && c[Std(0)] == InputOf(own[Std(0)], delivered, out, first, i, k, x)
    && Std(1) in c && c[Std(1)] == OutputOf(out, first, i, k, x)
    && Std(2) in c && c[Std(2)] == ErrorOf(own[Std(2)], out, err, first, i, k, x)
  }

  // ----- The shell's own table around the fork of stage `i` -------------------------------------

  /** The shell's table when it forks stage `i`: `base` plus the read end of the previous pipe and
      both ends of the pipe just opened. */
  function AtFork(base: Table, first: nat, i: nat): Table {
    OpenPipe(AfterStages(base, first, i), first + i)
  }

  /** The shell's table after `i` stages: the read end of the latest pipe is still open. */
  function AfterStages(base: Table, first: nat, i: nat): Table {
    if i == 0 then base else base[Fd(Read(first + i - 1)) := Read(first + i - 1)]
  }

  /** No slot is named after a pipe that is not open yet. */
  ghost predicate Unopened(t: Table, next: nat) {
    forall e :: Fd(e) in t && IsPipeEnd(e) ==> e.pipe < next
  }
}
