/** Client_Mananger of hw2/2/client.cpp and the user-pipe steps of hw2/2/shell.cpp, statement by
    statement, proved to compute the functions of Manager. */
module ClientManager {
  import opened UserPipes
  import M = Manager

  ghost predicate SortedById(q: seq<M.Client>) {
    forall i, j :: 0 <= i < j < |q| ==> q[i].id <= q[j].id
  }

  ghost predicate DistinctIds(q: seq<M.Client>) {
    forall i, j :: 0 <= i < j < |q| ==> q[i].id != q[j].id
  }

  lemma {:induction false} InsertMembers(q: seq<M.Client>, c: M.Client)
    ensures multiset(M.InsertById(q, c)) == multiset(q) + multiset{c}
  {
    if q != [] && c.id >= q[0].id {
      InsertMembers(q[1..], c);
      assert q == [q[0]] + q[1..];
    }
  }

  lemma {:induction false} InsertSorted(q: seq<M.Client>, c: M.Client)
    requires SortedById(q)
    ensures SortedById(M.InsertById(q, c))
    ensures forall x :: x in M.InsertById(q, c) ==> x == c || x in q
  {
    if q != [] && c.id >= q[0].id {
      InsertSorted(q[1..], c);
      var r := M.InsertById(q[1..], c);
      assert forall j :: 0 <= j < |r| ==> r[j] in r;
    }
  }

  lemma {:induction false} InsertDistinct(q: seq<M.Client>, c: M.Client)
    requires SortedById(q) && DistinctIds(q) && forall x :: x in q ==> x.id != c.id
    ensures DistinctIds(M.InsertById(q, c))
  {
    if q != [] && c.id >= q[0].id {
      InsertDistinct(q[1..], c);
      InsertSorted(q[1..], c);
      var r := M.InsertById(q[1..], c);
      assert forall j :: 0 <= j < |r| ==> r[j] in r;
    }
  }

  method SortById(q: seq<M.Client>) returns (r: seq<M.Client>)
    ensures SortedById(r) && multiset(r) == multiset(q)
  {
    r := [];
    for i := 0 to |q|
      invariant SortedById(r) && multiset(r) == multiset(q[..i])
    {
      assert q[..i + 1] == q[..i] + [q[i]];
      InsertMembers(r, q[i]);
      InsertSorted(r, q[i]);
      r := M.InsertById(r, q[i]);
    }
    assert q[..|q|] == q;
  }

  lemma SameHead(a: seq<M.Client>, b: seq<M.Client>)
    requires SortedById(a) && SortedById(b) && DistinctIds(a) && a != [] && b != []
    requires b[0] in a && a[0] in b
    ensures a[0] == b[0]
  {
    var j :| 0 <= j < |a| && a[j] == b[0];
    assert a[0].id <= a[j].id && b[0].id <= a[0].id;
  }

  /** Clients whose ids differ can be sorted in one way only. */
  lemma {:induction false} SortedOnce(a: seq<M.Client>, b: seq<M.Client>)
    requires SortedById(a) && SortedById(b) && DistinctIds(a) && multiset(a) == multiset(b)
    ensures a == b
  {
    assert |a| == |multiset(a)| == |multiset(b)| == |b|;
    if a != [] {
      assert b[0] in multiset(a) && a[0] in multiset(b);
      SameHead(a, b);
      TailMembers(a);
      TailMembers(b);
      SortedOnce(a[1..], b[1..]);
    }
  }

  lemma TailMembers(q: seq<M.Client>)
    requires q != []
    ensures multiset(q[1..]) == multiset(q) - multiset{q[0]}
  {
    assert q == [q[0]] + q[1..];
  }

  /** What every operation keeps (see ManagerRuns for what it means). */
  ghost predicate Valid(m: M.State) {
    && M.IdsInRange(m)
    && (forall i, j :: 0 <= i < j < |m.total| ==> m.total[i].id < m.total[j].id)
    && Unique(m.pipes)
  }

  /** The clearing loop started with `q`; it has kept and erased so much, and `rest` is still ahead. */
  ghost predicate Progress(q: seq<UserPipe>, id: int, kept: seq<UserPipe>, erased: seq<UserPipe>, rest: seq<UserPipe>) {
    Sweep(q, id) == kept + Sweep(rest, id) && Erased(q, id) == erased + Erased(rest, id)
  }

  ghost function Gone(rest: seq<UserPipe>, id: int): seq<UserPipe> {
    rest[..|rest| - |Remaining(rest, id)|]
  }

  lemma ProgressStep(q: seq<UserPipe>, id: int, kept: seq<UserPipe>, erased: seq<UserPipe>, rest: seq<UserPipe>)
    requires Progress(q, id, kept, erased, rest)
    ensures var r := Remaining(rest, id);
      if r == [] then Progress(q, id, kept, erased + Gone(rest, id), [])
      else Progress(q, id, kept + [r[0]], erased + Gone(rest, id), r[1..])
  {}

  lemma ProgressEnds(q: seq<UserPipe>, id: int, kept: seq<UserPipe>, erased: seq<UserPipe>)
    ensures Progress(q, id, [], [], q)
    ensures Progress(q, id, kept, erased, []) ==> Sweep(q, id) == kept && Erased(q, id) == erased
  {}

  lemma ClosesAppend(a: seq<UserPipe>, b: seq<UserPipe>)
    ensures M.Closes([]) == []
    ensures M.Closes(a + b) == M.Closes(a) + M.Closes(b)
  {}

  class Server {
    const idMap: array<bool>
    var total: seq<M.Client>
    var userPipe: seq<UserPipe>
    var log: seq<M.Event>   // what happened to the user pipes so far

    ghost function Snapshot(): M.State
      reads this, idMap
    {
      M.State(idMap[..], total, userPipe, log)
    }

    constructor ()
      ensures fresh(idMap) && Snapshot() == M.Init() && Valid(Snapshot())
    {
      idMap := new bool[M.CAPACITY](i => false);
      total, userPipe, log := [], [], [];
    }

    // ----- Ids ----------------------------------------------------------------------------------

    method OccupyId() returns (id: nat)
      requires M.Lowest(idMap[..], 0) < idMap.Length
      modifies idMap
      ensures id == M.Lowest(old(idMap[..]), 0) + 1
      ensures idMap[..] == old(idMap[..])[id - 1 := true]
    {
      var i := 0;
      while idMap[i]
        invariant 0 <= i < idMap.Length
        invariant forall j :: 0 <= j < i ==> idMap[j]
        invariant i <= M.Lowest(idMap[..], 0)
        decreases idMap.Length - i
      {
        i := i + 1;
      }
      assert !idMap[..][i];
      idMap[i] := true;
      id := i + 1;
    }

    method FreeId(n: int)
      requires 1 <= n <= idMap.Length
      modifies idMap
      ensures idMap[..] == old(idMap[..])[n - 1 := false]
    {
      idMap[n - 1] := false;
    }

    method CheckUserPipeId(n: int) returns (live: bool)
      requires 1 <= n <= idMap.Length
      ensures live <==> idMap[n - 1]
    {
      live := idMap[n - 1];
    }

    // ----- Clients ------------------------------------------------------------------------------

    method Add(c: M.Client)
      requires Valid(Snapshot()) && M.Lowest(idMap[..], 0) < idMap.Length
      requires forall i :: 0 <= i < |total| ==> idMap[total[i].id - 1]
      modifies this`total, idMap
      ensures Snapshot() == M.Enter(old(Snapshot()), c)
    {
      ghost var q := total;
      var id := OccupyId();
      var node := c.(id := id);
      total := total + [node];
      var sorted := SortById(total);
      assert forall i :: 0 <= i < |q| ==> q[i].id != id;
      hide M.InsertById, M.Lowest, SortedById;
      InsertMembers(q, node);
      InsertSorted(q, node);
      InsertDistinct(q, node);
      SortedOnce(M.InsertById(q, node), sorted);
      total := sorted;
    }

    method CheckName(name: string) returns (unused: bool)
      ensures unused <==> !M.NameTaken(total, name)
    {
      for i := 0 to |total|
        invariant forall j :: 0 <= j < i ==> total[j].name != name
      {
        if total[i].name == name {
          return false;
        }
      }
      unused := true;
    }

    method ChangeName(fd: int, name: string)
      modifies this`total
      ensures var i := M.IndexOf(old(total), fd);
        total == if i == |old(total)| then old(total) else old(total)[i := old(total)[i].(name := name)]
    {
      for i := 0 to |total|
        invariant total == old(total)
        invariant i <= M.IndexOf(total, fd)
      {
        if total[i].fd == fd {
          total := total[i := total[i].(name := name)];
          break;
        }
      }
    }

    /** The name command. */
    method NameCommand(fd: int, name: string)
      modifies this`total
      ensures Snapshot() == M.Rename(old(Snapshot()), fd, name)
    {
      var unused := CheckName(name);
      if unused {
        ChangeName(fd, name);
      }
    }

    /** A client leaves: its id, its pipes (as far as the clearing loop gets) and its record go. */
    method Del(fd: int)
      requires Valid(Snapshot())
      modifies this`total, this`userPipe, this`log, idMap
      ensures Snapshot() == M.Leave(old(Snapshot()), fd)
    {
      for i := 0 to |total|
        invariant Snapshot() == old(Snapshot())
        invariant i <= M.IndexOf(total, fd)
      {
        if total[i].fd == fd {
          FreeId(total[i].id);
          FreeUserPipe(total[i].id);
          total := total[..i] + total[i + 1..];
          break;
        }
      }
    }

    // ----- User pipes ---------------------------------------------------------------------------

    /** Whether the list has the pipe, and where. */
    method FindUserPipe(p: UserPipe) returns (found: bool, at: nat)
      ensures found <==> p in userPipe
      ensures found ==> at < |userPipe| && userPipe[at] == p && p !in userPipe[..at]
    {
      for i := 0 to |userPipe|
        invariant p !in userPipe[..i]
      {
        if userPipe[i] == p {
          return true, i;
        }
        assert userPipe[..i + 1] == userPipe[..i] + [userPipe[i]];
      }
      assert userPipe[..|userPipe|] == userPipe;
      found, at := false, 0;
    }

    method AddUserPipe(p: UserPipe) returns (added: bool)
      modifies this`userPipe, this`log
      ensures Snapshot() == M.Open(old(Snapshot()), p)
      ensures added <==> p !in old(userPipe)
    {
      var found, _ := FindUserPipe(p);
      added := !found;
      if added {
        userPipe := userPipe + [p];
        log := log + [M.Opened(p)];
      }
    }

    method DelUserPipe(p: UserPipe)
      requires Unique(userPipe)
      modifies this`userPipe, this`log
      ensures Snapshot() == M.Shut(old(Snapshot()), p)
      ensures Unique(userPipe)
    {
      WithoutFacts(userPipe, p);
      var found, i := FindUserPipe(p);
      if found {
        WithoutAt(userPipe, i);
        userPipe := userPipe[..i] + userPipe[i + 1..];
        log := log + [M.Closed(p)];
      }
    }

    /** Deletes the pipe at index `i`. */
    method DelAt(i: nat)
      requires Unique(userPipe) && i < |userPipe|
      modifies this`userPipe, this`log
      ensures userPipe == old(userPipe)[..i] + old(userPipe)[i + 1..]
      ensures log == old(log) + [M.Closed(old(userPipe)[i])]
      ensures Unique(userPipe)
    {
      WithoutAt(userPipe, i);
      DelUserPipe(userPipe[i]);
    }

    /** The loop body of FreeUserPipe at index `i`. */
    method ClearAt(i: nat, id: int)
      requires Unique(userPipe) && i < |userPipe|
      modifies this`userPipe, this`log
      ensures Unique(userPipe)
      ensures var rest := old(userPipe)[i..];
        && userPipe == old(userPipe)[..i] + Remaining(rest, id)
        && log == old(log) + M.Closes(Gone(rest, id))
    {
      ghost var q := userPipe;
      if userPipe[i].sender == id {
        DelAt(i);
      }
      if i < |userPipe| && userPipe[i].receiver == id {
        DelAt(i);
      }
    }

    /** Clears the pipes of a user: the index moves on even when the pipe under it was erased. */
    method FreeUserPipe(id: int)
      requires Unique(userPipe)
      modifies this`userPipe, this`log
      ensures userPipe == Sweep(old(userPipe), id)
      ensures log == old(log) + M.Closes(Erased(old(userPipe), id))
    {
      hide Sweep, Erased, Remaining, Progress, Gone, M.Closes;
      ghost var q := userPipe;
      ghost var kept, erased, rest := [], [], userPipe;
      ProgressEnds(q, id, [], []);
      ClosesAppend([], []);
      var i := 0;
      while i < |userPipe|
        invariant Unique(userPipe) && userPipe == kept + rest
        invariant i == |kept| || (rest == [] && i == |kept| + 1)
        invariant Progress(q, id, kept, erased, rest)
        invariant log == old(log) + M.Closes(erased)
        decreases |userPipe| - i
      {
        ghost var r, gone := Remaining(rest, id), Gone(rest, id);
        RemainingSplit(rest, id);
        assert userPipe[i..] == rest && userPipe[..i] == kept;
        ClearAt(i, id);
        ProgressStep(q, id, kept, erased, rest);
        ClosesAppend(erased, gone);
        erased := erased + gone;
        if r != [] {
          kept, rest := kept + [r[0]], r[1..];
        } else {
          rest := [];
        }
        i := i + 1;
      }
      ProgressEnds(q, id, kept, erased);
    }

    // ----- The user-pipe steps of one input line ------------------------------------------------

    /** The checks and announcements of one command. */
    method Command(me: int, r: M.Redirect) returns (accepted: bool)
      requires idMap.Length == M.CAPACITY && M.InRange(r)
      modifies this`log
      ensures var m := old(Snapshot());
        match r
        case Nothing => !accepted && Snapshot() == m
        case From(a) =>
          && accepted == M.AcceptsFrom(m, me, a)
          && Snapshot() == if accepted then M.Tell(m, M.Received(UserPipe(a, me))) else m
        case To(b) =>
          && accepted == M.AcceptsTo(m, me, b)
          && Snapshot() == if accepted then M.Tell(m, M.Piped(UserPipe(me, b))) else m
    {
      accepted := false;
      match r {
        case Nothing =>
        case From(a) =>
          var live := CheckUserPipeId(a);
          var found, _ := FindUserPipe(UserPipe(a, me));
          if live && found {
            accepted := true;
            log := log + [M.Received(UserPipe(a, me))];
          }
        case To(b) =>
          var found, _ := FindUserPipe(UserPipe(me, b));
          var live := CheckUserPipeId(b);
          if !found && live {
            accepted := true;
            log := log + [M.Piped(UserPipe(me, b))];
          }
      }
    }

    /** A line of one command. */
    method RunOne(me: int, a: M.Redirect, b: M.Redirect, builtin: bool)
      requires idMap.Length == M.CAPACITY && Unique(userPipe)
      requires M.InRange(a) && M.InRange(b) && !a.To? && !b.From?
      modifies this`userPipe, this`log
      ensures Snapshot() == M.RunOne(old(Snapshot()), me, a, b, builtin)
    {
      var inFlag := Command(me, a);
      var outFlag := Command(me, b);
      if outFlag {
        var _ := AddUserPipe(UserPipe(me, b.user));
      }
      if inFlag && !builtin {
        DelUserPipe(UserPipe(a.user, me));
      }
    }

    /** A pipeline that ends at the client or at another user. */
    method RunChain(me: int, rs: seq<M.Redirect>)
      requires idMap.Length == M.CAPACITY && Unique(userPipe) && M.AllInRange(rs)
      modifies this`userPipe, this`log
      ensures Snapshot() == M.RunChain(old(Snapshot()), me, rs)
    {
      ghost var m := Snapshot();
      var last := M.Nothing;
      for i := 0 to |rs|
        invariant Unique(userPipe)
        invariant Snapshot() == M.RunStages(m, me, rs, true, i)
        invariant last == M.LastFrom(m, me, rs, true, i)
      {
        var accepted := Command(me, rs[i]);
        if accepted && rs[i].To? {
          var _ := AddUserPipe(UserPipe(me, rs[i].user));
        }
        if accepted && rs[i].From? {
          last := rs[i];
          DelUserPipe(UserPipe(rs[i].user, me));
        }
      }
      if last.From? {
        DelUserPipe(UserPipe(last.user, me));
      }
    }

    /** A pipeline that ends in |n or !n; `a` and `b` are typed behind the number. */
    method RunNumbered(me: int, a: M.Redirect, b: M.Redirect, rs: seq<M.Redirect>)
      requires idMap.Length == M.CAPACITY && Unique(userPipe) && M.AllInRange(rs)
      requires M.InRange(a) && M.InRange(b) && !a.To? && !b.From?
      modifies this`userPipe, this`log
      ensures Snapshot() == M.RunNumbered(old(Snapshot()), me, a, b, rs)
    {
      var _ := Command(me, a);
      var _ := Command(me, b);
      ghost var m := Snapshot();
      for i := 0 to |rs|
        invariant Unique(userPipe)
        invariant Snapshot() == M.RunStages(m, me, rs, false, i)
      {
        var accepted := Command(me, rs[i]);
        if accepted && rs[i].From? {
          DelUserPipe(UserPipe(rs[i].user, me));
        }
      }
    }
  }
}
