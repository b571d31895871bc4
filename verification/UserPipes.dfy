/** The list of directed user pipes of hw2/2/client.cpp, and the loop that clears it when a user leaves. */
module UserPipes {

  /** A pipe from user `sender` to user `receiver`. */
  datatype UserPipe = UserPipe(sender: int, receiver: int)

  predicate Touches(p: UserPipe, id: int) {
    p.sender == id || p.receiver == id
  }

  ghost predicate Unique(q: seq<UserPipe>) {
    forall i, j :: 0 <= i < j < |q| ==> q[i] != q[j]
  }

  /** The list without the first occurrence of `p`. */
  function Without(q: seq<UserPipe>, p: UserPipe): seq<UserPipe> {
    if q == [] then []
    else if q[0] == p then q[1..]
    else [q[0]] + Without(q[1..], p)
  }

  /** The pipes that do not touch `id`, in order. */
  function Untouched(q: seq<UserPipe>, id: int): seq<UserPipe> {
    if q == [] then []
    else (if Touches(q[0], id) then [] else [q[0]]) + Untouched(q[1..], id)
  }

  lemma {:induction false} WithoutFacts(q: seq<UserPipe>, p: UserPipe)
    requires Unique(q)
    ensures Unique(Without(q, p))
    ensures forall x :: x in Without(q, p) <==> x in q && x != p
  {
    if q != [] {
      assert q == [q[0]] + q[1..];
      assert q[0] !in q[1..];
      if q[0] != p {
        WithoutFacts(q[1..], p);
      }
    }
  }

  lemma {:induction false} WithoutAt(q: seq<UserPipe>, i: nat)
    requires Unique(q) && i < |q|
    ensures Without(q, q[i]) == q[..i] + q[i + 1..]
  {
    if i > 0 {
      assert q[1..][i - 1] == q[i] && q[0] != q[i];
      WithoutAt(q[1..], i - 1);
      assert q[..i] + q[i + 1..] == [q[0]] + (q[1..][..i - 1] + q[1..][i..]);
    } else {
      assert q[..0] + q[1..] == q[1..];
    }
  }

  // ----- The clearing loop ----------------------------------------------------------------------

  /** What the loop leaves of `q` from its current position on: it erases the pipe there if `id`
      sends on it, then the pipe now there if `id` receives on it (or the first one, when it only
      receives), and steps over whatever has moved into that position. */
  function Remaining(q: seq<UserPipe>, id: int): seq<UserPipe> {
    if q == [] then q
    else if q[0].sender == id then
      if |q| > 1 && q[1].receiver == id then q[2..] else q[1..]
    else if q[0].receiver == id then q[1..]
    else q
  }

  function Sweep(q: seq<UserPipe>, id: int): seq<UserPipe> {
    var r := Remaining(q, id);
    if r == [] then [] else [r[0]] + Sweep(r[1..], id)
  }

  /** The pipes the loop erases, in order. */
  function Erased(q: seq<UserPipe>, id: int): seq<UserPipe> {
    var r := Remaining(q, id);
    q[..|q| - |r|] + if r == [] then [] else Erased(r[1..], id)
  }

  lemma RemainingSplit(q: seq<UserPipe>, id: int)
    ensures |Remaining(q, id)| <= |q|
    ensures q == q[..|q| - |Remaining(q, id)|] + Remaining(q, id)
    ensures forall p :: p in q[..|q| - |Remaining(q, id)|] ==> Touches(p, id)
  {}

  lemma PartsCount(front: seq<UserPipe>, x: UserPipe, tail: seq<UserPipe>, kept: seq<UserPipe>, erased: seq<UserPipe>)
    requires multiset(tail) == multiset(kept) + multiset(erased)
    ensures multiset(front + ([x] + tail)) == multiset([x] + kept) + multiset(front + erased)
  {}

  /** Sweep and Erased split the list, whatever it is. */
  lemma {:induction false} SweepSplits(q: seq<UserPipe>, id: int)
    ensures multiset(q) == multiset(Sweep(q, id)) + multiset(Erased(q, id))
    ensures forall p :: p in Erased(q, id) ==> Touches(p, id)
    decreases |q|
  {
    var r := Remaining(q, id);
    RemainingSplit(q, id);
    var front := q[..|q| - |r|];
    SweepUnfolds(q, id, front, r);
    hide Remaining, Touches, Sweep, Erased;
    if r != [] {
      SweepSplits(r[1..], id);
      PartsCount(front, r[0], r[1..], Sweep(r[1..], id), Erased(r[1..], id));
    }
  }

  lemma SweepUnfolds(q: seq<UserPipe>, id: int, front: seq<UserPipe>, r: seq<UserPipe>)
    requires r == Remaining(q, id) && q == front + r
    ensures r == [] ==> q == front && Sweep(q, id) == [] && Erased(q, id) == front
    ensures r != [] ==> q == front + ([r[0]] + r[1..])
    ensures r != [] ==> Sweep(q, id) == [r[0]] + Sweep(r[1..], id) && Erased(q, id) == front + Erased(r[1..], id)
  {
    assert q[..|q| - |r|] == front;
    assert r != [] ==> r == [r[0]] + r[1..];
  }

  lemma RemainingUntouched(q: seq<UserPipe>, id: int)
    ensures Untouched(Remaining(q, id), id) == Untouched(q, id)
  {
    if |q| > 1 {
      assert q[1..][1..] == q[2..];
    }
  }

  /** The pipes that do not touch `id` always survive, in their order. */
  lemma {:induction false} SweepKeepsOthers(q: seq<UserPipe>, id: int)
    ensures Untouched(Sweep(q, id), id) == Untouched(q, id)
    decreases |q|
  {
    var r := Remaining(q, id);
    RemainingUntouched(q, id);
    if r != [] {
      SweepKeepsOthers(r[1..], id);
      assert Sweep(q, id)[1..] == Sweep(r[1..], id);
    }
  }

  ghost predicate Cleared(q: seq<UserPipe>, id: int) {
    forall p :: p in q ==> !Touches(p, id)
  }

  /** The pipes touching `id` lie far enough apart for the loop: two neighbours both touch it only
      when `id` sends on the first and receives on the second, and then the next one does not. */
  predicate Spaced(q: seq<UserPipe>, id: int) {
    forall i :: 0 <= i < |q| - 1 ==> SpacedAt(q, id, i)
  }

  predicate SpacedAt(q: seq<UserPipe>, id: int, i: nat)
    requires i + 1 < |q|
  {
    Touches(q[i], id) && Touches(q[i + 1], id) ==>
      && q[i].sender == id && q[i + 1].receiver == id
      && (i + 2 < |q| ==> !Touches(q[i + 2], id))
  }

  lemma SpacedTail(q: seq<UserPipe>, id: int, n: nat)
    requires n <= |q|
    ensures Spaced(q[n..], id) <==> forall i :: n <= i < |q| - 1 ==> SpacedAt(q, id, i)
  {
    var t := q[n..];
    forall i: nat | i + 1 < |t|
      ensures SpacedAt(t, id, i) <==> SpacedAt(q, id, i + n)
    {
      assert t[i] == q[i + n] && t[i + 1] == q[i + n + 1];
      assert i + 2 < |t| ==> t[i + 2] == q[i + n + 2];
    }
    if Spaced(t, id) {
      forall i | n <= i < |q| - 1
        ensures SpacedAt(q, id, i)
      {
        assert SpacedAt(t, id, i - n);
      }
    }
  }

  /** Spacing, seen from one step of the loop. */
  lemma SpacedStep(q: seq<UserPipe>, id: int)
    requires q != []
    ensures var r := Remaining(q, id);
      Spaced(q, id) <==> r == [] || (!Touches(r[0], id) && Spaced(r[1..], id))
  {
    var r := Remaining(q, id);
    var n := |q| - |r|;
    if r != [] {
      assert r[1..] == q[n + 1..];
      SpacedTail(q, id, n + 1);
      if Spaced(q, id) && |q| > 1 {
        assert SpacedAt(q, id, 0);
      }
      assert !Touches(r[0], id) ==> forall i :: 0 <= i <= n && i + 1 < |q| ==> SpacedAt(q, id, i);
    }
  }

  /** The clearing loop does what it is for, namely leave no pipe of `id`, iff the pipes are spaced. */
  lemma {:induction false} SweepClearsIff(q: seq<UserPipe>, id: int)
    ensures Cleared(Sweep(q, id), id) <==> Spaced(q, id)
    decreases |q|
  {
    if q != [] {
      var r := Remaining(q, id);
      SpacedStep(q, id);
      if r != [] {
        SweepClearsIff(r[1..], id);
        assert Sweep(q, id)[0] == r[0] && Sweep(q, id)[1..] == Sweep(r[1..], id);
        assert Cleared(Sweep(q, id), id) ==> Touches(r[0], id) == false;
        assert forall p :: p in Sweep(r[1..], id) ==> p in Sweep(q, id);
      }
    }
  }

  lemma {:induction false} UntouchedIsCleared(q: seq<UserPipe>, id: int)
    ensures Cleared(Untouched(q, id), id)
    ensures Cleared(q, id) ==> Untouched(q, id) == q
  {
    if q != [] {
      UntouchedIsCleared(q[1..], id);
      assert Cleared(q, id) ==> q[0] in q && Cleared(q[1..], id);
    }
  }

  /** In that case, and only then, it leaves exactly the other pipes, in their order. */
  lemma SweepIsFilterIff(q: seq<UserPipe>, id: int)
    ensures Sweep(q, id) == Untouched(q, id) <==> Spaced(q, id)
  {
    SweepClearsIff(q, id);
    SweepKeepsOthers(q, id);
    UntouchedIsCleared(q, id);
    UntouchedIsCleared(Sweep(q, id), id);
  }

  /** The failing input from a session of three users: user 1 leaves after piping to 2 and to 3. */
  lemma SweepLeavesOne()
    ensures Sweep([UserPipe(1, 2), UserPipe(1, 3)], 1) == [UserPipe(1, 3)]
  {
    var q := [UserPipe(1, 2), UserPipe(1, 3)];
    assert Remaining(q, 1) == [UserPipe(1, 3)];
    assert Remaining(q, 1)[1..] == [];
  }
}
