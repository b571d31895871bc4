/** The domain name of a SOCKS 4A request, found by scanning the request backwards
    (hw4/src/sock_server.cpp), against a forward reading of the request's layout. */
module DomainName {
  import opened Common

  ghost predicate NoNul(s: seq<byte>, from: int, to: int) {
    0 <= from <= to <= |s| && forall k :: from <= k < to ==> s[k] != 0
  }

  ghost predicate NulFree(s: seq<byte>) {
    NoNul(s, 0, |s|)
  }

  // ----- Backward: what the scan returns --------------------------------------------------------

  /** How many bytes come behind the last NUL. */
  function LastRun(s: seq<byte>): (n: nat)
    ensures n <= |s| && NoNul(s, |s| - n, |s|)
    ensures n < |s| ==> s[|s| - n - 1] == 0
  {
    if s == [] || s[|s| - 1] == 0 then 0 else 1 + LastRun(s[..|s| - 1])
  }

  /** The bytes between the last NUL and the one before it, or the beginning. */
  function LastField(s: seq<byte>): seq<byte> {
    var end := |s| - LastRun(s) - 1;
    if end < 0 then [] else s[end - LastRun(s[..end])..end]
  }

  /** socks4a_domain_name(): counter is the number of NULs met so far, from the end. */
  method Scan(data: array<byte>, len: nat) returns (re: seq<byte>)
    requires len <= data.Length
    ensures re == LastField(data[..len])
  {
    ghost var s := data[..len];
    ghost var end := len;
    var counter := 0;
    re := [];
    var i := len - 1;
    while i >= 0
      invariant -1 <= i < len
      invariant counter == 0 ==> re == [] && NoNul(s, i + 1, len)
      invariant counter == 1 ==> end < len && s[end] == 0 && NoNul(s, end + 1, len)
      invariant counter == 1 ==> NoNul(s, i + 1, end) && re == s[i + 1..end]
      invariant counter == 0 || counter == 1
    {
      assert data[i] == s[i];
      if data[i] == 0 {
        counter := counter + 1;
        if counter == 1 {
          end := i;
        }
      }
      if counter == 1 {
        re := Char(data[i]) + re;
      }
      if counter == 2 {
        break;
      }
      i := i - 1;
    }
    if counter == 0 {
      LastRunIs(s, len);
    } else {
      FieldIs(s, i + 1, end);
    }
  }

  lemma FieldIs(s: seq<byte>, from: nat, end: nat)
    requires end < |s| && s[end] == 0 && NoNul(s, end + 1, |s|)
    requires NoNul(s, from, end) && (from > 0 ==> s[from - 1] == 0)
    ensures LastField(s) == s[from..end]
  {
    LastRunIs(s, |s| - end - 1);
    LastRunIs(s[..end], end - from);
  }

  /** One byte as a C string: a NUL ends it at once. */
  function Char(b: byte): seq<byte> {
    if b == 0 then [] else [b]
  }

  // ----- Forward: what the layout says ----------------------------------------------------------

  function FirstRun(s: seq<byte>): (n: nat)
    ensures n <= |s| && NoNul(s, 0, n)
    ensures n < |s| ==> s[n] == 0
  {
    if s == [] || s[0] == 0 then 0 else 1 + FirstRun(s[1..])
  }

  /** Behind the eight header bytes: a user id up to a NUL, then the domain up to a NUL. */
  function Forward(s: seq<byte>): Option<seq<byte>> {
    if |s| < 8 then None
    else
      var user := FirstRun(s[8..]);
      if 8 + user == |s| then None
      else
        var rest := s[8 + user + 1..];
        var domain := FirstRun(rest);
        if domain == |rest| then None else Some(rest[..domain])
  }

  function Layout(header: seq<byte>, user: seq<byte>, domain: seq<byte>, rest: seq<byte>): seq<byte> {
    header + user + [0] + domain + [0] + rest
  }

  lemma LastRunIs(s: seq<byte>, n: nat)
    requires n <= |s| && NoNul(s, |s| - n, |s|) && (n < |s| ==> s[|s| - n - 1] == 0)
    ensures LastRun(s) == n
  {
    var m := LastRun(s);
  }

  lemma FirstRunIs(s: seq<byte>, n: nat)
    requires n <= |s| && NoNul(s, 0, n) && (n < |s| ==> s[n] == 0)
    ensures FirstRun(s) == n
  {
    var m := FirstRun(s);
  }

  /** Whatever comes before it, the field between the last two NULs is the one found. */
  lemma LastFieldIs(front: seq<byte>, field: seq<byte>, rest: seq<byte>)
    requires NulFree(field) && NulFree(rest) && (front != [] ==> front[|front| - 1] == 0)
    ensures LastField(front + field + [0] + rest) == field
  {
    var s := front + field + [0] + rest;
    PlaceOf(front, field, rest);
    assert front != [] ==> s[|front| - 1] == front[|front| - 1];
    hide *;
    FieldIs(s, |front|, |front| + |field|);
  }

  lemma PlaceOf(front: seq<byte>, field: seq<byte>, rest: seq<byte>)
    requires NulFree(field) && NulFree(rest)
    ensures var s, end := front + field + [0] + rest, |front| + |field|;
      && s[end] == 0 && NoNul(s, end + 1, |s|)
      && NoNul(s, |front|, end) && s[|front|..end] == field
  {
    var s, end := front + field + [0] + rest, |front| + |field|;
    assert forall k :: end < k < |s| ==> s[k] == rest[k - end - 1];
    assert forall k :: |front| <= k < end ==> s[k] == field[k - |front|];
  }

  lemma ForwardIs(header: seq<byte>, user: seq<byte>, domain: seq<byte>, rest: seq<byte>)
    requires |header| == 8 && NulFree(user) && NulFree(domain)
    ensures Forward(Layout(header, user, domain, rest)) == Some(domain)
  {
    var s := Layout(header, user, domain, rest);
    assert s[8..] == user + [0] + domain + [0] + rest;
    FirstRunIs(s[8..], |user|);
    var t := s[8 + |user| + 1..];
    assert t == domain + [0] + rest && t[..|domain|] == domain;
    FirstRunIs(t, |domain|);
  }

  /** The backward scan finds what a forward reading finds, whatever bytes the header holds. */
  lemma ScanFindsDomain(header: seq<byte>, user: seq<byte>, domain: seq<byte>, rest: seq<byte>)
    requires |header| == 8 && NulFree(user) && NulFree(domain) && NulFree(rest)
    ensures LastField(Layout(header, user, domain, rest)) == domain
    ensures Forward(Layout(header, user, domain, rest)) == Some(LastField(Layout(header, user, domain, rest)))
  {
    var front := header + user + [0];
    LastFieldIs(front, domain, rest);
    assert Layout(header, user, domain, rest) == front + domain + [0] + rest;
    ForwardIs(header, user, domain, rest);
  }

  /** Where the last field of a string with a NUL is. */
  lemma FieldPlace(s: seq<byte>) returns (from: nat, end: nat)
    requires !NulFree(s)
    ensures end < |s| && s[end] == 0 && NoNul(s, end + 1, |s|)
    ensures NoNul(s, from, end) && (from > 0 ==> s[from - 1] == 0)
    ensures LastField(s) == s[from..end]
  {
    assert LastRun(s) < |s|;
    end := |s| - LastRun(s) - 1;
    var front := s[..end];
    from := end - LastRun(front);
    assert NoNul(front, from, end);
    assert forall k :: 0 <= k < end ==> front[k] == s[k];
  }

  /** Behind a NUL the last field is that of what follows, if a NUL follows. */
  lemma LastFieldBehind(front: seq<byte>, rest: seq<byte>)
    requires front != [] && front[|front| - 1] == 0 && !NulFree(rest)
    ensures LastField(front + rest) == LastField(rest)
  {
    hide *;
    var from, end := FieldPlace(rest);
    var s := front + rest;
    NoNulBehind(front, rest, end + 1, |rest|);
    NoNulBehind(front, rest, from, end);
    assert s[|front| + end] == rest[end];
    assert from > 0 ==> s[|front| + from - 1] == rest[from - 1];
    assert from == 0 ==> s[|front| + from - 1] == front[|front| - 1];
    FieldIs(s, |front| + from, |front| + end);
    assert s[|front| + from..|front| + end] == rest[from..end];
  }

  lemma NoNulBehind(front: seq<byte>, rest: seq<byte>, from: nat, to: nat)
    requires NoNul(rest, from, to)
    ensures NoNul(front + rest, |front| + from, |front| + to)
  {
    assert forall k :: |front| + from <= k < |front| + to ==> (front + rest)[k] == rest[k - |front|];
  }

  /** Whatever follows the domain's NUL: the scan agrees with the forward reading iff no NUL follows, or
      the last field of what follows is the domain once more. */
  lemma LaterNulWins(header: seq<byte>, user: seq<byte>, domain: seq<byte>, rest: seq<byte>)
    requires |header| == 8 && NulFree(user) && NulFree(domain)
    ensures var s := Layout(header, user, domain, rest);
            Forward(s) == Some(LastField(s)) <==> NulFree(rest) || LastField(rest) == domain
  {
    ForwardIs(header, user, domain, rest);
    if NulFree(rest) {
      ScanFindsDomain(header, user, domain, rest);
    } else {
      LastFieldBehind(header + user + [0] + domain + [0], rest);
    }
  }

  /** The failing inputs: a second name behind the first one's NUL is returned instead. */
  lemma SecondNameWins(header: seq<byte>, user: seq<byte>, domain: seq<byte>, second: seq<byte>)
    requires |header| == 8 && NulFree(user) && NulFree(domain) && NulFree(second)
    ensures var s := Layout(header, user, domain, second + [0]);
            Forward(s) == Some(domain) && LastField(s) == second
  {
    var rest := second + [0];
    assert rest[|second|] == 0;
    ForwardIs(header, user, domain, rest);
    LastFieldBehind(header + user + [0] + domain + [0], rest);
    LastFieldIs([], second, []);
    assert [] + second + [0] + [] == rest;
  }

  /** With one NUL all that comes before it is found, with none nothing is. */
  lemma TooFewNuls(field: seq<byte>, rest: seq<byte>)
    requires NulFree(field) && NulFree(rest)
    ensures LastField(rest) == [] && LastField(field + [0] + rest) == field
  {
    LastRunIs(rest, |rest|);
    LastFieldIs([], field, rest);
    assert [] + field + [0] + rest == field + [0] + rest;
  }
}
