/** What a request asks the server for (hw4/src/sock_server.cpp): CONNECT to an address, CONNECT to a host by
    name, or BIND. An address stands for a name when its text has "0.0.0." in it, anywhere. */
module RequestTarget {
  import opened Common
  import opened Decimal
  import opened SocksRequest
  import D = DomainName
  import F = Firewall

  datatype Target =
    | Address(host: string, port: string, octets: seq<nat>)
    | Name(name: seq<byte>, port: string)
    | Bind(octets: seq<nat>)
    | Neither

  predicate OccursAt(s: string, p: string, i: nat) {
    i + |p| <= |s| && s[i..i + |p|] == p
  }

  /** find(): somewhere in the text. */
  ghost predicate Occurs(s: string, p: string) {
    exists i: nat :: OccursAt(s, p, i)
  }

  const ZEROS := "0.0.0."

  function Octets(ip: bv32): seq<nat> {
    [First(ip) as nat, Second(ip) as nat, Third(ip) as nat, Fourth(ip) as nat]
  }

  /** `len` bytes came; the header is read from the buffer whatever came. */
  ghost function Asked(data: seq<byte>, len: nat): Target
    requires |data| >= 8 && len <= |data|
  {
    var p := Decoded(data);
    if p.cd == 1 then
      (if Occurs(HostText(p.ip), ZEROS) then Name(D.LastField(data[..len]), ToString(p.port as nat))
       else Address(HostText(p.ip), ToString(p.port as nat), Octets(p.ip)))
    else if p.cd == 2 then Bind(Octets(p.ip))
    else Neither
  }

  method Find(s: string, p: string) returns (found: bool)
    ensures found <==> Occurs(s, p)
  {
    var i := 0;
    while i + |p| <= |s|
      invariant forall j: nat :: j < i ==> !OccursAt(s, p, j)
    {
      if s[i..i + |p|] == p {
        assert OccursAt(s, p, i);
        return true;
      }
      i := i + 1;
    }
    return false;
  }

  /** The request callback up to the firewall; all the bytes that came are looked at for a name. */
  method Request(data: array<byte>, len: nat) returns (t: Target)
    requires data.Length >= 8 && len <= data.Length
    ensures t == Asked(data[..], len)
  {
    var req := PacketHandler(data);
    assert data[..][..len] == data[..len];
    hide Decoded, HostText, Occurs, First, Second, Third, Fourth;
    if req.cd == 1 {
      var host := HostText(req.ip);
      var port := ToString(req.port as nat);
      var found := Find(host, ZEROS);
      if found {
        var name := D.Scan(data, len);
        t := Name(name, port);
      } else {
        t := Address(host, port, Octets(req.ip));
      }
    } else if req.cd == 2 {
      t := Bind(Octets(req.ip));
    } else {
      t := Neither;
    }
  }

  // ----- Which addresses stand for names --------------------------------------------------------

  lemma LastCharacter(n: nat)
    ensures ToString(n) != [] && (ToString(n)[|ToString(n)| - 1] == '0' <==> n % 10 == 0)
    ensures ToString(n) == "0" <==> n == 0
  {
    if n >= 10 {
      assert |ToString(n)| >= 2;
    }
  }

  lemma NoDots(s: string)
    requires IsDigits(s)
    ensures forall i :: 0 <= i < |s| ==> s[i] != '.'
  {}

  function Dotted(a: string, b: string, c: string, d: string): string {
    a + "." + b + "." + c + "." + d
  }

  ghost predicate IsOctetText(s: string) {
    s != [] && forall i :: 0 <= i < |s| ==> s[i] != '.'
  }

  lemma DotsAt(a: string, b: string, c: string, d: string, k: nat)
    requires IsOctetText(a) && IsOctetText(b) && IsOctetText(c) && IsOctetText(d) && k < |Dotted(a, b, c, d)|
    ensures Dotted(a, b, c, d)[k] == '.' <==> k == |a| || k == |a| + 1 + |b| || k == |a| + 1 + |b| + 1 + |c|
  {}

  /** Three zeros with dots behind them can only be the end of the first octet, the second and the third. */
  lemma ZerosIff(a: string, b: string, c: string, d: string)
    requires IsOctetText(a) && IsOctetText(b) && IsOctetText(c) && IsOctetText(d)
    ensures Occurs(Dotted(a, b, c, d), ZEROS) <==> a[|a| - 1] == '0' && b == "0" && c == "0"
  {
    var t := Dotted(a, b, c, d);
    if i: nat :| OccursAt(t, ZEROS, i) {
      SixAt(t, i);
      DotsAt(a, b, c, d, i + 1);
      DotsAt(a, b, c, d, i + 3);
      DotsAt(a, b, c, d, i + 5);
      assert |a| == i + 1 && |b| == 1 && |c| == 1;
      assert t[i] == a[|a| - 1] && t[i + 2] == b[0] && t[i + 4] == c[0];
    } else if a[|a| - 1] == '0' && b == "0" && c == "0" {
      var i := |a| - 1;
      assert t[i..i + 6] == ZEROS;
      assert OccursAt(t, ZEROS, i);
    }
  }

  lemma SixAt(t: string, i: nat)
    requires OccursAt(t, ZEROS, i)
    ensures i + 5 < |t| && t[i] == '0' && t[i + 1] == '.' && t[i + 2] == '0' && t[i + 3] == '.' && t[i + 4] == '0' && t[i + 5] == '.'
  {
    assert forall j :: 0 <= j < 6 ==> t[i + j] == t[i..i + 6][j] == ZEROS[j];
  }

  lemma OctetTexts(b: byte)
    ensures var t := ToString(b as nat);
      IsOctetText(t) && (t[|t| - 1] == '0' <==> b as nat % 10 == 0) && (t == "0" <==> b == 0)
  {
    ValueOfText(b as nat);
    NoDots(ToString(b as nat));
    LastCharacter(b as nat);
    hide ToString;
  }

  /** The text of four octets. */
  function TextOf(a: byte, b: byte, c: byte, d: byte): string {
    Dotted(ToString(a as nat), ToString(b as nat), ToString(c as nat), ToString(d as nat))
  }

  /** The text of an address has the zeros in it iff its second and third octets are 0 and its first is a multiple
      of ten. */
  lemma StandsForNameIff(a: byte, b: byte, c: byte, d: byte)
    ensures HostText(Word(a, b, c, d)) == TextOf(a, b, c, d)
    ensures Occurs(TextOf(a, b, c, d), ZEROS) <==> a as nat % 10 == 0 && b == 0 && c == 0
  {
    WireBytes(a, b, c, d, 0);
    assert TextOf(a, b, c, d) == Dotted(ToString(a as nat), ToString(b as nat), ToString(c as nat), ToString(d as nat));
    assert Dotted(ToString(a as nat), ToString(b as nat), ToString(c as nat), ToString(d as nat))
      == ToString(a as nat) + "." + ToString(b as nat) + "." + ToString(c as nat) + "." + ToString(d as nat);
    hide *;
    OctetTexts(a);
    OctetTexts(b);
    OctetTexts(c);
    OctetTexts(d);
    ZerosIff(ToString(a as nat), ToString(b as nat), ToString(c as nat), ToString(d as nat));
  }

  lemma WordOctets(a: byte, b: byte, c: byte, d: byte)
    ensures Octets(Word(a, b, c, d)) == [a as nat, b as nat, c as nat, d as nat]
  {
    OctetsOfWord(a, b, c, d);
  }

  lemma AskedBy(data: seq<byte>, len: nat, ip: bv32, stands: bool, host: string, port: string, octets: seq<nat>)
    requires |data| >= 8 && len <= |data|
    requires ip == Word(data[4], data[5], data[6], data[7]) && port == ToString(Pair(data[2], data[3]) as nat)
    requires HostText(ip) == host && octets == Octets(ip) && (stands <==> Occurs(host, ZEROS))
    ensures Asked(data, len) ==
        if data[1] == 1 then (if stands then Name(D.LastField(data[..len]), port) else Address(host, port, octets))
        else if data[1] == 2 then Bind(octets)
        else Neither
  {
    hide Word, Pair, HostText, Occurs, Octets, ToString;
  }

  lemma PortText(a: byte, b: byte)
    ensures ToString(Pair(a, b) as nat) == ToString(256 * (a as nat) + b as nat)
  {
    hide *;
    PairIsNumber(a, b);
    SameText(Pair(a, b) as nat, 256 * (a as nat) + b as nat);
  }

  lemma SameText(m: nat, n: nat)
    requires m == n
    ensures ToString(m) == ToString(n)
  {}

  /** What any request asks for, by its bytes: its command is the second, its port the next two, the high one first,
      and its address the next four.  CONNECT is by name iff the address is a multiple of ten and two zeros. */
  lemma TargetIs(data: seq<byte>, len: nat)
    requires |data| >= 8 && len <= |data|
    ensures var port := ToString(256 * (data[2] as nat) + data[3] as nat);
      var octets := [data[4] as nat, data[5] as nat, data[6] as nat, data[7] as nat];
      Asked(data, len) ==
        if data[1] == 1 then
          (if data[4] as nat % 10 == 0 && data[5] == 0 && data[6] == 0 then Name(D.LastField(data[..len]), port)
           else Address(TextOf(data[4], data[5], data[6], data[7]), port, octets))
        else if data[1] == 2 then Bind(octets)
        else Neither
  {
    hide *;
    var a, b, c, d := data[4], data[5], data[6], data[7];
    PortText(data[2], data[3]);
    StandsForNameIff(a, b, c, d);
    WordOctets(a, b, c, d);
    AskedBy(data, len, Word(a, b, c, d), a as nat % 10 == 0 && b == 0 && c == 0, TextOf(a, b, c, d),
      ToString(256 * (data[2] as nat) + data[3] as nat), [a as nat, b as nat, c as nat, d as nat]);
  }

  /** SOCKS 4A writes a name as an address of three zeros and one octet that is not.  For the address a.b.c.d of a
      CONNECT the test does not tell that it is one iff the first octet is ten or a greater multiple of ten and the
      next two are 0. */
  lemma NameTestIff(data: seq<byte>, len: nat)
    requires |data| >= 8 && len <= |data| && data[1] == 1
    ensures (Asked(data, len).Name? <==> data[4] == 0 && data[5] == 0 && data[6] == 0)
            <==> !(data[4] >= 10 && data[4] as nat % 10 == 0 && data[5] == 0 && data[6] == 0)
  {
    hide *;
    TargetIs(data, len);
    TensOf(data[4]);
  }

  lemma TensOf(a: byte)
    ensures a as nat % 10 == 0 <==> a == 0 || (a >= 10 && a as nat % 10 == 0)
  {}

  /** The failing inputs: a CONNECT to such an address is resolved as a host whose name is the last octet and the
      user's id. */
  lemma AddressTakenForName(vn: byte, high: byte, low: byte, a: byte, d: byte, user: seq<byte>)
    requires a as nat % 10 == 0 && d != 0 && D.NulFree(user)
    ensures var data := [vn, 1, high, low, a, 0, 0, d] + user + [0];
      Asked(data, |data|) == Name([d] + user, ToString(256 * (high as nat) + low as nat))
  {
    var data := [vn, 1, high, low, a, 0, 0, d] + user + [0];
    hide *;
    TargetIs(data, |data|);
    RequestEnds(vn, high, low, a, d, user);
  }

  lemma RequestEnds(vn: byte, high: byte, low: byte, a: byte, d: byte, user: seq<byte>)
    requires d != 0 && D.NulFree(user)
    ensures var data := [vn, 1, high, low, a, 0, 0, d] + user + [0];
      D.LastField(data[..|data|]) == [d] + user
  {
    var data := [vn, 1, high, low, a, 0, 0, d] + user + [0];
    var front := [vn, 1, high, low, a, 0, 0];
    assert data[..|data|] == data == front + ([d] + user) + [0] + [];
    hide D.LastField;
    D.LastFieldIs(front, [d] + user, []);
  }

  // ----- The check of a resolved name -----------------------------------------------------------

  /** The octets that the firewall is given once a name was resolved: the second one three times. */
  function Checked(a: seq<nat>): seq<nat>
    requires |a| == 4
  {
    [a[0], a[1], a[1], a[1]]
  }

  ghost predicate SameAnswer(lines: seq<string>, a: seq<nat>, b: seq<nat>) {
    F.Passes(lines, 1, a) <==> F.Passes(lines, 1, b)
  }

  /** Every list of rules gives the answer for the address that was resolved iff its last two octets are the second. */
  lemma ResolvedCheckIff(a: seq<nat>)
    requires |a| == 4
    ensures (forall lines :: SameAnswer(lines, Checked(a), a)) <==> a[2] == a[1] && a[3] == a[1]
  {
    if a[2] == a[1] && a[3] == a[1] {
      assert Checked(a) == a;
    } else {
      var r := F.Rule("permit", false, [F.Is(a[0]), F.Is(a[1]), F.Is(a[1]), F.Is(a[1])]);
      assert F.Proper(r);
      var line := F.Printed(r);
      F.PrintedMeans(r, 1, a);
      F.PrintedMeans(r, 1, Checked(a));
      F.OneLine(line, 1, a);
      F.OneLine(line, 1, Checked(a));
      assert r.parts[2] == F.Is(a[1]) && r.parts[3] == F.Is(a[1]);
      hide F.Passes, F.Printed, F.Matches, F.Applies;
      assert !SameAnswer([line], Checked(a), a);
    }
  }
}
