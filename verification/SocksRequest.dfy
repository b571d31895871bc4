/** The SOCKS 4 request: the console's encoder (hw4/src/cgi.cpp) against the server's decoder
    (hw4/src/sock_server.cpp). Addresses and ports are machine words; their text is decimal. */
module SocksRequest {
  import opened Common
  import opened Decimal
  import opened Tokenizer

  /** packet_format: the port and the address are held in unsigned ints. */
  datatype Packet = Packet(vn: byte, cd: byte, port: bv32, ip: bv32)

  // ----- Server side: bytes to words ------------------------------------------------------------

  function Pair(a: byte, b: byte): bv32 {
    ((a as bv32) << 8) | (b as bv32)
  }

  function Word(a: byte, b: byte, c: byte, d: byte): bv32 {
    ((a as bv32) << 24) | ((b as bv32) << 16) | ((c as bv32) << 8) | (d as bv32)
  }

  function Decoded(data: seq<byte>): Packet
    requires |data| >= 8
  {
    Packet(data[0], data[1], Pair(data[2], data[3]), Word(data[4], data[5], data[6], data[7]))
  }

  method PacketHandler(data: array<byte>) returns (req: Packet)
    requires data.Length >= 8
    ensures req == Decoded(data[..])
  {
    var port := ((data[2] as bv32) << 8) | (data[3] as bv32);
    var ip := ((data[4] as bv32) << 24) | ((data[5] as bv32) << 16) | ((data[6] as bv32) << 8) | (data[7] as bv32);
    req := Packet(data[0], data[1], port, ip);
  }

  /** The octets as the server takes the address apart to print it and to filter it. */
  function First(ip: bv32): bv32 { ip >> 24 }
  function Second(ip: bv32): bv32 { (ip % 0x100_0000) >> 16 }
  function Third(ip: bv32): bv32 { (ip % 0x1_0000) >> 8 }
  function Fourth(ip: bv32): bv32 { ip % 0x100 }

  function OctetTexts(ip: bv32): seq<string> {
    [ToString(First(ip) as nat), ToString(Second(ip) as nat), ToString(Third(ip) as nat), ToString(Fourth(ip) as nat)]
  }

  /** The dotted host text the server builds for the resolver. */
  function HostText(ip: bv32): string {
    var o := OctetTexts(ip);
    o[0] + "." + o[1] + "." + o[2] + "." + o[3]
  }

  // ----- Client side: text to bytes -------------------------------------------------------------

  /** One step of string_to_ip(): int arithmetic cut down to an unsigned char. */
  function Shifted(re: int, c: char): int {
    (re * 10 + c as int - '0' as int) % 256
  }

  function Accumulated(a: string): (re: int)
    ensures 0 <= re < 256
  {
    if a == [] then 0 else Shifted(Accumulated(a[..|a| - 1]), a[|a| - 1])
  }

  method StringToIp(a: string) returns (re: byte)
    ensures re == Accumulated(a) as byte
  {
    var sum := 0;
    for i := 0 to |a|
      invariant sum == Accumulated(a[..i])
    {
      assert a[..i + 1][..i] == a[..i];
      sum := Shifted(sum, a[i]);
    }
    assert a[..|a|] == a;
    re := sum as byte;
  }

  function Octet(a: string): byte {
    Accumulated(a) as byte
  }

  function High(port: bv16): byte { (port >> 8) as byte }
  function Low(port: bv16): byte { (port % 256) as byte }

  function Request(parts: seq<string>, port: bv16): seq<byte>
    requires |parts| >= 4
  {
    [4, 1, High(port), Low(port), Octet(parts[0]), Octet(parts[1]), Octet(parts[2]), Octet(parts[3])]
  }

  /** The request as the np_session constructor fills it in, from an endpoint's address text and port. */
  method EncodeRequest(address: string, port: bv16) returns (req: array<byte>)
    requires |Tokens(address, '.')| >= 4
    ensures fresh(req) && req.Length == 8
    ensures req[..] == Request(Tokens(address, '.'), port)
  {
    hide Tokens, Accumulated, ToString, High, Low;
    req := new byte[8];
    var ar := Split(address, '.');
    var first := StringToIp(ar[0]);
    var second := StringToIp(ar[1]);
    var third := StringToIp(ar[2]);
    var fourth := StringToIp(ar[3]);
    req[0], req[1] := 4, 1;
    req[4], req[5], req[6], req[7] := first, second, third, fourth;
    req[2], req[3] := High(port), Low(port);
    SameEight(req[..], [4, 1, High(port), Low(port), first, second, third, fourth]);
  }

  lemma SameEight(s: seq<byte>, t: seq<byte>)
    requires |s| == 8 && |t| == 8
    requires s[0] == t[0] && s[1] == t[1] && s[2] == t[2] && s[3] == t[3]
    requires s[4] == t[4] && s[5] == t[5] && s[6] == t[6] && s[7] == t[7]
    ensures s == t
  {
    assert forall i :: 0 <= i < 8 ==> s[i] == t[i];
  }

  // ----- The accumulator is the number, as far as an octet goes ---------------------------------

  lemma ShiftedMod(v: nat, c: char)
    requires '0' <= c <= '9'
    ensures Shifted(v % 256, c) == (10 * v + (c as int - '0' as int)) % 256
  {
    var k := c as int - '0' as int;
    AddMultiple(v % 256 * 10 + k, 10 * (v / 256));
  }

  lemma AddMultiple(x: int, q: int)
    ensures (x + 256 * q) % 256 == x % 256
  {}

  lemma {:induction false} AccumulatedIsValue(a: string)
    requires IsDigits(a)
    ensures Accumulated(a) == Value(a) % 256
  {
    if a != [] {
      AccumulatedIsValue(a[..|a| - 1]);
      ShiftedMod(Value(a[..|a| - 1]), a[|a| - 1]);
    }
  }

  /** Every character counts, a digit or not. */
  lemma OneCharacterMore(a: string, c: char)
    ensures Accumulated([]) == 0 && Accumulated(a + [c]) == (10 * Accumulated(a) + c as int - 48) % 256
  {
    assert (a + [c])[..|a|] == a;
  }

  ghost predicate FitsAt(a: string, k: nat)
    requires IsDigits(a)
  {
    k <= |a| ==> IsDigits(a[..k]) && Accumulated(a[..k]) == Value(a[..k])
  }

  /** string_to_ip() is right, and its unsigned char right at every step, iff the number is an octet. */
  lemma OctetTextIff(a: string)
    requires IsDigits(a)
    ensures Accumulated(a) == Value(a) <==> Value(a) < 256
    ensures (forall k: nat :: FitsAt(a, k)) <==> Value(a) < 256
  {
    AccumulatedIsValue(a);
    assert a[..|a|] == a;
    if Value(a) < 256 {
      forall k: nat
        ensures FitsAt(a, k)
      {
        if k <= |a| {
          PrefixIsSmaller(a, k);
          AccumulatedIsValue(a[..k]);
        }
      }
    } else {
      assert !FitsAt(a, |a|);
    }
  }

  lemma OctetOfText(b: byte)
    ensures Octet(ToString(b as nat)) == b
  {
    assert Octet(ToString(b as nat)) == Accumulated(ToString(b as nat)) as byte;
    hide *;
    ValueOfText(b as nat);
    OctetTextIff(ToString(b as nat));
  }

  // ----- Round trip -----------------------------------------------------------------------------

  /** Four dot-free parts joined with dots. */
  lemma JoinedTokens(a: string, b: string, c: string, d: string)
    requires AreTokens([a, b, c, d], '.')
    ensures Tokens(a + "." + b + "." + c + "." + d, '.') == [a, b, c, d]
  {
    AreAlone(a, b, c, d);
    hide *;
    TokenAlone(d, '.');
    JoinOne(c, d, '.');
    JoinOne(b, c + "." + d, '.');
    JoinOne(a, b + "." + (c + "." + d), '.');
    Regroup(a + "." + b + ".", c, d);
    Regroup(a + ".", b, c + "." + d);
  }

  lemma Regroup(x: string, y: string, z: string)
    ensures x + y + "." + z == x + (y + "." + z)
  {}

  lemma AreAlone(a: string, b: string, c: string, d: string)
    requires AreTokens([a, b, c, d], '.')
    ensures a != [] && b != [] && c != [] && d != []
    ensures Free(a, '.') && Free(b, '.') && Free(c, '.') && Free(d, '.')
  {
    hide Free;
    assert [a, b, c, d][0] == a && [a, b, c, d][1] == b && [a, b, c, d][2] == c && [a, b, c, d][3] == d;
  }

  lemma HostTextSplits(ip: bv32)
    ensures Tokens(HostText(ip), '.') == OctetTexts(ip)
  {
    var o := OctetTexts(ip);
    ValueOfText(First(ip) as nat);
    ValueOfText(Second(ip) as nat);
    ValueOfText(Third(ip) as nat);
    ValueOfText(Fourth(ip) as nat);
    hide ToString, First, Second, Third, Fourth;
    JoinedTokens(o[0], o[1], o[2], o[3]);
  }

  lemma OctetsAreBytes(ip: bv32)
    ensures First(ip) < 256 && Second(ip) < 256 && Third(ip) < 256 && Fourth(ip) < 256
  {}

  lemma WordOfOctets(ip: bv32)
    requires First(ip) < 256 && Second(ip) < 256 && Third(ip) < 256 && Fourth(ip) < 256
    ensures Word(First(ip) as byte, Second(ip) as byte, Third(ip) as byte, Fourth(ip) as byte) == ip
  {}

  lemma PairOfHalves(port: bv16)
    ensures Pair(High(port), Low(port)) == port as bv32
  {}

  lemma OctetOfWord(w: bv32)
    requires w < 256
    ensures Octet(ToString(w as nat)) == w as byte
  {
    OctetOfText(w as byte);
  }

  /** Dotted text of any address, split, read back octet by octet, packed beside any port, unpacked by
      the server: the same address and port, hence the same text again. */
  lemma AddressRoundTrip(ip: bv32, port: bv16)
    ensures |Tokens(HostText(ip), '.')| == 4
    ensures Decoded(Request(Tokens(HostText(ip), '.'), port)) == Packet(4, 1, port as bv32, ip)
  {
    HostTextSplits(ip);
    OctetsAreBytes(ip);
    OctetOfWord(First(ip));
    OctetOfWord(Second(ip));
    OctetOfWord(Third(ip));
    OctetOfWord(Fourth(ip));
    WordOfOctets(ip);
    PairOfHalves(port);
    hide Tokens, ToString, HostText, First, Second, Third, Fourth, Word, Pair, Octet;
  }

  /** The bytes on the wire: version 4, command 1, the port's high byte first, the octets as printed. */
  lemma WireBytes(a: byte, b: byte, c: byte, d: byte, port: bv16)
    ensures var text := ToString(a as nat) + "." + ToString(b as nat) + "." + ToString(c as nat) + "." + ToString(d as nat);
            |Tokens(text, '.')| == 4
            && Request(Tokens(text, '.'), port) == [4, 1, High(port), Low(port), a, b, c, d]
            && HostText(Word(a, b, c, d)) == text
    ensures (High(port) as bv16) * 256 + (Low(port) as bv16) == port
  {
    OctetsOfWord(a, b, c, d);
    OctetOfText(a);
    OctetOfText(b);
    OctetOfText(c);
    OctetOfText(d);
    HostTextSplits(Word(a, b, c, d));
    hide Tokens, ToString, First, Second, Third, Fourth, Word, Octet;
  }

  lemma OctetsOfWord(a: byte, b: byte, c: byte, d: byte)
    ensures First(Word(a, b, c, d)) as nat == a as nat && Second(Word(a, b, c, d)) as nat == b as nat
    ensures Third(Word(a, b, c, d)) as nat == c as nat && Fourth(Word(a, b, c, d)) as nat == d as nat
  {
    hide *;
    PartsOfWord(a, b, c, d);
    Widened(a);
    Widened(b);
    Widened(c);
    Widened(d);
  }

  lemma PartsOfWord(a: byte, b: byte, c: byte, d: byte)
    ensures First(Word(a, b, c, d)) == a as bv32 && Second(Word(a, b, c, d)) == b as bv32
    ensures Third(Word(a, b, c, d)) == c as bv32 && Fourth(Word(a, b, c, d)) == d as bv32
  {}

  lemma Widened(a: byte)
    ensures (a as bv32) as nat == a as nat
  {}

  /** Different endpoints make different requests. */
  lemma RequestsAreDistinct(ip: bv32, port: bv16, ip': bv32, port': bv16)
    ensures |Tokens(HostText(ip), '.')| == 4 && |Tokens(HostText(ip'), '.')| == 4
    ensures Request(Tokens(HostText(ip), '.'), port) == Request(Tokens(HostText(ip'), '.'), port')
            <==> ip == ip' && port == port'
  {
    AddressRoundTrip(ip, port);
    AddressRoundTrip(ip', port');
    hide Tokens, HostText, Request, Decoded;
  }

  // ----- Any request ----------------------------------------------------------------------------

  /** The words of the decoder are the numbers that their bytes are the digits of, in base 256. */
  lemma PairIsNumber(a: byte, b: byte)
    ensures Pair(a, b) as nat == 256 * (a as nat) + b as nat
  {
    assert Pair(a, b) == ((a as bv32) << 8) | (b as bv32);
    hide *;
    Widened(a);
    OneByteMore(a as bv32, b);
  }

  lemma OneByteMore(x: bv32, b: byte)
    requires x < 0x100_0000
    ensures ((x << 8) | (b as bv32)) as nat == 256 * (x as nat) + b as nat
  {}

  lemma WordByBytes(a: byte, b: byte, c: byte, d: byte)
    ensures Word(a, b, c, d) == (((Pair(a, b) << 8) | (c as bv32)) << 8) | (d as bv32)
    ensures Pair(a, b) < 0x1_0000 && ((Pair(a, b) << 8) | (c as bv32)) < 0x100_0000
  {}

  lemma WordIsNumber(a: byte, b: byte, c: byte, d: byte)
    ensures Word(a, b, c, d) as nat == 256 * (256 * (256 * (a as nat) + b as nat) + c as nat) + d as nat
  {
    WordByBytes(a, b, c, d);
    hide *;
    PairIsNumber(a, b);
    OneByteMore(Pair(a, b), c);
    OneByteMore((Pair(a, b) << 8) | (c as bv32), d);
  }

  /** Every request of at least eight bytes: version and command are its first two bytes, the port is the next two as
      a number, and the address the next four. */
  lemma DecodedIs(data: seq<byte>)
    requires |data| >= 8
    ensures var p := Decoded(data);
      && p.vn == data[0] && p.cd == data[1]
      && p.port as nat == 256 * (data[2] as nat) + data[3] as nat
      && p.ip as nat == 256 * (256 * (256 * (data[4] as nat) + data[5] as nat) + data[6] as nat) + data[7] as nat
  {
    PairIsNumber(data[2], data[3]);
    WordIsNumber(data[4], data[5], data[6], data[7]);
    hide Pair, Word;
  }

  lemma PairsDiffer(a: byte, b: byte, a': byte, b': byte)
    ensures Pair(a, b) == Pair(a', b') <==> a == a' && b == b'
  {}

  lemma WordsDiffer(a: byte, b: byte, c: byte, d: byte, a': byte, b': byte, c': byte, d': byte)
    ensures Word(a, b, c, d) == Word(a', b', c', d') <==> a == a' && b == b' && c == c' && d == d'
  {}

  /** Two requests are decoded alike iff they agree in their first eight bytes. */
  lemma DecodedAlikeIff(s: seq<byte>, t: seq<byte>)
    requires |s| >= 8 && |t| >= 8
    ensures Decoded(s) == Decoded(t) <==> s[..8] == t[..8]
  {
    PairsDiffer(s[2], s[3], t[2], t[3]);
    WordsDiffer(s[4], s[5], s[6], s[7], t[4], t[5], t[6], t[7]);
    hide Pair, Word;
    if Decoded(s) == Decoded(t) {
      SameEight(s[..8], t[..8]);
    } else if s[..8] == t[..8] {
      SameBytes(s, t);
    }
  }

  lemma SameBytes(s: seq<byte>, t: seq<byte>)
    requires |s| >= 8 && |t| >= 8 && s[..8] == t[..8]
    ensures s[0] == t[0] && s[1] == t[1] && s[2] == t[2] && s[3] == t[3]
    ensures s[4] == t[4] && s[5] == t[5] && s[6] == t[6] && s[7] == t[7]
  {
    assert forall i :: 0 <= i < 8 ==> s[..8][i] == s[i] && t[..8][i] == t[i];
  }

  /** The round trip for every version and command: bytes laid out as the console lays them out are decoded to what
      they were made of. */
  lemma AnyRequestRoundTrip(vn: byte, cd: byte, ip: bv32, port: bv16)
    ensures |Tokens(HostText(ip), '.')| == 4
    ensures var r := Request(Tokens(HostText(ip), '.'), port);
      |r| == 8 && Decoded([vn, cd] + r[2..]) == Packet(vn, cd, port as bv32, ip)
  {
    AddressRoundTrip(ip, port);
    var r := Request(Tokens(HostText(ip), '.'), port);
    var t := [vn, cd] + r[2..];
    assert forall i :: 2 <= i < 8 ==> t[i] == r[i];
    hide Tokens, HostText, Request, Pair, Word;
  }

  /** The dotted text of an address has its four base 256 digits, the highest first, in decimal. */
  lemma HostTextIs(ip: bv32) returns (a: byte, b: byte, c: byte, d: byte)
    ensures ip as nat == 256 * (256 * (256 * (a as nat) + b as nat) + c as nat) + d as nat
    ensures HostText(ip) == ToString(a as nat) + "." + ToString(b as nat) + "." + ToString(c as nat) + "." + ToString(d as nat)
  {
    OctetsAreBytes(ip);
    a, b, c, d := First(ip) as byte, Second(ip) as byte, Third(ip) as byte, Fourth(ip) as byte;
    WordOfOctets(ip);
    hide *;
    WordIsNumber(a, b, c, d);
    WireBytes(a, b, c, d, 0);
  }
}
