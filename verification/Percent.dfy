/** Percent-decoding of the request line (hw3/src/exe.cpp), as sscanf("%x") on at most two characters
    makes it, and the encoders it undoes (section 2.1 of RFC 3986). */
module Percent {
  import opened Common

  // ----- sscanf("%x") on a short string ---------------------------------------------------------

  predicate IsHex(c: char) {
    '0' <= c <= '9' || 'a' <= c <= 'f' || 'A' <= c <= 'F'
  }

  function Hex(c: char): (k: nat)
    requires IsHex(c)
    ensures k < 16
  {
    if c <= '9' then c as int - '0' as int
    else if c <= 'F' then c as int - 'A' as int + 10
    else c as int - 'a' as int + 10
  }

  predicate IsSpace(c: char) {
    c == ' ' || 9 <= c as int <= 13
  }

  function SkipSpace(w: string): string {
    if w != [] && IsSpace(w[0]) then SkipSpace(w[1..]) else w
  }

  function Unsigned(w: string, acc: nat): nat {
    if w != [] && IsHex(w[0]) then Unsigned(w[1..], 16 * acc + Hex(w[0])) else acc
  }

  /** The number read, if any: white space, a sign, digits. What a bare 0x gives is the C library's
      choice, hence a parameter. */
  function Scan(w: string, bare: Option<int>): Option<int> {
    var u := SkipSpace(w);
    var v := if u != [] && (u[0] == '-' || u[0] == '+') then u[1..] else u;
    if |v| == 2 && v[0] == '0' && (v[1] == 'x' || v[1] == 'X') then bare
    else if v == [] || !IsHex(v[0]) then None
    else
      var n: int := Unsigned(v, 0);
      Some(if u[0] == '-' then -n else n)
  }

  /** The conversion to char keeps the low byte. */
  function Low(ii: int): char {
    (ii % 256) as char
  }

  // ----- The decoder ----------------------------------------------------------------------------

  function Upto(s: string, k: nat): string {
    if k <= |s| then s[..k] else s
  }

  /** ii keeps its last value when nothing can be read. */
  function NextCode(s: string, ii: int, bare: Option<int>): int {
    match Scan(Upto(Drop(s, 1), 2), bare)
    case Some(n) => n
    case None => ii
  }

  function Decoded(s: string, ii: int, bare: Option<int>): string
    decreases |s|
  {
    if s == [] then []
    else if s[0] == '%' then [Low(NextCode(s, ii, bare))] + Decoded(Drop(s, 3), NextCode(s, ii, bare), bare)
    else [s[0]] + Decoded(s[1..], ii, bare)
  }

  /** The code that ii holds once the percent sign at index i was handled. */
  function CodeAt(src: string, i: nat, ii: int, bare: Option<int>): int {
    var read := Scan(Upto(Drop(src, i + 1), 2), bare);
    if read.Some? then read.value else ii
  }

  /** One round of the loop, at index i. */
  lemma DecodeAt(src: string, i: nat, ii: int, bare: Option<int>, ret: string)
    requires i < |src|
    ensures src[i] == '%'
      ==> ret + Decoded(Drop(src, i), ii, bare)
          == (ret + [Low(CodeAt(src, i, ii, bare))]) + Decoded(Drop(src, i + 3), CodeAt(src, i, ii, bare), bare)
    ensures src[i] != '%'
      ==> ret + Decoded(Drop(src, i), ii, bare) == (ret + [src[i]]) + Decoded(Drop(src, i + 1), ii, bare)
  {
    var rest, code := Drop(src, i), CodeAt(src, i, ii, bare);
    assert rest == src[i..] && rest[1..] == Drop(src, i + 1);
    assert Drop(rest, 1) == Drop(src, i + 1) && Drop(rest, 3) == Drop(src, i + 3);
    assert NextCode(rest, ii, bare) == code;
    if src[i] == '%' {
      assert Decoded(rest, ii, bare) == [Low(code)] + Decoded(Drop(src, i + 3), code, bare);
      hide *;
      Assoc(ret, [Low(code)], Decoded(Drop(src, i + 3), code, bare));
    } else {
      assert Decoded(rest, ii, bare) == [src[i]] + Decoded(Drop(src, i + 1), ii, bare);
      hide *;
      Assoc(ret, [src[i]], Decoded(Drop(src, i + 1), ii, bare));
    }
  }

  /** urlDecode(); start is what the uninitialised ii happens to hold. */
  method UrlDecode(src: string, start: int, bare: Option<int>) returns (ret: string)
    ensures ret == Decoded(src, start, bare)
  {
    ret := [];
    var ii := start;
    var i := 0;
    assert Drop(src, 0) == src;
    hide Decoded, Scan, Low, Drop, Upto;
    while i < |src|
      invariant 0 <= i
      invariant ret + Decoded(Drop(src, i), ii, bare) == Decoded(src, start, bare)
    {
      DecodeAt(src, i, ii, bare, ret);
      if src[i] == '%' {
        match Scan(Upto(Drop(src, i + 1), 2), bare) {
          case Some(n) => ii := n;
          case None =>
        }
        var ch := Low(ii);
        ret := ret + [ch];
        i := i + 2;
      } else {
        ret := ret + [src[i]];
      }
      i := i + 1;
    }
    EndOfText(src, i, ii, bare);
  }

  lemma EndOfText(src: string, i: nat, ii: int, bare: Option<int>)
    requires i >= |src|
    ensures Decoded(Drop(src, i), ii, bare) == []
  {}

  // ----- Well-formed text -----------------------------------------------------------------------

  predicate Escape(s: string) {
    |s| >= 3 && s[0] == '%' && IsHex(s[1]) && IsHex(s[2])
  }

  function Code(s: string): nat
    requires Escape(s)
  {
    16 * Hex(s[1]) + Hex(s[2])
  }

  /** Every percent sign starts an escape. */
  predicate WellFormed(s: string)
    decreases |s|
  {
    s == [] || (if s[0] == '%' then Escape(s) && WellFormed(s[3..]) else WellFormed(s[1..]))
  }

  /** Two hex digits are read as the number they are, whatever came before. */
  lemma EscapeCode(s: string, ii: int, bare: Option<int>)
    requires Escape(s)
    ensures NextCode(s, ii, bare) == Code(s)
  {
    var w := Upto(Drop(s, 1), 2);
    assert w == [s[1], s[2]];
    assert w[1..] == [s[2]] && w[1..][1..] == [];
    assert Unsigned(w, 0) == Unsigned([s[2]], Hex(s[1])) == Unsigned([], Code(s));
  }

  /** The code that ii holds behind a string. */
  function LastCode(s: string, ii: int, bare: Option<int>): int
    decreases |s|
  {
    if s == [] then ii
    else if s[0] == '%' then LastCode(Drop(s, 3), NextCode(s, ii, bare), bare)
    else LastCode(s[1..], ii, bare)
  }

  /** No escape is cut off by the end of the string, whatever its two characters are. */
  predicate Uncut(s: string)
    decreases |s|
  {
    s == [] || (if s[0] == '%' then |s| >= 3 && Uncut(s[3..]) else Uncut(s[1..]))
  }

  /** What sscanf() reads for the first percent sign, if there is one, does not depend on the past. */
  predicate Anchored(s: string, bare: Option<int>)
    decreases |s|
  {
    s == [] || (if s[0] == '%' then Scan(Upto(Drop(s, 1), 2), bare).Some? else Anchored(s[1..], bare))
  }

  lemma {:induction false} WellFormedIsUncut(s: string, bare: Option<int>)
    requires WellFormed(s)
    ensures Uncut(s) && Anchored(s, bare)
    decreases |s|
  {
    if s != [] {
      if s[0] == '%' {
        EscapeIsRead(s, bare);
        WellFormedIsUncut(s[3..], bare);
      } else {
        WellFormedIsUncut(s[1..], bare);
      }
    }
  }

  lemma EscapeIsRead(s: string, bare: Option<int>)
    requires Escape(s)
    ensures Scan(Upto(Drop(s, 1), 2), bare).Some?
  {
    EscapeCode(s, 0, bare);
    EscapeCode(s, -1, bare);
  }

  /** Both ways of decoding a string that is cut in two agree. */
  ghost predicate CutHolds(a: string, b: string, ii: int, bare: Option<int>) {
    Decoded(a + b, ii, bare) == Decoded(a, ii, bare) + Decoded(b, LastCode(a, ii, bare), bare)
  }

  /** Behind a string that cuts no escape decoding can be cut; only the carried code passes the cut. */
  lemma {:induction false} DecodeConcat(a: string, b: string, ii: int, bare: Option<int>)
    requires Uncut(a)
    ensures CutHolds(a, b, ii, bare)
    ensures WellFormed(a) ==> (WellFormed(a + b) <==> WellFormed(b))
    decreases |a|
  {
    if a == [] {
      assert a + b == b;
    } else if a[0] == '%' {
      DecodeConcat(a[3..], b, NextCode(a, ii, bare), bare);
      EscapeConcat(a, b, ii, bare);
      EscapeFormed(a, b);
    } else {
      assert (a + b)[1..] == a[1..] + b;
      DecodeConcat(a[1..], b, ii, bare);
    }
  }

  /** The same behind an escape at the front. */
  lemma EscapeConcat(a: string, b: string, ii: int, bare: Option<int>)
    requires |a| >= 3 && a[0] == '%' && CutHolds(a[3..], b, NextCode(a, ii, bare), bare)
    ensures CutHolds(a, b, ii, bare)
  {
    SameCode(a, b, ii, bare);
    DecodeFront(a, ii, bare);
    DecodeFront(a + b, ii, bare);
    assert Drop(a + b, 3) == a[3..] + b && Drop(a, 3) == a[3..];
    var code := NextCode(a, ii, bare);
    assert LastCode(a, ii, bare) == LastCode(a[3..], code, bare);
    hide Scan, NextCode, Decoded, LastCode, Drop;
    Assoc([Low(code)], Decoded(a[3..], code, bare), Decoded(b, LastCode(a, ii, bare), bare));
  }

  lemma DecodeFront(s: string, ii: int, bare: Option<int>)
    requires s != [] && s[0] == '%'
    ensures Decoded(s, ii, bare) == [Low(NextCode(s, ii, bare))] + Decoded(Drop(s, 3), NextCode(s, ii, bare), bare)
  {}

  lemma EscapeFormed(a: string, b: string)
    requires |a| >= 3 && a[0] == '%' && (WellFormed(a[3..]) ==> (WellFormed(a[3..] + b) <==> WellFormed(b)))
    ensures WellFormed(a) ==> (WellFormed(a + b) <==> WellFormed(b))
  {
    assert (a + b)[3..] == a[3..] + b;
    assert Escape(a) <==> Escape(a + b);
    hide IsHex;
  }

  lemma SameCode(a: string, b: string, ii: int, bare: Option<int>)
    requires |a| >= 3
    ensures NextCode(a + b, ii, bare) == NextCode(a, ii, bare)
  {
    assert Upto(Drop(a + b, 1), 2) == Upto(Drop(a, 1), 2);
  }

  /** A cut inside an escape shows: two plain characters behind it are decoded differently. */
  lemma {:induction false} CutShows(a: string, ii: int, bare: Option<int>)
    requires !Uncut(a)
    ensures |Decoded(a + "zz", ii, bare)| < |Decoded(a, ii, bare)| + 2
    decreases |a|
  {
    if a[0] == '%' {
      if |a| >= 3 {
        assert (a + "zz")[3..] == a[3..] + "zz";
        SameCode(a, "zz", ii, bare);
        CutShows(a[3..], NextCode(a, ii, bare), bare);
      } else {
        assert |Drop(a + "zz", 3)| == |a| - 1 && Drop(a, 3) == [];
        NoEscapes(Drop(a + "zz", 3), NextCode(a + "zz", ii, bare), bare);
      }
    } else {
      assert (a + "zz")[1..] == a[1..] + "zz";
      CutShows(a[1..], ii, bare);
    }
  }

  lemma {:induction false} NoEscapes(s: string, ii: int, bare: Option<int>)
    requires forall i :: 0 <= i < |s| ==> s[i] != '%'
    ensures Decoded(s, ii, bare) == s
  {
    if s != [] {
      NoEscapes(s[1..], ii, bare);
    }
  }

  /** Decoding can be cut behind a string, whatever follows, iff the string cuts no escape. */
  lemma CutIff(a: string, ii: int, bare: Option<int>)
    ensures (forall b :: CutHolds(a, b, ii, bare)) <==> Uncut(a)
  {
    if Uncut(a) {
      forall b
        ensures CutHolds(a, b, ii, bare)
      {
        DecodeConcat(a, b, ii, bare);
      }
    } else {
      CutShows(a, ii, bare);
      var jj := LastCode(a, ii, bare);
      NoEscapes("zz", jj, bare);
      assert !CutHolds(a, "zz", ii, bare);
    }
  }

  /** The result does not depend on what the uninitialised variable holds. */
  ghost predicate Determined(s: string, bare: Option<int>) {
    forall ii, jj :: Decoded(s, ii, bare) == Decoded(s, jj, bare)
  }

  lemma {:induction false} AnchoredIsDetermined(s: string, ii: int, jj: int, bare: Option<int>)
    requires Anchored(s, bare)
    ensures Decoded(s, ii, bare) == Decoded(s, jj, bare)
    decreases |s|
  {
    if s != [] && s[0] != '%' {
      AnchoredIsDetermined(s[1..], ii, jj, bare);
    }
  }

  lemma {:induction false} LooseShows(s: string, bare: Option<int>)
    requires !Anchored(s, bare)
    ensures Decoded(s, 0, bare) != Decoded(s, 1, bare)
    decreases |s|
  {
    if s[0] == '%' {
      assert Low(0) != Low(1);
      assert Decoded(s, 0, bare)[0] == Low(0) && Decoded(s, 1, bare)[0] == Low(1);
    } else {
      LooseShows(s[1..], bare);
      assert Decoded(s, 0, bare)[1..] == Decoded(s[1..], 0, bare);
      assert Decoded(s, 1, bare)[1..] == Decoded(s[1..], 1, bare);
    }
  }

  /** The result is determined by the text iff a number is read for its first percent sign. */
  lemma DeterminedIff(s: string, bare: Option<int>)
    ensures Determined(s, bare) <==> Anchored(s, bare)
  {
    if Anchored(s, bare) {
      forall ii, jj
        ensures Decoded(s, ii, bare) == Decoded(s, jj, bare)
      {
        AnchoredIsDetermined(s, ii, jj, bare);
      }
    } else {
      LooseShows(s, bare);
    }
  }

  /** Well-formed text means the same whatever ii holds and whatever a bare 0x gives. */
  lemma {:induction false} DecodeIsClosed(s: string, ii: int, bare: Option<int>, jj: int, bare': Option<int>)
    requires WellFormed(s)
    ensures Decoded(s, ii, bare) == Decoded(s, jj, bare')
    decreases |s|
  {
    if s != [] {
      if s[0] == '%' {
        EscapeCode(s, ii, bare);
        EscapeCode(s, jj, bare');
        DecodeIsClosed(s[3..], Code(s), bare, Code(s), bare');
      } else {
        DecodeIsClosed(s[1..], ii, bare, jj, bare');
      }
    }
  }

  /** So decoding distributes when the first part cuts no escape and the second one is determined; two
      well-formed parts are. */
  lemma DecodeDistributes(a: string, b: string, ii: int, bare: Option<int>)
    ensures Uncut(a) && Anchored(b, bare)
            ==> Decoded(a + b, ii, bare) == Decoded(a, ii, bare) + Decoded(b, ii, bare)
    ensures WellFormed(a) && WellFormed(b) ==> WellFormed(a + b) && Uncut(a) && Anchored(b, bare)
  {
    hide Decoded, WellFormed, Uncut, Anchored, LastCode;
    if WellFormed(a) {
      WellFormedIsUncut(a, bare);
    }
    if WellFormed(b) {
      WellFormedIsUncut(b, bare);
    }
    if Uncut(a) {
      DecodeConcat(a, b, ii, bare);
    }
    if Anchored(b, bare) {
      AnchoredIsDetermined(b, LastCode(a, ii, bare), ii, bare);
    }
  }

  /** The failing input: the second escape repeats the code of the first. */
  lemma FailedEscapeRepeats(bare: Option<int>)
    ensures Decoded("%41%zz", 0, bare) == "AA"
    ensures Decoded("%41", 0, bare) == "A" && Decoded("%zz", 0, bare) == [Low(0)]
  {
    assert Escape("%41") && Escape("%41%zz");
    EscapeCode("%41%zz", 0, bare);
    EscapeCode("%41", 0, bare);
    var z := "%zz";
    assert Drop("%41%zz", 3) == z;
    assert Upto(Drop(z, 1), 2) == "zz";
    assert Scan("zz", bare) == None;
    assert Drop(z, 3) == [];
    assert Decoded(z, 0x41, bare) == [Low(0x41)] + Decoded([], 0x41, bare);
  }

  // ----- Encoders -------------------------------------------------------------------------------

  /** How one byte is written: as it is, or escaped, each digit in either case. */
  datatype Form = Raw | Escaped(high: bool, low: bool)

  function Digit(k: nat, upper: bool): char
    requires k < 16
  {
    if k < 10 then '0' + k as char else if upper then 'A' + (k - 10) as char else 'a' + (k - 10) as char
  }

  /** Any choice of escapes, provided that it escapes the percent sign. */
  ghost predicate Chooses(s: string, forms: seq<Form>) {
    |forms| == |s| && forall i :: 0 <= i < |s| ==> if forms[i].Raw? then s[i] != '%' else s[i] as int < 256
  }

  function Written(c: char, f: Form): string
    requires f.Raw? || c as int < 256
  {
    match f
    case Raw => [c]
    case Escaped(high, low) => ['%', Digit(c as int / 16, high), Digit(c as int % 16, low)]
  }

  ghost function Encoded(s: string, forms: seq<Form>): string
    requires Chooses(s, forms)
  {
    if s == [] then [] else Written(s[0], forms[0]) + Encoded(s[1..], forms[1..])
  }

  lemma DigitIsHex(k: nat, upper: bool)
    requires k < 16
    ensures IsHex(Digit(k, upper)) && Hex(Digit(k, upper)) == k
  {}

  lemma HexIsDigit(c: char)
    requires IsHex(c)
    ensures exists upper :: Digit(Hex(c), upper) == c
  {
    if c <= '9' {
      assert Digit(Hex(c), true) == c;
    } else if c <= 'F' {
      assert Digit(Hex(c), true) == c;
    } else {
      assert Digit(Hex(c), false) == c;
    }
  }

  lemma DecodeWritten(c: char, f: Form, ii: int, bare: Option<int>)
    requires if f.Raw? then c != '%' else c as int < 256
    ensures WellFormed(Written(c, f)) && Decoded(Written(c, f), ii, bare) == [c]
  {
    var w := Written(c, f);
    if f.Escaped? {
      DigitIsHex(c as int / 16, f.high);
      DigitIsHex(c as int % 16, f.low);
      DecodeEscape(w, ii, bare);
    } else {
      assert w[1..] == [];
    }
  }

  /** An escape alone is decoded to its code. */
  lemma DecodeEscape(w: string, ii: int, bare: Option<int>)
    requires |w| == 3 && Escape(w)
    ensures WellFormed(w) && Decoded(w, ii, bare) == [Low(Code(w))]
  {
    assert w[3..] == [] && Drop(w, 3) == [];
    EscapeCode(w, ii, bare);
    assert Decoded(w, ii, bare) == [Low(Code(w))] + Decoded([], Code(w), bare);
  }

  /** Only the low byte of the carried code matters. */
  lemma {:induction false} LowByteDecides(s: string, ii: int, jj: int, bare: Option<int>)
    requires Low(ii) == Low(jj)
    ensures Decoded(s, ii, bare) == Decoded(s, jj, bare)
    decreases |s|
  {
    if s != [] {
      if s[0] == '%' {
        LowByteDecides(Drop(s, 3), NextCode(s, ii, bare), NextCode(s, jj, bare), bare);
      } else {
        LowByteDecides(s[1..], ii, jj, bare);
      }
    }
  }

  /** A readable escape of a byte, and an escape for which nothing is read while ii holds that byte. */
  lemma SameEscape(e: string, c: char, f: Form, rest: string, ii: int, bare: Option<int>)
    requires |e| == 3 && e[0] == '%' && Scan(e[1..], bare).None? && f.Escaped? && c == Low(ii)
    ensures Decoded(e + rest, ii, bare) == Decoded(Written(c, f) + rest, ii, bare)
  {
    var w := Written(c, f);
    DigitIsHex(c as int / 16, f.high);
    DigitIsHex(c as int % 16, f.low);
    assert Code(w) == c as int && Low(Code(w)) == c;
    EscapeCode(w + rest, ii, bare);
    assert Upto(Drop(e + rest, 1), 2) == e[1..];
    assert Drop(e + rest, 3) == rest && Drop(w + rest, 3) == rest;
    LowByteDecides(rest, ii, Code(w), bare);
  }

  /** Behind any text that cuts no escape, an escape for which nothing is read stands for the escape read
      before it: whatever follows, the result is the same as with that byte properly escaped once more. */
  lemma UnreadRepeats(a: string, e: string, f: Form, rest: string, ii: int, bare: Option<int>)
    requires Uncut(a) && |e| == 3 && e[0] == '%' && Scan(e[1..], bare).None? && f.Escaped?
    ensures Decoded(a + (e + rest), ii, bare) == Decoded(a + (Written(Low(LastCode(a, ii, bare)), f) + rest), ii, bare)
  {
    var code := LastCode(a, ii, bare);
    SameEscape(e, Low(code), f, rest, code, bare);
    DecodeConcat(a, e + rest, ii, bare);
    DecodeConcat(a, Written(Low(code), f) + rest, ii, bare);
    hide Decoded, Uncut, LastCode, Scan, Written;
  }

  /** Decoding undoes every such encoder. */
  lemma {:induction false} DecodeEncoded(s: string, forms: seq<Form>, ii: int, bare: Option<int>)
    requires Chooses(s, forms)
    ensures WellFormed(Encoded(s, forms))
    ensures Decoded(Encoded(s, forms), ii, bare) == s
  {
    if s != [] {
      var w, rest := Written(s[0], forms[0]), Encoded(s[1..], forms[1..]);
      DecodeWritten(s[0], forms[0], ii, bare);
      DecodeEncoded(s[1..], forms[1..], ii, bare);
      hide Decoded, WellFormed, Written, Uncut, Anchored;
      DecodeDistributes(w, rest, ii, bare);
      assert s == [s[0]] + s[1..];
    }
  }

  lemma FormOf(t: string) returns (f: Form)
    requires Escape(t)
    ensures f.Escaped? && Written(Low(Code(t)), f) == t[..3]
  {
    HexIsDigit(t[1]);
    HexIsDigit(t[2]);
    var high :| Digit(Hex(t[1]), high) == t[1];
    var low :| Digit(Hex(t[2]), low) == t[2];
    f := Escaped(high, low);
    assert Code(t) % 256 == Code(t) && Code(t) / 16 == Hex(t[1]) && Code(t) % 16 == Hex(t[2]);
  }

  /** And well-formed text is nothing but such encodings, of what it decodes to. */
  lemma {:induction false} WellFormedIsEncoded(t: string, ii: int, bare: Option<int>) returns (forms: seq<Form>)
    requires WellFormed(t)
    ensures Chooses(Decoded(t, ii, bare), forms)
    ensures Encoded(Decoded(t, ii, bare), forms) == t
    decreases |t|
  {
    if t == [] {
      forms := [];
    } else if t[0] == '%' {
      EscapeCode(t, ii, bare);
      var f := FormOf(t);
      var fs := WellFormedIsEncoded(t[3..], Code(t), bare);
      forms := [f] + fs;
      assert t == Written(Low(Code(t)), f) + t[3..];
      OneMore(Low(Code(t)), Decoded(t[3..], Code(t), bare), f, fs);
    } else {
      var fs := WellFormedIsEncoded(t[1..], ii, bare);
      forms := [Raw] + fs;
      assert t == Written(t[0], Raw) + t[1..];
      OneMore(t[0], Decoded(t[1..], ii, bare), Raw, fs);
    }
  }

  lemma OneMore(c: char, s: string, f: Form, forms: seq<Form>)
    requires Chooses(s, forms) && if f.Raw? then c != '%' else c as int < 256
    ensures Chooses([c] + s, [f] + forms)
    ensures Encoded([c] + s, [f] + forms) == Written(c, f) + Encoded(s, forms)
  {
    assert ([c] + s)[1..] == s && ([f] + forms)[1..] == forms;
  }

  // ----- Digits and short escapes, spelled out --------------------------------------------------

  const LOWER := "0123456789abcdef"
  const UPPER := "0123456789ABCDEF"

  /** A digit's number is its place in these strings, and the encoders take it from there. */
  lemma DigitsAre(k: nat)
    requires k < 16
    ensures IsHex(LOWER[k]) && Hex(LOWER[k]) == k && Digit(k, false) == LOWER[k]
    ensures IsHex(UPPER[k]) && Hex(UPPER[k]) == k && Digit(k, true) == UPPER[k]
    ensures forall c :: IsHex(c) <==> c in LOWER || c in UPPER
  {
    forall c
      ensures IsHex(c) <==> c in LOWER || c in UPPER
    {
      if IsHex(c) {
        DigitIn(c);
      }
    }
  }

  lemma DigitIn(c: char)
    requires IsHex(c)
    ensures c in LOWER || c in UPPER
  {
    assert c == if 'A' <= c <= 'F' then UPPER[Hex(c)] else LOWER[Hex(c)];
  }

  /** The number that two characters are read as: two digits as they stand; one digit if the other is behind it and
      is none, or before it and is white space or a sign; else nothing.  A zero with an x behind it is up to the library. */
  lemma ScanPair(a: char, b: char, bare: Option<int>)
    ensures Scan([a, b], bare) ==
      if IsHex(a) then
        (if IsHex(b) then Some(16 * Hex(a) + Hex(b)) else if a == '0' && b in "xX" then bare else Some(Hex(a)))
      else if (a == '+' || IsSpace(a)) && IsHex(b) then Some(Hex(b))
      else if a == '-' && IsHex(b) then Some(-(Hex(b) as int))
      else None
  {
    var w := [a, b];
    assert w[1..] == [b] && [b][1..] == [];
    ScanOne(b, 0);
    if IsHex(a) {
      ScanOne(b, Hex(a));
    }
    assert Unsigned(w, 0) == if !IsHex(a) then 0 else if IsHex(b) then 16 * Hex(a) + Hex(b) else Hex(a);
  }

  lemma ScanOne(c: char, acc: nat)
    ensures Unsigned([c], acc) == if IsHex(c) then 16 * acc + Hex(c) else acc
    ensures SkipSpace([c]) == if IsSpace(c) then [] else [c]
  {
    assert [c][1..] == [];
  }

  /** At the end of the text an escape may have lost characters: one digit is read as it is, anything else repeats. */
  lemma ShortEscape(c: char, ii: int, bare: Option<int>)
    ensures Decoded("%", ii, bare) == [(ii % 256) as char]
    ensures Decoded(['%', c], ii, bare) == [if IsHex(c) then Hex(c) as char else (ii % 256) as char]
  {
    var s := ['%', c];
    assert Drop("%", 1) == [] && Drop("%", 3) == [] && Drop(s, 1) == [c] && Drop(s, 3) == [];
    assert Upto([c], 2) == [c] && [c][1..] == [];
    ScanOne(c, 0);
    assert Scan([], bare) == None && Scan([c], bare) == if IsHex(c) then Some(Hex(c)) else None;
  }
}
