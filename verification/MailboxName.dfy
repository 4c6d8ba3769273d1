/** Modified UTF-7 mailbox names (src/imap/ImapTokenizer.ts; RFC 3501, section 5.1.3). */
module MailboxName {
  import opened Text
  import Base64

  /** A UTF-16 code unit, as a JavaScript string holds it: surrogates need not come in pairs. */
  type Unit = u: nat | u < 0x1_0000

  const AMP: Unit := 0x26
  const DASH: Unit := 0x2D

  predicate Printable(u: Unit) { 0x20 <= u <= 0x7E }

  /** ASCII text as code units. */
  function Units(s: string): (us: seq<Unit>)
    requires Bytes(s)
    ensures |us| == |s| && forall i :: 0 <= i < |s| ==> us[i] == s[i] as int
  {
    seq(|s|, i requires 0 <= i < |s| => s[i] as int)
  }

  /** UTF-16, big-endian. */
  function Utf16(p: seq<Unit>): (b: string)
    ensures Bytes(b) && |b| == 2 * |p|
  {
    if p == [] then ""
    else [(p[0] / 256) as char, (p[0] % 256) as char] + Utf16(p[1..])
  }

  function FromUtf16(b: string): (p: seq<Unit>)
    requires Bytes(b) && |b| % 2 == 0
  {
    if b == "" then []
    else [b[0] as int * 256 + b[1] as int] + FromUtf16(b[2..])
  }

  function SlashToComma(s: string): (t: string)
    ensures |t| == |s|
    ensures forall i :: 0 <= i < |s| ==> t[i] == if s[i] == '/' then ',' else s[i]
  {
    seq(|s|, i requires 0 <= i < |s| => if s[i] == '/' then ',' else s[i])
  }

  function CommaToSlash(s: string): (t: string)
    ensures |t| == |s|
    ensures forall i :: 0 <= i < |s| ==> t[i] == if s[i] == ',' then '/' else s[i]
  {
    seq(|s|, i requires 0 <= i < |s| => if s[i] == ',' then '/' else s[i])
  }

  predicate IsRunUnit(u: Unit) {
    0x41 <= u <= 0x5A || 0x61 <= u <= 0x7A || 0x30 <= u <= 0x39 || u == 0x2B || u == 0x2C
  }

  predicate IsRun(s: seq<Unit>) { forall i :: 0 <= i < |s| ==> IsRunUnit(s[i]) }

  function Chars(us: seq<Unit>): (s: string)
    requires IsRun(us)
    ensures |s| == |us| && forall i :: 0 <= i < |s| ==> s[i] as int == us[i]
  {
    seq(|us|, i requires 0 <= i < |us| => us[i] as char)
  }

  /** Base64 of the units, unpadded, with "," for "/". */
  function RunOf(p: seq<Unit>): (run: seq<Unit>)
    ensures IsRun(run) && (p != [] ==> run != [])
  {
    Units(SlashToComma(Base64.Digits(Utf16(p))))
  }

  function RunBytes(run: seq<Unit>): (b: string)
    requires IsRun(run)
    ensures Bytes(b)
  {
    Base64.Decode(CommaToSlash(Chars(run)))
  }

  lemma RunRoundTrip(p: seq<Unit>)
    ensures RunBytes(RunOf(p)) == Utf16(p)
  {
    hide Base64.Digits, Base64.Decode, Utf16;
    var digits := Base64.Digits(Utf16(p));
    assert CommaToSlash(Chars(Units(SlashToComma(digits)))) == digits;
    Base64.RoundTrip(Utf16(p));
  }

  // ---- Encoding ----------------------------------------------------------------------

  /** A run of units that are not printable ASCII. */
  function Flush(pending: seq<Unit>): seq<Unit> {
    if pending == [] then [] else [AMP] + RunOf(pending) + [DASH]
  }

  function Escaped(u: Unit): seq<Unit> {
    if u == AMP then [AMP, DASH] else [u]
  }

  function Encode(name: seq<Unit>, pending: seq<Unit>): seq<Unit>
    decreases |name|
  {
    if name == [] then Flush(pending)
    else if Printable(name[0]) then
      Flush(pending) + Escaped(name[0]) + Encode(name[1..], [])
    else Encode(name[1..], pending + [name[0]])
  }

  /** A high surrogate followed by a low one: one step of JavaScript's string iteration. */
  predicate PairAt(name: seq<Unit>, i: nat) {
    i + 1 < |name| && 0xD800 <= name[i] < 0xDC00 && 0xDC00 <= name[i + 1] < 0xE000
  }

  method EncodeMailboxName(name: seq<Unit>) returns (out: seq<Unit>)
    ensures out == Encode(name, [])
  {
    hide Flush;
    out := [];
    var pending: seq<Unit> := [];
    var i := 0;
    while i < |name|
      invariant i <= |name|
      invariant Encode(name, []) == out + Encode(name[i..], pending)
    {
      assert name[i..][1..] == name[i + 1..];
      if PairAt(name, i) {
        assert name[i + 1..][1..] == name[i + 2..];
        assert pending + [name[i]] + [name[i + 1]] == pending + name[i..i + 2];
        pending := pending + name[i..i + 2];
        i := i + 2;
      } else if Printable(name[i]) {
        var ch := if name[i] == AMP then [AMP, DASH] else [name[i]];
        assert ch == Escaped(name[i]);
        assert out + (Flush(pending) + ch + Encode(name[i + 1..], []))
            == out + Flush(pending) + ch + Encode(name[i + 1..], []);
        out := out + Flush(pending) + ch;
        pending := [];
        i := i + 1;
      } else {
        pending := pending + [name[i]];
        i := i + 1;
      }
    }
    out := out + Flush(pending);
  }

  // ---- Decoding ----------------------------------------------------------------------

  function RunLength(s: seq<Unit>): (n: nat)
    ensures n <= |s| && forall i :: 0 <= i < n ==> IsRunUnit(s[i])
    ensures n < |s| ==> !IsRunUnit(s[n])
  {
    if s != [] && IsRunUnit(s[0]) then 1 + RunLength(s[1..]) else 0
  }

  /** The replacement for `&run-`; an odd number of bytes leaves it as it is. */
  function DecodeRun(run: seq<Unit>): seq<Unit>
    requires IsRun(run)
  {
    if run == [] then [AMP]
    else
      var buf := RunBytes(run);
      if |buf| % 2 != 0 then [AMP] + run + [DASH] else FromUtf16(buf)
  }

  function Decode(s: seq<Unit>): seq<Unit>
    decreases |s|
  {
    if s == [] then []
    else
      var n := RunLength(s[1..]);
      if s[0] == AMP && 1 + n < |s| && s[1 + n] == DASH then
        assert s[1..1 + n] == s[1..][..n];
        DecodeRun(s[1..1 + n]) + Decode(s[2 + n..])
      else [s[0]] + Decode(s[1..])
  }

  method DecodeMatch(run: seq<Unit>) returns (s: seq<Unit>)
    requires IsRun(run)
    ensures s == DecodeRun(run)
  {
    hide RunBytes;
    if run == [] { return [AMP]; }
    var buf := RunBytes(run);
    if |buf| % 2 != 0 { return [AMP] + run + [DASH]; }
    s := [];
    var i := 0;
    while i < |buf|
      invariant i <= |buf| && i % 2 == 0
      invariant FromUtf16(buf) == s + FromUtf16(buf[i..])
    {
      assert buf[i..][2..] == buf[i + 2..];
      s := s + [buf[i] as int * 256 + buf[i + 1] as int];
      i := i + 2;
    }
  }

  // ---- Round trip --------------------------------------------------------------------

  lemma {:induction false} Utf16RoundTrip(p: seq<Unit>)
    ensures FromUtf16(Utf16(p)) == p
  {
    if p != [] {
      var b := Utf16(p);
      assert b[2..] == Utf16(p[1..]);
      Utf16RoundTrip(p[1..]);
      assert b[0] as int * 256 + b[1] as int == p[0];
    }
  }

  lemma {:induction false} RunLengthIs(x: seq<Unit>, rest: seq<Unit>)
    requires IsRun(x)
    ensures RunLength(x + [DASH] + rest) == |x|
  {
    var s := x + [DASH] + rest;
    if x != [] {
      assert s[1..] == x[1..] + [DASH] + rest;
      RunLengthIs(x[1..], rest);
    }
  }

  lemma DecodeRunRoundTrip(p: seq<Unit>)
    requires p != []
    ensures DecodeRun(RunOf(p)) == p
  {
    hide RunOf, RunBytes;
    RunRoundTrip(p);
    Utf16RoundTrip(p);
  }

  lemma DecodeFlush(p: seq<Unit>, rest: seq<Unit>)
    ensures Decode(Flush(p) + rest) == p + Decode(rest)
  {
    hide RunOf, DecodeRun;
    if p == [] {
      assert [] + rest == rest;
    } else {
      var run := RunOf(p);
      DecodeRunRoundTrip(p);
      var s := Flush(p) + rest;
      assert s[1..] == run + [DASH] + rest;
      RunLengthIs(run, rest);
      assert s[1..1 + |run|] == run && s[2 + |run|..] == rest;
    }
  }

  lemma DecodePrintable(u: Unit, rest: seq<Unit>)
    requires Printable(u)
    ensures Decode(Escaped(u) + rest) == [u] + Decode(rest)
  {
    if u == AMP {
      var s := [AMP, DASH] + rest;
      RunLengthIs([], rest);
      assert s[1..] == [] + [DASH] + rest;
      assert s[1..1] == [] && s[2..] == rest;
    } else {
      assert ([u] + rest)[1..] == rest;
    }
  }

  lemma {:induction false} DecodeEncode(name: seq<Unit>, pending: seq<Unit>)
    ensures Decode(Encode(name, pending)) == pending + name
    decreases |name|
  {
    hide Decode, Flush;
    if name == [] {
      DecodeFlush(pending, []);
      assert Flush(pending) + [] == Flush(pending);
      DecodeNothing();
    } else if Printable(name[0]) {
      var ch := Escaped(name[0]);
      var rest := Encode(name[1..], []);
      assert Flush(pending) + ch + rest == Flush(pending) + (ch + rest);
      DecodeFlush(pending, ch + rest);
      DecodePrintable(name[0], rest);
      DecodeEncode(name[1..], []);
    } else {
      DecodeEncode(name[1..], pending + [name[0]]);
    }
  }

  lemma DecodeNothing()
    ensures Decode([]) == []
  {
  }

  /** Every mailbox name survives: any sequence of code units, lone surrogates included. */
  lemma RoundTrip(name: seq<Unit>)
    ensures Decode(Encode(name, [])) == name
  {
    DecodeEncode(name, []);
  }

  /** The encoded name is printable ASCII. */
  lemma {:induction false} EncodedIsAscii(name: seq<Unit>, pending: seq<Unit>)
    ensures forall u :: u in Encode(name, pending) ==> Printable(u)
    decreases |name|
  {
    hide RunOf;
    assert forall u :: u in Flush(pending) ==> Printable(u);
    if name != [] {
      EncodedIsAscii(name[1..], if Printable(name[0]) then [] else pending + [name[0]]);
    }
  }

  // ---- What is shifted ---------------------------------------------------------------

  predicate Unshifted(x: seq<Unit>) { forall i :: 0 <= i < |x| ==> 0x20 <= x[i] <= 0x7E && x[i] != 0x26 }

  predicate Shifted(x: seq<Unit>) { x != [] && forall i :: 0 <= i < |x| ==> x[i] < 0x20 || x[i] > 0x7E }

  /** Printable ASCII stands for itself. */
  lemma {:induction false} PlainKept(x: seq<Unit>, rest: seq<Unit>)
    requires Unshifted(x)
    ensures Encode(x + rest, []) == x + Encode(rest, [])
  {
    if x == [] {
      NothingBefore(rest);
      NothingBefore(Encode(rest, []));
    } else {
      assert (x + rest)[1..] == x[1..] + rest;
      PlainKept(x[1..], rest);
      assert [] + [x[0]] + (x[1..] + Encode(rest, [])) == x + Encode(rest, []);
    }
  }

  /** An ampersand is written `&-`. */
  lemma AmpersandKept(rest: seq<Unit>)
    ensures Encode([0x26] + rest, []) == [0x26, 0x2D] + Encode(rest, [])
  {
    assert ([0x26] + rest)[1..] == rest;
    assert [] + [0x26, 0x2D] + Encode(rest, []) == [0x26, 0x2D] + Encode(rest, []);
  }

  lemma {:induction false} RunCollected(x: seq<Unit>, rest: seq<Unit>, pending: seq<Unit>)
    requires forall i :: 0 <= i < |x| ==> x[i] < 0x20 || x[i] > 0x7E
    ensures Encode(x + rest, pending) == Encode(rest, pending + x)
    decreases |x|
  {
    if x == [] {
      NothingBefore(rest);
      NothingBefore(pending);
    } else {
      assert (x + rest)[1..] == x[1..] + rest;
      RunCollected(x[1..], rest, pending + [x[0]]);
      assert pending + [x[0]] + x[1..] == pending + x;
    }
  }

  /** Any other units up to the next printable one are one shifted run. */
  lemma RunShifted(x: seq<Unit>, rest: seq<Unit>)
    requires Shifted(x) && (rest == [] || 0x20 <= rest[0] <= 0x7E)
    ensures Encode(x + rest, []) == [0x26] + RunOf(x) + [0x2D] + Encode(rest, [])
  {
    hide RunOf;
    RunCollected(x, rest, []);
    NothingBefore(x);
    if rest == [] {
      NothingBefore([0x26] + RunOf(x) + [0x2D]);
    } else {
      var tail := Encode(rest[1..], []);
      assert Flush([]) + Escaped(rest[0]) + tail == Escaped(rest[0]) + tail;
      Assoc([0x26] + RunOf(x) + [0x2D], Escaped(rest[0]), tail);
    }
  }

  lemma TaipeiBytes()
    ensures Utf16([0x53F0, 0x5317]) == [0x53 as char, 0xF0 as char] + [0x53 as char, 0x17 as char]
  {
    var p: seq<Unit> := [0x53F0, 0x5317];
    assert p[1..] == [0x5317] && [0x5317][1..] == [];
  }

  lemma TaipeiGroups()
    ensures Bytes([0x53 as char, 0xF0 as char, 0x53 as char]) && Base64.Group([0x53 as char, 0xF0 as char, 0x53 as char]) == "U/BT"
  {
    hide Base64.Value;
    assert Base64.Digit(20) == 'U' && Base64.Digit(63) == '/' && Base64.Digit(1) == 'B' && Base64.Digit(19) == 'T';
    hide Base64.Digit;
  }

  lemma TaipeiEnd()
    ensures Bytes([0x17 as char]) && Base64.Group([0x17 as char]) == "Fw"
  {
    hide Base64.Value;
    assert Base64.Digit(5) == 'F' && Base64.Digit(48) == 'w';
    hide Base64.Digit;
  }

  /** The first example of RFC 3501, section 5.1.3. */
  lemma TaipeiRun()
    ensures RunOf([0x53F0, 0x5317]) == Units("U,BTFw")
  {
    hide Base64.Group, Utf16;
    TaipeiBytes();
    TaipeiGroups();
    TaipeiEnd();
    var b := Utf16([0x53F0, 0x5317]);
    assert b[..3] == [0x53 as char, 0xF0 as char, 0x53 as char] && b[3..] == [0x17 as char];
    assert Base64.Digits(b) == "U/BTFw";
    hide Base64.Digits;
    assert SlashToComma("U/BTFw") == "U,BTFw";
  }
}
