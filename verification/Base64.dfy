/** Base64 as Node's Buffer writes and reads it (RFC 4648, section 4). */
module Base64 {
  import opened Text

  predicate IsDigit64(c: char) {
    'A' <= c <= 'Z' || 'a' <= c <= 'z' || '0' <= c <= '9' || c == '+' || c == '/'
  }

  predicate AllDigits64(s: string) { forall i :: 0 <= i < |s| ==> IsDigit64(s[i]) }

  function Digit(v: nat): (c: char)
    requires v < 64
    ensures IsDigit64(c) && Value(c) == v
  {
    if v < 26 then (v + 65) as char
    else if v < 52 then (v + 71) as char
    else if v < 62 then (v - 4) as char
    else if v == 62 then '+' else '/'
  }

  function Value(c: char): (v: nat)
    requires IsDigit64(c)
    ensures v < 64
  {
    if c <= '+' then 62
    else if c <= '/' then 63
    else if c <= '9' then c as int + 4
    else if c <= 'Z' then c as int - 65
    else c as int - 71
  }

  /** The digits of three, two or one bytes. */
  function Group(b: string): (s: string)
    requires Bytes(b) && 1 <= |b| <= 3
    ensures |s| == |b| + 1 && AllDigits64(s)
  {
    var x := b[0] as int;
    var y := if |b| > 1 then b[1] as int else 0;
    var z := if |b| > 2 then b[2] as int else 0;
    var d0, d1 := Digit(x / 4), Digit(x % 4 * 16 + y / 16);
    if |b| == 1 then [d0, d1]
    else
      var d2 := Digit(y % 16 * 4 + z / 64);
      if |b| == 2 then [d0, d1, d2] else [d0, d1, d2, Digit(z % 64)]
  }

  /** The bytes of four, three or two digits; a single digit holds no byte. */
  function Ungroup(s: string): (b: string)
    requires AllDigits64(s) && 1 <= |s| <= 4
    ensures Bytes(b) && |b| == |s| - 1
  {
    if |s| == 1 then ""
    else
      var v0, v1 := Value(s[0]), Value(s[1]);
      var x := (v0 * 4 + v1 / 16) as char;
      if |s| == 2 then [x]
      else
        var v2 := Value(s[2]);
        var y := (v1 % 16 * 16 + v2 / 4) as char;
        if |s| == 3 then [x, y] else [x, y, (v2 % 4 * 64 + Value(s[3])) as char]
  }

  lemma GroupRoundTrip(b: string)
    requires Bytes(b) && 1 <= |b| <= 3
    ensures Ungroup(Group(b)) == b
  {
    hide Digit, Value;
    var x := b[0] as int;
    var y := if |b| > 1 then b[1] as int else 0;
    var z := if |b| > 2 then b[2] as int else 0;
    Halves(x % 4, y / 16);
    Halves(y % 16, z / 64);
    var r := Ungroup(Group(b));
    assert r[0] == b[0];
    assert |b| > 1 ==> r[1] == b[1];
    assert |b| > 2 ==> r[2] == b[2];
  }

  lemma Halves(high: nat, low: nat)
    ensures low < 16 ==> (high * 16 + low) / 16 == high && (high * 16 + low) % 16 == low
    ensures low < 4 ==> (high * 4 + low) / 4 == high && (high * 4 + low) % 4 == low
  {
  }

  function DigitCount(n: nat): nat { n / 3 * 4 + if n % 3 == 0 then 0 else n % 3 + 1 }

  /** Base64 without padding. */
  function Digits(b: string): (s: string)
    requires Bytes(b)
    ensures AllDigits64(s)
    ensures |s| == DigitCount(|b|)
  {
    if |b| == 0 then "" else if |b| <= 3 then Group(b)
    else Group(b[..3]) + Digits(b[3..])
  }

  function Padding(n: nat): string {
    if n % 3 == 0 then "" else if n % 3 == 1 then "==" else "="
  }

  /** As Buffer.toString('base64'). */
  function Encode(b: string): string
    requires Bytes(b)
  {
    Digits(b) + Padding(|b|)
  }

  function Undigits(s: string): (b: string)
    requires AllDigits64(s)
    ensures Bytes(b)
  {
    if |s| == 0 then "" else if |s| <= 4 then Ungroup(s)
    else Ungroup(s[..4]) + Undigits(s[4..])
  }

  /** The digits at the beginning of `s`. */
  function DigitPrefix(s: string): (p: string)
    ensures AllDigits64(p) && |p| <= |s| && p == s[..|p|]
  {
    if s != "" && IsDigit64(s[0]) then [s[0]] + DigitPrefix(s[1..]) else ""
  }

  /** As Buffer.from(s, 'base64') for digits with or without padding. */
  function Decode(s: string): (b: string)
    ensures Bytes(b)
  {
    Undigits(DigitPrefix(s))
  }

  lemma {:induction false} DigitPrefixOf(s: string, t: string)
    requires AllDigits64(s) && (t == "" || !IsDigit64(t[0]))
    ensures DigitPrefix(s + t) == s
  {
    if s == "" {
      assert s + t == t;
    } else {
      assert (s + t)[1..] == s[1..] + t;
      DigitPrefixOf(s[1..], t);
    }
  }

  lemma {:induction false} UndigitsDigits(b: string)
    requires Bytes(b)
    ensures Undigits(Digits(b)) == b
  {
    hide Group, Ungroup;
    if 0 < |b| <= 3 {
      GroupRoundTrip(b);
    } else if |b| > 3 {
      GroupRoundTrip(b[..3]);
      UndigitsDigits(b[3..]);
      var s := Digits(b);
      assert s[..4] == Group(b[..3]) && s[4..] == Digits(b[3..]);
      assert b[..3] + b[3..] == b;
    }
  }

  /** Base64 round trip, with or without the padding. */
  lemma RoundTrip(b: string)
    requires Bytes(b)
    ensures Decode(Encode(b)) == b
    ensures Decode(Digits(b)) == b
  {
    DigitPrefixOf(Digits(b), Padding(|b|));
    DigitPrefixOf(Digits(b), "");
    assert Digits(b) + "" == Digits(b);
    UndigitsDigits(b);
  }

  /** The alphabet of RFC 4648. */
  lemma AlphabetIs(v: nat)
    requires v < 64
    ensures v < 26 ==> Digit(v) as int == 'A' as int + v
    ensures 26 <= v < 52 ==> Digit(v) as int == 'a' as int + (v - 26)
    ensures 52 <= v < 62 ==> Digit(v) as int == '0' as int + (v - 52)
    ensures v == 62 ==> Digit(v) == '+'
    ensures v == 63 ==> Digit(v) == '/'
  {
  }

  function Fill(c: char, n: nat): (s: string)
    ensures |s| == n && forall i :: 0 <= i < n ==> s[i] == c
  {
    if n == 0 then "" else [c] + Fill(c, n - 1)
  }

  function Missing(n: nat): (k: nat)
    ensures k < 3
  {
    if n % 3 == 0 then 0 else 3 - n % 3
  }

  lemma MissingSame(n: nat)
    requires n >= 3
    ensures Missing(n - 3) == Missing(n)
  {
  }

  lemma NoneMissing()
    ensures Missing(0) == 0
  {
  }

  lemma MissingFew(n: nat)
    requires 1 <= n <= 3
    ensures n + Missing(n) == 3
  {
  }

  lemma FewZeros(b: string, k: nat)
    requires Bytes(b)
    ensures Bytes(b + Fill('\0', k))
  {
  }

  lemma TwoFilled(x: char, y: char)
    requires Bytes([x, y]) && Bytes([x, y, '\0'])
    ensures Group([x, y, '\0']) == Group([x, y]) + "A"
  {
    assert Digit(0) == 'A';
    hide Digit, Value;
    assert 0 / 64 == 0 && 0 % 64 == 0;
  }

  lemma OneFilled(x: char)
    requires Bytes([x]) && Bytes([x, '\0', '\0'])
    ensures Group([x, '\0', '\0']) == Group([x]) + "AA"
  {
    assert Digit(0) == 'A';
    hide Digit, Value;
    assert 0 / 64 == 0 && 0 % 64 == 0 && 0 / 16 == 0 && 0 % 16 == 0;
  }

  lemma GroupFilled(b: string)
    requires Bytes(b) && 1 <= |b| <= 3
    ensures Group(b + Fill('\0', Missing(|b|))) == Group(b) + Fill('A', Missing(|b|))
  {
    MissingFew(|b|);
    FewZeros(b, Missing(|b|));
    hide Missing, Group;
    if |b| == 3 {
      assert b + Fill('\0', 0) == b && Group(b) + Fill('A', 0) == Group(b);
    } else if |b| == 2 {
      assert b == [b[0], b[1]] && b + Fill('\0', 1) == [b[0], b[1], '\0'] && Fill('A', 1) == "A";
      TwoFilled(b[0], b[1]);
    } else {
      assert b == [b[0]] && b + Fill('\0', 2) == [b[0], '\0', '\0'] && Fill('A', 2) == "AA";
      OneFilled(b[0]);
    }
  }

  lemma {:induction false} DigitsFilled(b: string)
    requires Bytes(b)
    ensures var k := Missing(|b|); Digits(b + Fill('\0', k)) == Digits(b) + Fill('A', k)
    decreases |b|
  {
    hide Group, Missing, Fill;
    var k := Missing(|b|);
    var zeros := Fill('\0', k);
    FewZeros(b, k);
    if |b| == 0 {
      assert k == 0 by { NoneMissing(); }
      assert b + zeros == "" && "" + Fill('A', k) == "";
    } else if |b| <= 3 {
      MissingFew(|b|);
      GroupFilled(b);
    } else {
      DigitsFilled(b[3..]);
      MissingSame(|b|);
      FewZeros(b[3..], k);
      assert (b + zeros)[..3] == b[..3] && (b + zeros)[3..] == b[3..] + zeros;
      Assoc(Group(b[..3]), Digits(b[3..]), Fill('A', k));
    }
  }

  lemma PaddingIs(n: nat)
    ensures Padding(n) == Fill('=', Missing(n))
  {
  }

  lemma LengthIs(n: nat)
    ensures (DigitCount(n) + Missing(n)) % 4 == 0
  {
    FourTimes(if n % 3 == 0 then n / 3 else n / 3 + 1);
  }

  lemma FourTimes(n: nat)
    ensures n * 4 % 4 == 0
  {
  }

  /** The digits are filled up with `=` to a multiple of four, and the bits that no byte uses are zero: read
      with the fill as zero digits they are the bytes followed by zero bytes. */
  lemma FilledWithZeros(b: string)
    requires Bytes(b)
    ensures var k := Missing(|b|);
            && |Encode(b)| % 4 == 0 && Encode(b) == Digits(b) + Fill('=', k)
            && AllDigits64(Digits(b) + Fill('A', k)) && Undigits(Digits(b) + Fill('A', k)) == b + Fill('\0', k)
  {
    PaddingIs(|b|);
    LengthIs(|b|);
    hide Missing, Fill, Padding, Digits, Undigits, DigitCount;
    var k := Missing(|b|);
    FewZeros(b, k);
    DigitsFilled(b);
    UndigitsDigits(b + Fill('\0', k));
  }

  // ---- Base64 bodies -----------------------------------------------------------------

  /** A CRLF after every 76 characters. */
  function WrapAll(s: string): string {
    if |s| < 76 then s else s[..76] + CRLF + WrapAll(s[76..])
  }

  /** wrapBase64: no CRLF at the very end. */
  function Wrap(s: string): string {
    var w := WrapAll(s);
    if |w| >= 2 && w[|w| - 2..] == CRLF then w[..|w| - 2] else w
  }

  /** Everything but base64 digits and padding is ignored. */
  function Clean(s: string): string {
    if s == "" then ""
    else (if IsDigit64(s[0]) || s[0] == '=' then [s[0]] else "") + Clean(s[1..])
  }

  /** A base64 body, as decodeTransfer reads it. */
  function DecodeBody(raw: string): (b: string)
    ensures Bytes(b)
  {
    Decode(Clean(raw))
  }

  predicate Alphabet(s: string) { forall i :: 0 <= i < |s| ==> IsDigit64(s[i]) || s[i] == '=' }

  lemma {:induction false} CleanAlphabet(s: string)
    requires Alphabet(s)
    ensures Clean(s) == s
  {
    if s != "" {
      CleanAlphabet(s[1..]);
    }
  }

  lemma {:induction false} CleanConcat(s: string, t: string)
    ensures Clean(s + t) == Clean(s) + Clean(t)
  {
    if s == "" {
      assert s + t == t;
    } else {
      assert (s + t)[1..] == s[1..] + t;
      CleanConcat(s[1..], t);
      Assoc(if IsDigit64(s[0]) || s[0] == '=' then [s[0]] else "", Clean(s[1..]), Clean(t));
    }
  }

  lemma CleanCrlf()
    ensures Clean(CRLF) == ""
  {
    assert Clean(CRLF[1..]) == Clean(CRLF[1..][1..]);
  }

  lemma {:induction false} CleanWrapAll(s: string)
    requires Alphabet(s)
    ensures Clean(WrapAll(s)) == s
  {
    hide Clean;
    if |s| < 76 {
      CleanAlphabet(s);
    } else {
      CleanWrapAll(s[76..]);
      CleanAlphabet(s[..76]);
      CleanCrlf();
      CleanConcat(s[..76] + CRLF, WrapAll(s[76..]));
      CleanConcat(s[..76], CRLF);
      assert s[..76] + "" + s[76..] == s;
    }
  }

  lemma CleanWrap(s: string)
    requires Alphabet(s)
    ensures Clean(Wrap(s)) == s
  {
    hide Clean;
    var w := WrapAll(s);
    CleanWrapAll(s);
    if |w| >= 2 && w[|w| - 2..] == CRLF {
      assert w == w[..|w| - 2] + CRLF;
      CleanConcat(w[..|w| - 2], CRLF);
      CleanCrlf();
      assert Clean(w[..|w| - 2]) + "" == Clean(w[..|w| - 2]);
    }
  }

  /** Base64 bodies round-trip through the line wrapping. */
  lemma BodyRoundTrip(b: string)
    requires Bytes(b)
    ensures DecodeBody(Wrap(Encode(b))) == b
  {
    CleanWrap(Encode(b));
    RoundTrip(b);
  }

  /** The lines of a body: all of 76 characters but the last, which is not empty and not longer. */
  predicate LinesOf76(lines: seq<string>) {
    lines != [] && (forall i :: 0 <= i < |lines| - 1 ==> |lines[i]| == 76) && 0 < |lines[|lines| - 1]| <= 76
  }

  lemma {:induction false} WrapAllLines(s: string) returns (lines: seq<string>)
    requires s != ""
    ensures LinesOf76(lines) && Flat(lines) == s
    ensures WrapAll(s) == Join(lines, CRLF) + if |lines[|lines| - 1]| == 76 then CRLF else ""
  {
    if |s| <= 76 {
      lines := [s];
      assert lines[1..] == [] && s + "" == s;
      if |s| == 76 {
        assert s[..76] == s && s[76..] == "";
      }
    } else {
      var more := WrapAllLines(s[76..]);
      lines := [s[..76]] + more;
      assert lines[1..] == more && s[..76] + s[76..] == s;
      var tail := if |more[|more| - 1]| == 76 then CRLF else "";
      Assoc(s[..76] + CRLF, Join(more, CRLF), tail);
      assert lines[|lines| - 1] == more[|more| - 1];
    }
  }

  lemma {:induction false} JoinedEnd(lines: seq<string>)
    requires LinesOf76(lines) && forall i :: 0 <= i < |lines| ==> Alphabet(lines[i])
    ensures var s := Join(lines, CRLF); s != "" && (IsDigit64(s[|s| - 1]) || s[|s| - 1] == '=')
  {
    if |lines| == 1 {
      assert Alphabet(lines[0]);
    } else {
      assert forall i :: 0 <= i < |lines| - 1 ==> lines[1..][i] == lines[i + 1];
      JoinedEnd(lines[1..]);
    }
  }

  lemma {:induction false} PiecesOf(lines: seq<string>)
    requires Alphabet(Flat(lines))
    ensures forall i :: 0 <= i < |lines| ==> Alphabet(lines[i])
  {
    if lines != [] {
      var rest := Flat(lines[1..]);
      var all := lines[0] + rest;
      assert forall i :: 0 <= i < |lines[0]| ==> lines[0][i] == all[i];
      assert forall i :: 0 <= i < |rest| ==> rest[i] == all[|lines[0]| + i];
      PiecesOf(lines[1..]);
      assert forall i :: 1 <= i < |lines| ==> lines[i] == lines[1..][i - 1];
    }
  }

  /** A wrapped body has lines of 76 characters, with CRLF between them, and nothing is added or lost. */
  lemma WrappedLines(s: string) returns (lines: seq<string>)
    requires Alphabet(s) && s != ""
    ensures Wrap(s) == Join(lines, CRLF) && LinesOf76(lines) && Flat(lines) == s
  {
    lines := WrapAllLines(s);
    PiecesOf(lines);
    JoinedEnd(lines);
    hide WrapAll, Alphabet, Join;
    var j := Join(lines, CRLF);
    if |lines[|lines| - 1]| == 76 {
      assert (j + CRLF)[|j|..] == CRLF && (j + CRLF)[..|j|] == j;
    } else {
      assert j + "" == j;
      assert |j| >= 2 ==> j[|j| - 2..][1] == j[|j| - 1] != CRLF[1];
    }
  }

  /** The body a leaf of base64 is sent with: its lines have 76 characters, the last at most that many, and
      together they are the encoding. */
  lemma BodyLines(b: string) returns (lines: seq<string>)
    requires Bytes(b) && b != ""
    ensures Wrap(Encode(b)) == Join(lines, CRLF) && Flat(lines) == Encode(b)
    ensures forall i :: 0 <= i < |lines| ==> 0 < |lines[i]| <= 76 && (i < |lines| - 1 ==> |lines[i]| == 76)
  {
    hide Wrap, Group;
    assert Digits(b) != "";
    hide Digits;
    lines := WrappedLines(Encode(b));
  }
}
