/** Byte strings. A `string` here is a latin1 string: one char per byte. */
module Text {

  datatype Option<+T> = None | Some(value: T)

  const CRLF := "\r\n"

  /** `p` occurs in `s` at position `i`. */
  predicate At(s: string, i: int, p: string) {
    0 <= i && i + |p| <= |s| && s[i..i + |p|] == p
  }

  predicate StartsWith(s: string, p: string) {
    At(s, 0, p)
  }

  /** An occurrence agrees with the text it is in, character by character. */
  lemma AtChars(s: string, i: int, p: string)
    ensures At(s, i, p) <==> 0 <= i && i + |p| <= |s| && forall k {:trigger p[k]} :: 0 <= k < |p| ==> s[i + k] == p[k]
  {
    if 0 <= i && i + |p| <= |s| {
      assert forall k {:trigger p[k]} :: 0 <= k < |p| ==> s[i..i + |p|][k] == s[i + k];
    }
  }

  lemma StartsWithFirst(s: string, p: string)
    requires StartsWith(s, p) && p != ""
    ensures s != "" && s[0] == p[0]
  {
    assert s[0..|p|][0] == s[0];
  }

  ghost predicate Contains(s: string, p: string) {
    exists i :: At(s, i, p)
  }

  /** The first position at or after `from` where `p` occurs, as String.indexOf does; -1 if there is none. */
  function Find(s: string, p: string, from: nat): (i: int)
    ensures i == -1 || (from <= i && At(s, i, p))
    ensures forall k :: from <= k && At(s, k, p) ==> 0 <= i <= k
    decreases |s| - from
  {
    if from + |p| > |s| then -1
    else if At(s, from, p) then from
    else Find(s, p, from + 1)
  }

  /** Find is determined by its own contract. */
  lemma FindIs(s: string, p: string, from: nat, i: int)
    requires from <= i && At(s, i, p)
    requires forall k :: from <= k < i ==> !At(s, k, p)
    ensures Find(s, p, from) == i
  {
    assert At(s, Find(s, p, from), p);
  }

  lemma FindNone(s: string, p: string, from: nat)
    requires forall k :: from <= k ==> !At(s, k, p)
    ensures Find(s, p, from) == -1
  {
  }

  /** All the bytes of a list of buffers. */
  function Flat(bs: seq<string>): string {
    if bs == [] then "" else bs[0] + Flat(bs[1..])
  }

  lemma FlatConcat(a: seq<string>, b: seq<string>)
    ensures Flat(a + b) == Flat(a) + Flat(b)
  {
    if a == [] {
      assert a + b == b;
    } else {
      assert (a + b)[1..] == a[1..] + b;
      FlatConcat(a[1..], b);
    }
  }

  lemma FlatEmpty()
    ensures Flat([]) == ""
  {
  }

  lemma FlatPush(bs: seq<string>, b: string)
    ensures Flat(bs + [b]) == Flat(bs) + b
  {
    FlatConcat(bs, [b]);
    assert [b][1..] == [];
  }

  lemma Assoc<T>(a: seq<T>, b: seq<T>, c: seq<T>)
    ensures a + (b + c) == a + b + c
  {
  }

  lemma NothingBefore<T>(a: seq<T>)
    ensures [] + a == a && a + [] == a
  {
  }

  /** CRLF or a bare LF: the number of bytes of the line break `s` starts with, 0 if none. */
  function Break(s: string): (n: nat)
    ensures n <= |s|
  {
    if s == "" then 0
    else if s[0] == '\n' then 1
    else if s[0] == '\r' && |s| > 1 && s[1] == '\n' then 2
    else 0
  }

  lemma ContainsTail(s: string, p: string)
    requires s != "" && p != ""
    ensures Contains(s, p) <==> StartsWith(s, p) || Contains(s[1..], p)
  {
    if i :| At(s, i, p) && i > 0 {
      assert s[1..][i - 1..i - 1 + |p|] == s[i..i + |p|];
      assert At(s[1..], i - 1, p);
    }
    if i :| At(s[1..], i, p) {
      assert s[1..][i..i + |p|] == s[i + 1..i + 1 + |p|];
      assert At(s, i + 1, p);
    }
  }

  function Join(parts: seq<string>, sep: string): string {
    if parts == [] then ""
    else if |parts| == 1 then parts[0]
    else parts[0] + sep + Join(parts[1..], sep)
  }

  lemma JoinOne(a: string, sep: string)
    ensures Join([a], sep) == a
  {
  }

  lemma {:induction false} JoinConcat(a: seq<string>, b: seq<string>, sep: string)
    requires a != [] && b != []
    ensures Join(a + b, sep) == Join(a, sep) + sep + Join(b, sep)
    decreases |a|
  {
    if |a| == 1 {
      assert (a + b)[1..] == b;
    } else {
      assert (a + b)[1..] == a[1..] + b;
      JoinConcat(a[1..], b, sep);
      assert a[0] + sep + (Join(a[1..], sep) + sep + Join(b, sep))
          == a[0] + sep + Join(a[1..], sep) + sep + Join(b, sep);
    }
  }

  predicate IsDigit(c: char) { '0' <= c <= '9' }

  predicate AllDigits(s: string) { forall i :: 0 <= i < |s| ==> IsDigit(s[i]) }

  function DigitChar(d: nat): char
    requires d < 10
  {
    (d + '0' as int) as char
  }

  /** Decimal rendering, as String(n). */
  function Decimal(n: nat): (s: string)
    ensures |s| > 0 && AllDigits(s)
    ensures n < 10 <==> |s| == 1
    ensures s[0] == '0' <==> n == 0
  {
    if n < 10 then [DigitChar(n)] else Decimal(n / 10) + [DigitChar(n % 10)]
  }

  /** The number a digit string denotes, as Number(s). */
  function DecimalValue(s: string): nat
    requires AllDigits(s)
  {
    if s == "" then 0
    else 10 * DecimalValue(s[..|s| - 1]) + (s[|s| - 1] as int - '0' as int)
  }

  lemma {:induction false} DecimalRoundTrip(n: nat)
    ensures DecimalValue(Decimal(n)) == n
  {
    var s := Decimal(n);
    if n >= 10 {
      assert s[..|s| - 1] == Decimal(n / 10);
      DecimalRoundTrip(n / 10);
    } else {
      assert s[..|s| - 1] == "";
    }
  }

  predicate Bytes(s: string) { forall i :: 0 <= i < |s| ==> s[i] as int < 256 }

  predicate IsHex(c: char) { '0' <= c <= '9' || 'A' <= c <= 'F' || 'a' <= c <= 'f' }

  function HexChar(d: nat): char
    requires d < 16
  {
    if d < 10 then (d + '0' as int) as char else (d - 10 + 'A' as int) as char
  }

  function HexValue(c: char): (v: nat)
    requires IsHex(c)
    ensures v < 16
  {
    if c <= '9' then c as int - '0' as int
    else if c <= 'F' then c as int - 'A' as int + 10
    else c as int - 'a' as int + 10
  }

  /** Two upper-case hexadecimal digits. */
  function Hex2(c: char): (s: string)
    requires c as int < 256
    ensures |s| == 2 && IsHex(s[0]) && IsHex(s[1])
    ensures HexValue(s[0]) * 16 + HexValue(s[1]) == c as int
    ensures forall i :: 0 <= i < 2 ==> '0' <= s[i] <= '9' || 'A' <= s[i] <= 'F'
  {
    [HexChar(c as int / 16), HexChar(c as int % 16)]
  }

  /** The byte written as two hexadecimal digits. */
  function Unhex2(a: char, b: char): (c: char)
    requires IsHex(a) && IsHex(b)
    ensures c as int < 256
  {
    (HexValue(a) * 16 + HexValue(b)) as char
  }

  /** `"` and `\` are escaped in a quoted string. */
  function Escape(v: string): string {
    if v == "" then ""
    else (if v[0] == '\\' || v[0] == '"' then ['\\', v[0]] else [v[0]]) + Escape(v[1..])
  }

  /** JavaScript's \s, which is also what trim() removes. */
  predicate IsSpace(c: char) {
    c == ' ' || c == '\t' || c == '\n' || c == '\r' || c == '\U{B}' || c == '\U{C}' || c == '\U{A0}' || IsWideSpace(c)
  }

  predicate IsWideSpace(c: char) {
    || c == '\U{1680}' || '\U{2000}' <= c <= '\U{200A}' || c == '\U{2028}' || c == '\U{2029}'
    || c == '\U{202F}' || c == '\U{205F}' || c == '\U{3000}' || c == '\U{FEFF}'
  }

  function TrimStart(s: string): (t: string)
    ensures t == "" || !IsSpace(t[0])
    ensures |t| <= |s|
  {
    if s != "" && IsSpace(s[0]) then TrimStart(s[1..]) else s
  }

  function TrimEnd(s: string): (t: string)
    ensures t == "" || !IsSpace(t[|t| - 1])
    ensures |t| <= |s|
  {
    if s != "" && IsSpace(s[|s| - 1]) then TrimEnd(s[..|s| - 1]) else s
  }

  function Trim(s: string): string {
    TrimEnd(TrimStart(s))
  }

  /** Nothing to trim at either end. */
  predicate Trimmed(s: string) {
    s == "" || (!IsSpace(s[0]) && !IsSpace(s[|s| - 1]))
  }
}
