/** Header parameters: the writer of src/core/Headers.ts and the reader of src/core/MimeParser.ts
    (RFC 2045, section 5.1; RFC 2231, sections 3 and 4). */
module Params {
  import opened Text

  function LowerChar(c: char): char {
    if 'A' <= c <= 'Z' || (0xC0 <= c as int <= 0xDE && c as int != 0xD7) then (c as int + 32) as char else c
  }

  function Lower(s: string): (t: string)
    ensures |t| == |s| && forall i :: 0 <= i < |s| ==> t[i] == LowerChar(s[i])
  {
    seq(|s|, i requires 0 <= i < |s| => LowerChar(s[i]))
  }

  // ---- Writing -----------------------------------------------------------------------

  function DropControls(s: string): string {
    if s == "" then ""
    else (if s[0] == '\r' || s[0] == '\n' || s[0] == '\0' then "" else [s[0]]) + DropControls(s[1..])
  }

  function Sanitize(value: string): string {
    Trim(DropControls(value))
  }

  predicate Ascii(c: char) { ' ' <= c <= '~' || c == '\t' }

  /** Length of the run without "?" and whitespace at the beginning of `s`. */
  function CharsetRun(s: string): (n: nat)
    ensures n <= |s|
  {
    if s != "" && s[0] != '?' && !IsSpace(s[0]) then 1 + CharsetRun(s[1..]) else 0
  }

  predicate EncodedWordAt(s: string, i: nat)
    requires i <= |s|
  {
    At(s, i, "=?")
    && var n := CharsetRun(s[i + 2..]);
       var k := i + 2 + n;
       n > 0 && k + 2 < |s| && s[k] == '?' && s[k + 1] in "bBqQ" && s[k + 2] == '?'
  }

  predicate NeedsEncoding(v: string) {
    (exists i :: 0 <= i < |v| && !Ascii(v[i])) || (exists i :: 0 <= i < |v| && EncodedWordAt(v, i))
  }

  predicate TokenChar(c: char) {
    'A' <= c <= 'Z' || 'a' <= c <= 'z' || '0' <= c <= '9' || c in "!#$%&'*+.^_`|~-"
  }

  predicate IsToken(v: string) { v != "" && forall i :: 0 <= i < |v| ==> TokenChar(v[i]) }

  predicate Unreserved(c: char) {
    'A' <= c <= 'Z' || 'a' <= c <= 'z' || '0' <= c <= '9' || c in "!#$&+.^_`|~-"
  }

  function PctToken(c: char): (t: string)
    requires c as int < 256
  {
    if Unreserved(c) then [c] else "%" + Hex2(c)
  }

  function PctEncode(b: string): string
    requires Bytes(b)
  {
    if b == "" then "" else PctToken(b[0]) + PctEncode(b[1..])
  }

  predicate Triplet(s: string) { |s| >= 3 && s[0] == '%' && IsHex(s[1]) && IsHex(s[2]) }

  /** A percent-encoded text: unreserved characters and whole %XX triplets. */
  predicate PctText(s: string) {
    s == "" || (Unreserved(s[0]) && PctText(s[1..])) || (Triplet(s) && PctText(s[3..]))
  }

  /** Cutting the text at `k` cuts no triplet. */
  predicate CleanCut(s: string, k: nat) {
    k <= |s| && PctText(s[..k]) && PctText(s[k..])
  }

  /** Length of the first character or triplet. */
  function PctHead(s: string): (k: nat)
    requires PctText(s) && s != ""
    ensures 1 <= k <= |s| && CleanCut(s, k)
    ensures k == 1 ==> s[0] != '%'
    ensures k != 1 ==> k == 3 && s[0] == '%' && s[1] != '%' && s[2] != '%'
  {
    if s[0] == '%' then
      assert s[..3][3..] == "";
      3
    else
      assert s[..1][1..] == "";
      1
  }

  /** `end`, moved back past the "%" of a triplet it falls into. */
  function CutBack(s: string, end: nat): (e: nat)
    requires 0 < end <= |s|
    ensures e <= end
  {
    if s[end - 1] == '%' then end - 1 else if end >= 2 && s[end - 2] == '%' then end - 2 else end
  }

  lemma TakeAfter(s: string, k: nat, e: nat)
    requires k + e <= |s|
    ensures s[..k + e] == s[..k] + s[k..][..e] && s[k + e..] == s[k..][e..]
  {
  }

  lemma {:induction false} CutBackText(s: string, end: nat)
    requires PctText(s) && 0 < end <= |s|
    ensures var e := CutBack(s, end);
            && PctText(s[..e]) && PctText(s[e..])
            && (end >= 3 || end == |s| ==> e > 0)
    decreases |s|
  {
    hide PctText, PercentDecode;
    var k := PctHead(s);
    if end < k {
      assert s[..0] == "" && s[0..] == s;
      PctNothing();
    } else if end > k {
      var t := s[k..];
      CutBackShift(s, k, end);
      CutBackText(t, end - k);
      var e := CutBack(t, end - k);
      TakeAfter(s, k, e);
      PctConcat(s[..k], t[..e]);
    } else {
      assert k == 3 ==> s[end - 1] == s[2] && s[end - 2] == s[1];
    }
  }

  lemma PctNothing()
    ensures PctText("")
  {
  }

  /** Where the first segment of at most `max` characters ends: never inside a triplet. */
  function CutAt(s: string, max: nat): (end: nat)
    requires PctText(s) && s != "" && max >= 3
    ensures 0 < end <= |s| && end <= max
    ensures CleanCut(s, end)
  {
    var cut := if max < |s| then max else |s|;
    CutBackText(s, cut);
    CutBack(s, cut)
  }

  /** One unreserved character or one triplet. */
  predicate PctUnit(h: string) {
    (|h| == 1 && Unreserved(h[0])) || (|h| == 3 && Triplet(h))
  }

  lemma HeadUnit(s: string)
    requires PctText(s) && s != ""
    ensures PctUnit(s[..PctHead(s)])
  {
    hide PercentDecode;
  }

  lemma PctUnitBefore(h: string, t: string)
    requires PctUnit(h) && PctText(t)
    ensures PctText(h + t) && PercentDecode(h + t) == PercentDecode(h) + PercentDecode(t)
  {
    assert (h + t)[|h|..] == t && h[|h|..] == "";
  }

  lemma {:induction false} PctConcat(a: string, b: string)
    requires PctText(a) && PctText(b)
    ensures PctText(a + b)
    ensures PercentDecode(a + b) == PercentDecode(a) + PercentDecode(b)
    decreases |a|
  {
    hide PctText, PercentDecode, PctUnit;
    if a == "" {
      NothingBefore(b);
      DecodeNothing();
      NothingBefore(PercentDecode(b));
    } else {
      var h, t := a[..PctHead(a)], a[PctHead(a)..];
      assert a == h + t;
      PctConcat(t, b);
      HeadUnit(a);
      PctUnitBefore(h, t);
      PctUnitBefore(h, t + b);
      Assoc(h, t, b);
      Assoc(PercentDecode(h), PercentDecode(t), PercentDecode(b));
    }
  }

  lemma DecodeNothing()
    ensures PercentDecode("") == ""
  {
  }

  function SplitPct(s: string, max: nat): (segs: seq<string>)
    requires PctText(s) && max >= 3
    decreases |s|
  {
    if s == "" then [] else [s[..CutAt(s, max)]] + SplitPct(s[CutAt(s, max)..], max)
  }

  method SplitPercentEncoded(s: string, max: nat) returns (out: seq<string>)
    requires PctText(s) && max >= 3
    ensures out == SplitPct(s, max)
  {
    hide PctText, SplitPct;
    out := [];
    var i := 0;
    assert s[0..] == s;
    assert [] + SplitPct(s, max) == SplitPct(s, max);
    while i < |s|
      invariant i <= |s| && PctText(s[i..])
      invariant i > 0 ==> s[i - 1] != '%'
      invariant SplitPct(s, max) == out + SplitPct(s[i..], max)
      decreases |s| - i
    {
      var end := if i + max < |s| then i + max else |s|;
      SplitStep(s, i, end, max);
      if s[end - 1] == '%' {
        end := end - 1;
      } else if end >= 2 && s[end - 2] == '%' {
        end := end - 2;
      }
      assert out + ([s[i..end]] + SplitPct(s[end..], max)) == out + [s[i..end]] + SplitPct(s[end..], max);
      out := out + [s[i..end]];
      i := end;
    }
    SplitNothing(max);
    assert s[i..] == "" && out + [] == out;
  }

  lemma SplitNothing(max: nat)
    requires max >= 3
    ensures SplitPct("", max) == []
  {
  }

  lemma SplitStep(s: string, i: nat, end: nat, max: nat)
    requires max >= 3 && i < |s| && PctText(s[i..]) && (i > 0 ==> s[i - 1] != '%')
    requires end == if i + max < |s| then i + max else |s|
    ensures var e := CutBack(s, end);
            && i < e <= |s| && PctText(s[e..]) && s[e - 1] != '%'
            && SplitPct(s[i..], max) == [s[i..e]] + SplitPct(s[e..], max)
  {
    hide PctText, SplitPct, CutBack;
    var t := s[i..];
    CutBackShift(s, i, end);
    var c := CutAt(t, max);
    SplitPctUnfold(t, max);
    hide CutAt;
    assert t[..c] == s[i..i + c] && t[c..] == s[i + c..];
    LastNotPercent(t[..c]);
  }

  lemma SplitPctUnfold(t: string, max: nat)
    requires max >= 3 && PctText(t) && t != ""
    ensures SplitPct(t, max) == [t[..CutAt(t, max)]] + SplitPct(t[CutAt(t, max)..], max)
  {
    hide PctText, CutAt;
  }

  lemma CutBackShift(s: string, i: nat, end: nat)
    requires i < end <= |s| && (i > 0 ==> s[i - 1] != '%')
    ensures CutBack(s, end) == i + CutBack(s[i..], end - i)
  {
    var t := s[i..];
    assert t[end - i - 1] == s[end - 1];
    assert end - i >= 2 ==> t[end - i - 2] == s[end - 2];
  }

  lemma {:induction false} LastNotPercent(s: string)
    requires PctText(s) && s != ""
    ensures s[|s| - 1] != '%'
    decreases |s|
  {
    var k := if s[0] == '%' then 3 else 1;
    if k < |s| {
      LastNotPercent(s[k..]);
    }
  }

  /** NFKD and what is left of it in printable ASCII, without quotes and backslashes. */
  function Fallback(nfkd: string): (f: string)
    ensures |f| == |nfkd|
    ensures forall i :: 0 <= i < |f| ==> ' ' <= f[i] <= '~' && f[i] != '\\' && f[i] != '"'
  {
    seq(|nfkd|, i requires 0 <= i < |nfkd| =>
      var c := nfkd[i];
      if !(' ' <= c <= '~') || c == '\\' || c == '"' then '_' else c)
  }

  function Continuation(name: string, index: nat, seg: string): string {
    name + "*" + Decimal(index) + "*=" + (if index == 0 then "UTF-8''" else "") + seg
  }

  function Continuations(name: string, segs: seq<string>, index: nat): seq<string> {
    if segs == [] then []
    else [Continuation(name, index, segs[0])] + Continuations(name, segs[1..], index + 1)
  }

  /** The pieces formatParam joins with "; ". `utf8` and `nfkd` stand for the Unicode tables. */
  function ParamPieces(name: string, value: string, utf8: string -> string, nfkd: string -> string): (ps: seq<string>)
    requires Bytes(utf8(Sanitize(value)))
    ensures ps != []
  {
    var v := Sanitize(value);
    if !NeedsEncoding(v) then
      if IsToken(v) && |v| <= 60 then [name + "=" + v] else [name + "=\"" + Escape(v) + "\""]
    else
      var encoded := PctEncode(utf8(v));
      PctEncodeText(utf8(v));
      [name + "=\"" + Fallback(nfkd(v)) + "\""]
      + if |encoded| <= 60 then [name + "*=UTF-8''" + encoded]
        else Continuations(name, SplitPct(encoded, 60), 0)
  }

  function FormatParam(name: string, value: string, utf8: string -> string, nfkd: string -> string): string
    requires Bytes(utf8(Sanitize(value)))
  {
    Join(ParamPieces(name, value, utf8, nfkd), "; ")
  }

  lemma {:induction false} PctEncodeText(b: string)
    requires Bytes(b)
    ensures PctText(PctEncode(b)) && PercentDecode(PctEncode(b)) == b
  {
    hide PctText, PercentDecode, PctToken;
    if b == "" {
      PctNothing();
      DecodeNothing();
    } else {
      PctEncodeText(b[1..]);
      TokenUnit(b[0]);
      PctUnitBefore(PctToken(b[0]), PctEncode(b[1..]));
      assert [b[0]] + b[1..] == b;
    }
  }

  lemma TokenUnit(c: char)
    requires c as int < 256
    ensures PctUnit(PctToken(c)) && PercentDecode(PctToken(c)) == [c]
  {
    var t := PctToken(c);
    assert t[|t|..] == "";
  }

  // ---- Reading -----------------------------------------------------------------------

  function PercentDecode(s: string): (b: string)
    ensures Bytes(b)
  {
    if s == "" then ""
    else if Triplet(s) then [Unhex2(s[1], s[2])] + PercentDecode(s[3..])
    else [(s[0] as int % 256) as char] + PercentDecode(s[1..])
  }

  method PercentDecodeBytes(s: string) returns (out: string)
    ensures out == PercentDecode(s)
  {
    hide PercentDecode, Unhex2;
    out := "";
    var i := 0;
    assert s[0..] == s;
    NothingBefore(PercentDecode(s));
    while i < |s|
      invariant i <= |s| && PercentDecode(s) == out + PercentDecode(s[i..])
    {
      PercentUnfold(s[i..]);
      if s[i] == '%' && i + 2 < |s| && IsHex(s[i + 1]) && IsHex(s[i + 2]) {
        assert s[i..][3..] == s[i + 3..];
        Assoc(out, [Unhex2(s[i + 1], s[i + 2])], PercentDecode(s[i + 3..]));
        out := out + [Unhex2(s[i + 1], s[i + 2])];
        i := i + 2;
      } else {
        assert s[i..][1..] == s[i + 1..];
        Assoc(out, [(s[i] as int % 256) as char], PercentDecode(s[i + 1..]));
        out := out + [(s[i] as int % 256) as char];
      }
      i := i + 1;
    }
    assert s[i..] == "";
    PercentUnfold("");
    NothingBefore(out);
  }

  lemma PercentUnfold(s: string)
    ensures s == "" ==> PercentDecode(s) == ""
    ensures Triplet(s) ==> PercentDecode(s) == [Unhex2(s[1], s[2])] + PercentDecode(s[3..])
    ensures s != "" && !Triplet(s) ==> PercentDecode(s) == [(s[0] as int % 256) as char] + PercentDecode(s[1..])
  {
  }

  /** Segments at each `;` that is not inside quotes; `cur` has been read of the current one. */
  function SplitFrom(s: string, cur: string, quoted: bool): (r: seq<string>)
    ensures r != []
    decreases |s|
  {
    if s == "" then [cur]
    else if s[0] == '\\' && quoted then
      if |s| == 1 then [cur + s] else SplitFrom(s[2..], cur + s[..2], quoted)
    else
      var q := if s[0] == '"' then !quoted else quoted;
      if s[0] == ';' && !q then [cur] + SplitFrom(s[1..], "", q)
      else SplitFrom(s[1..], cur + [s[0]], q)
  }

  method SplitOutsideQuotes(s: string) returns (out: seq<string>)
    ensures out == SplitFrom(s, "", false)
  {
    out := [];
    var cur, quoted, i := "", false, 0;
    assert [] + SplitFrom(s, "", false) == SplitFrom(s, "", false);
    while i < |s|
      invariant i <= |s| && SplitFrom(s, "", false) == out + SplitFrom(s[i..], cur, quoted)
    {
      ghost var t := s[i..];
      assert t[1..] == s[i + 1..];
      var c := s[i];
      if c == '\\' && quoted {
        if i + 1 < |s| {
          assert t[..2] == [c, s[i + 1]] && t[2..] == s[i + 2..];
          cur := cur + [c, s[i + 1]];
          i := i + 2;
        } else {
          assert t == [c] && s[i + 1..] == "";
          cur := cur + [c];
          i := i + 1;
        }
        continue;
      }
      if c == '"' { quoted := !quoted; }
      if c == ';' && !quoted {
        assert out + ([cur] + SplitFrom(s[i + 1..], "", quoted)) == out + [cur] + SplitFrom(s[i + 1..], "", quoted);
        out := out + [cur];
        cur := "";
      } else {
        cur := cur + [c];
      }
      i := i + 1;
    }
    out := out + [cur];
  }

  /** A backslash gives way to the character it protects, line ends excepted. */
  function DropBackslashes(s: string): string {
    if s == "" then ""
    else if s[0] == '\\' && |s| > 1 && s[1] != '\n' && s[1] != '\r' then [s[1]] + DropBackslashes(s[2..])
    else [s[0]] + DropBackslashes(s[1..])
  }

  function Unquote(val: string): string {
    if |val| >= 2 && val[0] == '"' && val[|val| - 1] == '"' then DropBackslashes(val[1..|val| - 1]) else val
  }

  /** `base*`, `base*N` and `base*N*`: the base and N (0 in the first form). */
  function ExtendedKey(key: string): Option<(string, nat)> {
    var p := Find(key, "*", 0);
    if p <= 0 then None
    else
      var rest := key[p + 1..];
      if rest == "" then Some((key[..p], 0))
      else
        var digits := if rest[|rest| - 1] == '*' then rest[..|rest| - 1] else rest;
        if digits != "" && AllDigits(digits) then Some((key[..p], DecimalValue(digits))) else None
  }

  datatype Piece = Piece(index: nat, value: string, encoded: bool)

  datatype Segments = Segments(simple: map<string, string>, extended: map<string, seq<Piece>>)

  function AddSegment(st: Segments, seg: string): Segments {
    var eq := Find(seg, "=", 0);
    if eq == -1 then st
    else
      var key := Lower(Trim(seg[..eq]));
      var val := Unquote(Trim(seg[eq + 1..]));
      match ExtendedKey(key)
      case None => st.(simple := st.simple[key := val])
      case Some((base, index)) =>
        var piece := Piece(index, val, key[|key| - 1] == '*');
        var sofar := if base in st.extended then st.extended[base] else [];
        st.(extended := st.extended[base := sofar + [piece]])
  }

  function AddSegments(st: Segments, segs: seq<string>): Segments
    decreases |segs|
  {
    if segs == [] then st else AddSegments(AddSegment(st, segs[0]), segs[1..])
  }

  /** Stable insertion by index. */
  function Insert(p: Piece, sorted: seq<Piece>): seq<Piece> {
    if sorted == [] || p.index < sorted[0].index then [p] + sorted
    else [sorted[0]] + Insert(p, sorted[1..])
  }

  function SortPieces(ps: seq<Piece>): seq<Piece> {
    if ps == [] then [] else Insert(ps[|ps| - 1], SortPieces(ps[..|ps| - 1]))
  }

  /** What decodeRfc2047 (Plain) or decodeText (Coded) is then applied to. */
  datatype ParamValue = Plain(text: string) | Coded(charset: string, bytes: string)

  predicate OneLine(s: string) { forall i :: 0 <= i < |s| ==> s[i] != '\n' && s[i] != '\r' }

  /** `charset'language'text` in the first piece. */
  function CharsetSplit(v: string): (string, string) {
    var p := Find(v, "'", 0);
    if p < 0 then ("utf-8", v)
    else
      var q := Find(v, "'", p + 1);
      if q < 0 || !OneLine(v[q + 1..]) then ("utf-8", v)
      else (if p == 0 then "utf-8" else v[..p], v[q + 1..])
  }

  function PieceBytes(ps: seq<Piece>): string {
    if ps == [] then ""
    else (if ps[0].encoded then PercentDecode(ps[0].value) else ps[0].value) + PieceBytes(ps[1..])
  }

  function Assemble(pieces: seq<Piece>): ParamValue {
    var ps := SortPieces(pieces);
    if ps != [] && ps[0].encoded then
      var (charset, v) := CharsetSplit(ps[0].value);
      Coded(charset, PieceBytes([ps[0].(value := v)] + ps[1..]))
    else Coded("utf-8", PieceBytes(ps))
  }

  function Finish(st: Segments): map<string, ParamValue> {
    (map k | k in st.simple :: Plain(st.simple[k]))
    + (map k | k in st.extended :: Assemble(st.extended[k]))
  }

  datatype HeaderValue = HeaderValue(value: string, params: map<string, ParamValue>)

  const NONE := Segments(map[], map[])

  function ParseHeaderValue(raw: string): HeaderValue {
    var segs := SplitFrom(raw, "", false);
    HeaderValue(Lower(Trim(segs[0])), Finish(AddSegments(NONE, segs[1..])))
  }

  // ---- Round trip: one parameter -----------------------------------------------------

  /** A parameter name as the builder uses them: lower case, no separators. */
  predicate ParamName(n: string) {
    n != "" && forall i :: 0 <= i < |n| ==>
      LowerChar(n[i]) == n[i] && !IsSpace(n[i]) && n[i] !in "=;\"*"
  }

  /** Read from the start of a segment, outside quotes, `s` ends outside quotes and meets no separator. */
  predicate Closed(s: string, quoted: bool)
    decreases |s|
  {
    if s == "" then !quoted
    else if s[0] == '\\' && quoted then |s| > 1 && Closed(s[2..], quoted)
    else if s[0] == '"' then Closed(s[1..], !quoted)
    else (s[0] != ';' || quoted) && Closed(s[1..], quoted)
  }

  lemma {:induction false} SplitClosed(s: string, rest: string, cur: string, quoted: bool)
    requires Closed(s, quoted)
    ensures SplitFrom(s + rest, cur, quoted) == SplitFrom(rest, cur + s, false)
    decreases |s|
  {
    if s == "" {
      assert s + rest == rest && cur + s == cur;
    } else if s[0] == '\\' && quoted {
      assert (s + rest)[2..] == s[2..] + rest && (s + rest)[..2] == s[..2];
      assert cur + s[..2] + s[2..] == cur + s;
      SplitClosed(s[2..], rest, cur + s[..2], quoted);
    } else {
      assert (s + rest)[1..] == s[1..] + rest;
      assert cur + [s[0]] + s[1..] == cur + s;
      SplitClosed(s[1..], rest, cur + [s[0]], if s[0] == '"' then !quoted else quoted);
    }
  }

  lemma {:induction false} ClosedConcat(a: string, b: string, quoted: bool)
    requires Closed(a, quoted) && Closed(b, false)
    ensures Closed(a + b, quoted)
    decreases |a|
  {
    if a == "" {
      assert a + b == b;
    } else if a[0] == '\\' && quoted {
      assert (a + b)[2..] == a[2..] + b;
      ClosedConcat(a[2..], b, quoted);
    } else {
      assert (a + b)[1..] == a[1..] + b;
      ClosedConcat(a[1..], b, if a[0] == '"' then !quoted else quoted);
    }
  }

  lemma {:induction false} ClosedPlain(s: string)
    requires forall i :: 0 <= i < |s| ==> s[i] != ';' && s[i] != '"'
    ensures Closed(s, false)
  {
    if s != "" {
      ClosedPlain(s[1..]);
    }
  }

  lemma {:induction false} ClosedEscaped(v: string)
    ensures Closed(Escape(v) + "\"", true)
  {
    var t := Escape(v) + "\"";
    if v == "" {
      assert t[1..] == "";
    } else {
      var u := Escape(v[1..]) + "\"";
      ClosedEscaped(v[1..]);
      if v[0] == '\\' || v[0] == '"' {
        assert t == ['\\', v[0]] + u && t[2..] == u;
      } else {
        assert t == [v[0]] + u && t[1..] == u;
      }
    }
  }

  lemma ClosedQuoted(v: string)
    ensures Closed("\"" + Escape(v) + "\"", false)
  {
    hide Escape;
    assert ("\"" + Escape(v) + "\"")[1..] == Escape(v) + "\"";
    ClosedEscaped(v);
  }

  lemma {:induction false} DropBackslashesEscape(v: string)
    requires OneLine(v)
    ensures DropBackslashes(Escape(v)) == v
  {
    if v != "" {
      var t, u := Escape(v), Escape(v[1..]);
      DropBackslashesEscape(v[1..]);
      assert v == [v[0]] + v[1..];
      if v[0] == '\\' || v[0] == '"' {
        assert t[2..] == u;
      } else {
        assert t[1..] == u;
      }
    }
  }

  lemma UnquoteQuoted(v: string)
    requires OneLine(v)
    ensures Unquote(Trim("\"" + Escape(v) + "\"")) == v
  {
    hide Escape, DropBackslashes;
    var q := "\"" + Escape(v) + "\"";
    assert Trim(q) == q;
    assert q[1..|q| - 1] == Escape(v);
    DropBackslashesEscape(v);
  }

  lemma {:induction false} EscapePlain(v: string)
    requires forall i :: 0 <= i < |v| ==> v[i] != '\\' && v[i] != '"'
    ensures Escape(v) == v
  {
    if v != "" {
      EscapePlain(v[1..]);
    }
  }

  /** The key and the value of the segment `key=val`, with the space the joining puts before it. */
  lemma SegmentParts(pre: string, key: string, val: string)
    requires pre == "" || pre == " "
    requires key != "" && forall i :: 0 <= i < |key| ==> LowerChar(key[i]) == key[i] && !IsSpace(key[i]) && key[i] != '='
    ensures var seg := pre + key + "=" + val;
            Find(seg, "=", 0) == |pre| + |key|
            && Lower(Trim(seg[..|pre| + |key|])) == key && seg[|pre| + |key| + 1..] == val
  {
    hide Trim, Lower, Find;
    var seg := pre + key + "=" + val;
    var eq := |pre| + |key|;
    assert seg[eq..eq + 1] == "=";
    forall k | 0 <= k < eq ensures !At(seg, k, "=") {
      assert seg[k..k + 1] == [seg[k]];
      assert seg[k] == if k < |pre| then ' ' else key[k - |pre|];
    }
    FindIs(seg, "=", 0, eq);
    assert seg[..eq] == pre + key;
    TrimKey(pre, key);
    assert Lower(key) == key;
  }

  lemma TrimKey(pre: string, key: string)
    requires pre == "" || pre == " "
    requires key != "" && !IsSpace(key[0]) && !IsSpace(key[|key| - 1])
    ensures Trim(pre + key) == key
  {
    assert TrimStart(key) == key && TrimEnd(key) == key;
    if pre == " " {
      assert (pre + key)[1..] == key;
      assert TrimStart(pre + key) == key;
    } else {
      assert pre + key == key;
    }
  }

  lemma FindStar(name: string, rest: string)
    requires ParamName(name)
    ensures Find(name + "*" + rest, "*", 0) == |name|
    ensures Find(name, "*", 0) == -1
  {
    var s := name + "*" + rest;
    assert s[|name|..|name| + 1] == "*";
    forall k | 0 <= k < |name| ensures !At(s, k, "*") && !At(name, k, "*") {
      assert s[k..k + 1] == [name[k]] && name[k..k + 1] == [name[k]];
    }
    FindIs(s, "*", 0, |name|);
    FindNone(name, "*", 0);
  }

  lemma ExtendedKeyOf(name: string, index: nat)
    requires ParamName(name)
    ensures ExtendedKey(name) == None
    ensures ExtendedKey(name + "*") == Some((name, 0))
    ensures ExtendedKey(name + "*" + Decimal(index) + "*") == Some((name, index))
  {
    hide Find, Decimal, DecimalValue;
    FindStar(name, "");
    assert name + "*" + "" == name + "*";
    assert (name + "*")[..|name|] == name && (name + "*")[|name| + 1..] == "";
    var rest := Decimal(index) + "*";
    FindStar(name, rest);
    var key := name + "*" + rest;
    assert key == name + "*" + Decimal(index) + "*";
    assert key[..|name|] == name && key[|name| + 1..] == rest;
    assert rest[..|rest| - 1] == Decimal(index);
    DecimalRoundTrip(index);
  }

  predicate KeyText(key: string) {
    key != "" && forall i :: 0 <= i < |key| ==> LowerChar(key[i]) == key[i] && !IsSpace(key[i]) && key[i] != '='
  }

  lemma AddKeyed(st: Segments, pre: string, key: string, val: string)
    requires (pre == "" || pre == " ") && KeyText(key)
    ensures var seg, v := pre + key + "=" + val, Unquote(Trim(val));
            AddSegment(st, seg) ==
              match ExtendedKey(key)
              case None => st.(simple := st.simple[key := v])
              case Some(e) =>
                var sofar := if e.0 in st.extended then st.extended[e.0] else [];
                st.(extended := st.extended[e.0 := sofar + [Piece(e.1, v, key[|key| - 1] == '*')]])
  {
    hide Trim, Lower, Find, ExtendedKey, Unquote;
    SegmentParts(pre, key, val);
  }

  lemma AddPlain(st: Segments, name: string, val: string)
    requires ParamName(name)
    ensures AddSegment(st, " " + (name + "=" + val)) == st.(simple := st.simple[name := Unquote(Trim(val))])
  {
    hide Trim, Unquote, ExtendedKey, AddSegment;
    ExtendedKeyOf(name, 0);
    AddKeyed(st, " ", name, val);
    assert " " + name + "=" + val == " " + (name + "=" + val);
  }

  predicate BareValue(val: string) {
    val != "" && !IsSpace(val[0]) && !IsSpace(val[|val| - 1]) && val[0] != '"'
  }

  lemma UnquoteBare(val: string)
    requires BareValue(val)
    ensures Unquote(Trim(val)) == val
  {
    assert TrimStart(val) == val && TrimEnd(val) == val;
  }

  lemma AddCoded(st: Segments, name: string, index: Option<nat>, val: string)
    requires ParamName(name) && BareValue(val)
    ensures var key := name + "*" + if index.None? then "" else Decimal(index.value) + "*";
            var sofar := if name in st.extended then st.extended[name] else [];
            var n := if index.None? then 0 else index.value;
            AddSegment(st, " " + (key + "=" + val))
              == st.(extended := st.extended[name := sofar + [Piece(n, val, true)]])
  {
    hide Trim, Unquote, ExtendedKey, AddSegment, Decimal, ParamName, BareValue, KeyText;
    var key := name + "*" + if index.None? then "" else Decimal(index.value) + "*";
    CodedKeyText(name, index);
    UnquoteBare(val);
    AddKeyed(st, " ", key, val);
    assert " " + key + "=" + val == " " + (key + "=" + val);
  }

  /** The key of an encoded segment. */
  lemma CodedKeyText(name: string, index: Option<nat>)
    requires ParamName(name)
    ensures var key := name + "*" + if index.None? then "" else Decimal(index.value) + "*";
            && KeyText(key) && key[|key| - 1] == '*'
            && ExtendedKey(key) == Some((name, if index.None? then 0 else index.value))
  {
    hide ExtendedKey, Decimal;
    var n := if index.None? then 0 else index.value;
    ExtendedKeyOf(name, n);
    DecimalRoundTrip(n);
    assert name + "*" + "" == name + "*";
    assert name + "*" + (Decimal(n) + "*") == name + "*" + Decimal(n) + "*";
  }

  lemma {:induction false} PctPlain(s: string)
    requires PctText(s)
    ensures forall i :: 0 <= i < |s| ==>
              '!' <= s[i] <= '~' && s[i] != ';' && s[i] != '"' && s[i] != '\'' && s[i] != '\\'
    decreases |s|
  {
    hide PercentDecode, PctText;
    if s != "" {
      var k := PctHead(s);
      PctPlain(s[k..]);
      HeadUnit(s);
      forall i | 0 <= i < |s|
        ensures '!' <= s[i] <= '~' && s[i] != ';' && s[i] != '"' && s[i] != '\'' && s[i] != '\\'
      {
        assert s[i] == if i < k then s[..k][i] else s[k..][i - k];
      }
    }
  }

  const UTF8_MARK := "UTF-8''"

  /** The pieces the continuations are read as. */
  function CodedPieces(segs: seq<string>, index: nat): seq<Piece> {
    if segs == [] then []
    else [Piece(index, (if index == 0 then UTF8_MARK else "") + segs[0], true)] + CodedPieces(segs[1..], index + 1)
  }

  predicate PctSegments(segs: seq<string>) {
    forall i :: 0 <= i < |segs| ==> segs[i] != "" && PctText(segs[i])
  }

  function Spaced(ps: seq<string>): (r: seq<string>)
    ensures |r| == |ps| && forall i :: 0 <= i < |ps| ==> r[i] == " " + ps[i]
  {
    seq(|ps|, i requires 0 <= i < |ps| => " " + ps[i])
  }

  /** AddSegments of pieces with the space the joining puts before each. */
  function AddSpaced(st: Segments, ps: seq<string>): Segments
    decreases |ps|
  {
    if ps == [] then st else AddSpaced(AddSegment(st, " " + ps[0]), ps[1..])
  }

  lemma {:induction false} AddSpacedIs(st: Segments, ps: seq<string>)
    ensures AddSegments(st, Spaced(ps)) == AddSpaced(st, ps)
    decreases |ps|
  {
    hide AddSegment;
    if ps != [] {
      assert Spaced(ps)[1..] == Spaced(ps[1..]);
      AddSpacedIs(AddSegment(st, " " + ps[0]), ps[1..]);
    }
  }

  lemma AddSpacedOne(st: Segments, p: string)
    ensures AddSpaced(st, [p]) == AddSegment(st, " " + p)
  {
    hide AddSegment;
    assert [p][1..] == [];
  }

  lemma {:induction false} AddSpacedConcat(st: Segments, a: seq<string>, b: seq<string>)
    ensures AddSpaced(st, a + b) == AddSpaced(AddSpaced(st, a), b)
    decreases |a|
  {
    hide AddSegment;
    if a == [] {
      assert a + b == b;
    } else {
      assert (a + b)[1..] == a[1..] + b;
      AddSpacedConcat(AddSegment(st, " " + a[0]), a[1..], b);
    }
  }

  lemma BareCoded(index: nat, seg: string)
    requires seg != "" && PctText(seg)
    ensures BareValue((if index == 0 then UTF8_MARK else "") + seg)
  {
    PctPlain(seg);
  }

  lemma {:induction false} AddContinuations(st: Segments, name: string, segs: seq<string>, index: nat)
    requires ParamName(name) && PctSegments(segs) && segs != []
    ensures var sofar := if name in st.extended then st.extended[name] else [];
            AddSpaced(st, Continuations(name, segs, index))
              == st.(extended := st.extended[name := sofar + CodedPieces(segs, index)])
    decreases |segs|
  {
    hide PctText, ParamName, AddSpaced, Continuation, PieceOf, PctSegments;
    var sofar := if name in st.extended then st.extended[name] else [];
    var c, piece, more := Continuation(name, index, segs[0]), PieceOf(index, segs[0]), segs[1..];
    ContinuationsUnfold(name, segs, index);
    PctSegmentsTail(segs);
    AddContinuation(st, name, segs[0], index);
    var st1 := st.(extended := st.extended[name := sofar + [piece]]);
    if more != [] {
      AddContinuations(st1, name, more, index + 1);
      AddSpacedConcat(st, [c], Continuations(name, more, index + 1));
      Assoc(sofar, [piece], CodedPieces(more, index + 1));
    }
  }

  function PieceOf(index: nat, seg: string): Piece {
    Piece(index, (if index == 0 then UTF8_MARK else "") + seg, true)
  }

  lemma PctSegmentsTail(segs: seq<string>)
    requires PctSegments(segs) && segs != []
    ensures PctSegments(segs[1..]) && PctSegments([segs[0]])
  {
  }

  lemma ContinuationsUnfold(name: string, segs: seq<string>, index: nat)
    requires segs != []
    ensures Continuations(name, segs, index)
            == [Continuation(name, index, segs[0])] + Continuations(name, segs[1..], index + 1)
    ensures CodedPieces(segs, index) == [PieceOf(index, segs[0])] + CodedPieces(segs[1..], index + 1)
    ensures segs[1..] == [] ==> Continuations(name, segs, index) == [Continuation(name, index, segs[0])]
    ensures segs[1..] == [] ==> CodedPieces(segs, index) == [PieceOf(index, segs[0])]
  {
  }

  lemma AddContinuation(st: Segments, name: string, seg: string, index: nat)
    requires ParamName(name) && PctSegments([seg])
    ensures var sofar := if name in st.extended then st.extended[name] else [];
            AddSpaced(st, [Continuation(name, index, seg)])
            == st.(extended := st.extended[name := sofar + [PieceOf(index, seg)]])
  {
    hide AddSegment, PctText, Decimal, ParamName, AddSpaced;
    var val := (if index == 0 then UTF8_MARK else "") + seg;
    assert PctText([seg][0]);
    BareCoded(index, seg);
    AddCoded(st, name, Some(index), val);
    assert Continuation(name, index, seg) == name + "*" + (Decimal(index) + "*") + "=" + val;
    AddSpacedOne(st, Continuation(name, index, seg));
  }

  lemma {:induction false} SplitPctSegments(s: string, max: nat)
    requires PctText(s) && max >= 3
    ensures PctSegments(SplitPct(s, max)) && (s != "" ==> SplitPct(s, max) != [])
    ensures Flat(SplitPct(s, max)) == s
    ensures forall i :: 0 <= i < |SplitPct(s, max)| ==> |SplitPct(s, max)[i]| <= max
    decreases |s|
  {
    hide PctText, CutAt;
    if s != "" {
      var e := CutAt(s, max);
      SplitPctSegments(s[e..], max);
      assert s[..e] + s[e..] == s;
    }
  }

  /** Pieces in index order are already sorted. */
  lemma {:induction false} SortSorted(ps: seq<Piece>)
    requires forall i, j :: 0 <= i < j < |ps| ==> ps[i].index <= ps[j].index
    ensures SortPieces(ps) == ps
    decreases |ps|
  {
    if ps != [] {
      var init, last := ps[..|ps| - 1], ps[|ps| - 1];
      SortSorted(init);
      InsertLast(last, init);
      assert init + [last] == ps;
    }
  }

  lemma {:induction false} InsertLast(p: Piece, ps: seq<Piece>)
    requires forall i :: 0 <= i < |ps| ==> ps[i].index <= p.index
    ensures Insert(p, ps) == ps + [p]
  {
    if ps != [] {
      InsertLast(p, ps[1..]);
      assert [ps[0]] + (ps[1..] + [p]) == ps + [p];
    }
  }

  lemma {:induction false} CodedPiecesShape(segs: seq<string>, index: nat)
    requires PctSegments(segs)
    ensures |CodedPieces(segs, index)| == |segs|
    ensures forall i :: 0 <= i < |segs| ==> CodedPieces(segs, index)[i].index == index + i
    ensures index > 0 ==> PieceBytes(CodedPieces(segs, index)) == PercentDecode(Flat(segs))
    decreases |segs|
  {
    hide PctText;
    if segs != [] {
      CodedPiecesShape(segs[1..], index + 1);
      FlatPct(segs[1..]);
      PctConcat(segs[0], Flat(segs[1..]));
      assert "" + segs[0] == segs[0];
    }
  }

  lemma {:induction false} FlatPct(segs: seq<string>)
    requires PctSegments(segs)
    ensures PctText(Flat(segs))
  {
    if segs == [] {
      PctNothing();
    } else {
      FlatPct(segs[1..]);
      PctConcat(segs[0], Flat(segs[1..]));
    }
  }

  lemma CharsetOf(v: string)
    requires PctText(v)
    ensures CharsetSplit(UTF8_MARK + v) == ("UTF-8", v)
  {
    hide PctText, Find;
    PctPlain(v);
    var t := UTF8_MARK + v;
    assert t[5..6] == "'" && t[6..7] == "'" && t[7..] == v && t[..5] == "UTF-8";
    forall k | 0 <= k < 5 ensures !At(t, k, "'") {
      assert t[k..k + 1] == [t[k]];
    }
    FindIs(t, "'", 0, 5);
    FindIs(t, "'", 6, 6);
  }

  /** Any split of a percent-encoded text into whole triplets is put together again. */
  lemma AssembleCoded(segs: seq<string>)
    requires PctSegments(segs) && segs != []
    ensures Assemble(CodedPieces(segs, 0)) == Coded("UTF-8", PercentDecode(Flat(segs)))
  {
    hide PctText, CharsetSplit;
    var ps := CodedPieces(segs, 0);
    CodedPiecesShape(segs, 0);
    SortSorted(ps);
    CharsetOf(segs[0]);
    CodedPiecesShape(segs[1..], 1);
    assert ps[1..] == CodedPieces(segs[1..], 1);
    var first := ps[0].(value := segs[0]);
    assert ([first] + ps[1..])[1..] == ps[1..];
    FlatPct(segs[1..]);
    PctConcat(segs[0], Flat(segs[1..]));
  }

  /** What a parameter reads back as. */
  function Expected(value: string, utf8: string -> string): ParamValue {
    var v := Sanitize(value);
    if NeedsEncoding(v) then Coded("UTF-8", utf8(v)) else Plain(v)
  }

  lemma PlainValue(v: string)
    requires !NeedsEncoding(v)
    ensures OneLine(v)
    ensures IsToken(v) ==> BareValue(v) && Unquote(Trim(v)) == v
  {
    assert forall i :: 0 <= i < |v| ==> Ascii(v[i]);
    if IsToken(v) {
      UnquoteBare(v);
    }
  }

  lemma AddPlainParam(st: Segments, name: string, value: string, utf8: string -> string, nfkd: string -> string)
    requires ParamName(name) && Bytes(utf8(Sanitize(value))) && !NeedsEncoding(Sanitize(value))
    ensures AddSpaced(st, ParamPieces(name, value, utf8, nfkd))
            == st.(simple := st.simple[name := Sanitize(value)])
  {
    hide Sanitize, NeedsEncoding, AddSegment, AddSpaced, Escape, Trim, Unquote;
    var v := Sanitize(value);
    var ps := ParamPieces(name, value, utf8, nfkd);
    PlainValue(v);
    var val := if IsToken(v) && |v| <= 60 then v else "\"" + Escape(v) + "\"";
    if !(IsToken(v) && |v| <= 60) {
      UnquoteQuoted(v);
    }
    AddPlain(st, name, val);
    assert name + "=\"" + Escape(v) + "\"" == name + "=" + ("\"" + Escape(v) + "\"");
    AddSpacedOne(st, name + "=" + val);
  }

  /** The ASCII fallback is read as a plain value, which the encoded pieces then override. */
  lemma AddFallback(st: Segments, name: string, text: string)
    requires ParamName(name) && OneLine(text)
    requires forall i :: 0 <= i < |text| ==> text[i] != '\\' && text[i] != '"'
    ensures AddSpaced(st, [name + "=\"" + text + "\""]) == st.(simple := st.simple[name := text])
  {
    hide AddSegment, AddSpaced, Escape, Trim, Unquote;
    EscapePlain(text);
    UnquoteQuoted(text);
    var val := "\"" + text + "\"";
    AddPlain(st, name, val);
    AddSpacedOne(st, name + "=" + val);
    assert name + "=" + val == name + "=\"" + text + "\"";
  }

  function CodedSegments(encoded: string): (segs: seq<string>)
    requires PctText(encoded)
  {
    if |encoded| <= 60 then [encoded] else SplitPct(encoded, 60)
  }

  lemma AddShort(st: Segments, name: string, encoded: string)
    requires ParamName(name) && PctText(encoded) && encoded != "" && name !in st.extended
    ensures Assemble(CodedPieces([encoded], 0)) == Coded("UTF-8", PercentDecode(encoded))
    ensures AddSpaced(st, [name + "*=UTF-8''" + encoded])
            == st.(extended := st.extended[name := CodedPieces([encoded], 0)])
  {
    hide AddSegment, AddSpaced, PctText, Assemble, ParamName;
    AssembleCoded([encoded]);
    assert [encoded][1..] == [];
    assert Flat([encoded]) == encoded;
    CodedOne(encoded);
    BareCoded(0, encoded);
    AddCoded(st, name, None, UTF8_MARK + encoded);
    assert name + "*" + "" + "=" + (UTF8_MARK + encoded) == name + "*=UTF-8''" + encoded;
    AddSpacedOne(st, name + "*=UTF-8''" + encoded);
  }

  lemma AddEncoded(st: Segments, name: string, encoded: string)
    requires ParamName(name) && PctText(encoded) && encoded != "" && name !in st.extended
    ensures Assemble(CodedPieces(CodedSegments(encoded), 0)) == Coded("UTF-8", PercentDecode(encoded))
    ensures AddSpaced(st, if |encoded| <= 60 then [name + "*=UTF-8''" + encoded]
                          else Continuations(name, SplitPct(encoded, 60), 0))
            == st.(extended := st.extended[name := CodedPieces(CodedSegments(encoded), 0)])
  {
    hide AddSegment, AddSpaced, PctText, Assemble, Continuations, ParamName, CodedPieces;
    if |encoded| <= 60 {
      AddShort(st, name, encoded);
    } else {
      var segs := SplitPct(encoded, 60);
      SplitPctSegments(encoded, 60);
      AssembleCoded(segs);
      AddContinuations(st, name, segs, 0);
      assert [] + CodedPieces(segs, 0) == CodedPieces(segs, 0);
    }
  }

  lemma AddCodedParam(st: Segments, name: string, value: string, utf8: string -> string, nfkd: string -> string)
    returns (pieces: seq<Piece>, text: string)
    requires ParamName(name) && Bytes(utf8(Sanitize(value))) && NeedsEncoding(Sanitize(value))
    requires utf8(Sanitize(value)) != "" && name !in st.extended
    ensures Assemble(pieces) == Coded("UTF-8", utf8(Sanitize(value)))
    ensures AddSpaced(st, ParamPieces(name, value, utf8, nfkd))
            == Segments(st.simple[name := text], st.extended[name := pieces])
  {
    hide Sanitize, NeedsEncoding, AddSegment, AddSpaced, PctText, PctEncode, Assemble, Continuations;
    var v := Sanitize(value);
    var encoded := PctEncode(utf8(v));
    PctEncodeText(utf8(v));
    PctEncodeSome(utf8(v));
    text := Fallback(nfkd(v));
    pieces := CodedPieces(CodedSegments(encoded), 0);
    AddFallback(st, name, text);
    var st1 := st.(simple := st.simple[name := text]);
    AddEncoded(st1, name, encoded);
    AddSpacedConcat(st, [name + "=\"" + text + "\""],
                    if |encoded| <= 60 then [name + "*=UTF-8''" + encoded]
                    else Continuations(name, SplitPct(encoded, 60), 0));
  }

  lemma CodedOne(seg: string)
    ensures CodedPieces([seg], 0) == [Piece(0, UTF8_MARK + seg, true)]
    ensures [] + CodedPieces([seg], 0) == CodedPieces([seg], 0)
  {
    assert [seg][1..] == [];
    assert CodedPieces([seg][1..], 1) == [];
  }

  lemma PctEncodeSome(b: string)
    requires Bytes(b) && b != ""
    ensures PctEncode(b) != ""
  {
  }

  /** Each piece of a parameter is closed: it can be cut off at the separator after it. */
  lemma PiecesClosed(name: string, value: string, utf8: string -> string, nfkd: string -> string)
    requires ParamName(name) && Bytes(utf8(Sanitize(value)))
    ensures forall i :: 0 <= i < |ParamPieces(name, value, utf8, nfkd)| ==>
              Closed(ParamPieces(name, value, utf8, nfkd)[i], false)
  {
    hide Sanitize, NeedsEncoding, Escape, PctText, Closed, PctEncode;
    var v := Sanitize(value);
    var ps := ParamPieces(name, value, utf8, nfkd);
    if !NeedsEncoding(v) {
      if IsToken(v) && |v| <= 60 {
        ClosedPlain(name + "=" + v);
      } else {
        ClosedAssigned(name, v);
      }
    } else {
      var encoded := PctEncode(utf8(v));
      PctEncodeText(utf8(v));
      EscapePlain(Fallback(nfkd(v)));
      ClosedAssigned(name, Fallback(nfkd(v)));
      if |encoded| <= 60 {
        PctPlain(encoded);
        ClosedPlain(name + "*=UTF-8''" + encoded);
      } else {
        SplitPctSegments(encoded, 60);
        ClosedContinuations(name, SplitPct(encoded, 60), 0);
      }
    }
  }

  lemma ClosedAssigned(name: string, v: string)
    requires ParamName(name)
    ensures Closed(name + "=\"" + Escape(v) + "\"", false)
  {
    hide Escape, Closed;
    ClosedPlain(name + "=");
    ClosedQuoted(v);
    ClosedConcat(name + "=", "\"" + Escape(v) + "\"", false);
    assert name + "=" + ("\"" + Escape(v) + "\"") == name + "=\"" + Escape(v) + "\"";
  }

  lemma {:induction false} ClosedContinuations(name: string, segs: seq<string>, index: nat)
    requires ParamName(name) && PctSegments(segs)
    ensures forall i :: 0 <= i < |Continuations(name, segs, index)| ==>
              Closed(Continuations(name, segs, index)[i], false)
    decreases |segs|
  {
    hide PctText, Closed, Decimal;
    if segs != [] {
      PctPlain(segs[0]);
      ClosedPlain(Continuation(name, index, segs[0]));
      ClosedContinuations(name, segs[1..], index + 1);
    }
  }

  // ---- Round trip: a whole header value ----------------------------------------------

  datatype Param = Param(name: string, value: string)

  /** The formatted parameters; empty values are left out. */
  function Formatted(params: seq<Param>, utf8: string -> string, nfkd: string -> string): seq<string>
    requires forall v :: Bytes(utf8(v))
  {
    if params == [] then []
    else (if params[0].value == "" then [] else [FormatParam(params[0].name, params[0].value, utf8, nfkd)])
         + Formatted(params[1..], utf8, nfkd)
  }

  function WithParams(value: string, params: seq<Param>, utf8: string -> string, nfkd: string -> string): string
    requires forall v :: Bytes(utf8(v))
  {
    Join([value] + Formatted(params, utf8, nfkd), "; ")
  }

  function AllPieces(params: seq<Param>, utf8: string -> string, nfkd: string -> string): seq<string>
    requires forall v :: Bytes(utf8(v))
  {
    if params == [] then []
    else (if params[0].value == "" then [] else ParamPieces(params[0].name, params[0].value, utf8, nfkd))
         + AllPieces(params[1..], utf8, nfkd)
  }

  function ExpectedAll(params: seq<Param>, utf8: string -> string): map<string, ParamValue> {
    if params == [] then map[]
    else (if params[0].value == "" then map[] else map[params[0].name := Expected(params[0].value, utf8)])
         + ExpectedAll(params[1..], utf8)
  }

  predicate ProperParams(params: seq<Param>) {
    && (forall i :: 0 <= i < |params| ==> ParamName(params[i].name))
    && (forall i, j :: 0 <= i < j < |params| ==> params[i].name != params[j].name)
  }

  lemma ParamsUnfold(params: seq<Param>, utf8: string -> string, nfkd: string -> string)
    requires forall v :: Bytes(utf8(v))
    ensures params == [] ==>
              Formatted(params, utf8, nfkd) == [] && AllPieces(params, utf8, nfkd) == []
              && ExpectedAll(params, utf8) == map[]
    ensures params != [] && params[0].value == "" ==>
              && Formatted(params, utf8, nfkd) == Formatted(params[1..], utf8, nfkd)
              && AllPieces(params, utf8, nfkd) == AllPieces(params[1..], utf8, nfkd)
              && ExpectedAll(params, utf8) == ExpectedAll(params[1..], utf8)
    ensures params != [] && params[0].value != "" ==>
              var p, ps := params[0], ParamPieces(params[0].name, params[0].value, utf8, nfkd);
              && Formatted(params, utf8, nfkd) == [Join(ps, "; ")] + Formatted(params[1..], utf8, nfkd)
              && AllPieces(params, utf8, nfkd) == ps + AllPieces(params[1..], utf8, nfkd)
              && ExpectedAll(params, utf8) == map[p.name := Expected(p.value, utf8)] + ExpectedAll(params[1..], utf8)
  {
    hide ParamPieces, Join, Bytes, Expected;
    if params != [] && params[0].value == "" {
      NothingBefore(Formatted(params[1..], utf8, nfkd));
      NothingBefore(AllPieces(params[1..], utf8, nfkd));
    }
  }

  /** Joining formatted parameters is joining all their pieces. */
  lemma {:induction false} JoinPieces(head: seq<string>, params: seq<Param>, utf8: string -> string, nfkd: string -> string)
    requires head != [] && forall v :: Bytes(utf8(v))
    ensures Join([Join(head, "; ")] + Formatted(params, utf8, nfkd), "; ")
            == Join(head + AllPieces(params, utf8, nfkd), "; ")
    decreases |params|
  {
    hide ParamPieces, Join, Bytes, Formatted, AllPieces;
    var h := Join(head, "; ");
    ParamsUnfold(params, utf8, nfkd);
    if params == [] {
      NothingBefore(head);
      NothingBefore([h]);
      JoinOne(h, "; ");
    } else if params[0].value == "" {
      JoinPieces(head, params[1..], utf8, nfkd);
    } else {
      var f, a := Formatted(params[1..], utf8, nfkd), AllPieces(params[1..], utf8, nfkd);
      var ps := ParamPieces(params[0].name, params[0].value, utf8, nfkd);
      JoinPieces(head + ps, params[1..], utf8, nfkd);
      JoinConcat(head, ps, "; ");
      Assoc(head, ps, a);
      JoinPair(h, Join(ps, "; "), f, "; ");
      Assoc([h], [Join(ps, "; ")], f);
      assert [h] + [Join(ps, "; ")] == [h, Join(ps, "; ")];
    }
  }

  lemma JoinPair(a: string, b: string, more: seq<string>, sep: string)
    ensures Join([a, b] + more, sep) == Join([a + sep + b] + more, sep)
  {
    var l, r := [a, b] + more, [a + sep + b] + more;
    assert l[1..] == [b] + more && r[1..] == more && l[1..][1..] == more;
    if more != [] {
      assert a + sep + (b + sep + Join(more, sep)) == a + sep + b + sep + Join(more, sep);
    }
  }

  lemma {:induction false} SplitJoined(ps: seq<string>, cur: string)
    requires ps != [] && forall i :: 0 <= i < |ps| ==> Closed(ps[i], false)
    ensures SplitFrom(Join(ps, "; "), cur, false) == [cur + ps[0]] + Spaced(ps[1..])
    decreases |ps|
  {
    hide Closed, SplitFrom;
    SplitClosed(ps[0], "", cur, false);
    assert ps[0] + "" == ps[0];
    SplitEnd(cur + ps[0]);
    if |ps| > 1 {
      var rest := Join(ps[1..], "; ");
      SplitClosed(ps[0], "; " + rest, cur, false);
      assert ps[0] + "; " + rest == ps[0] + ("; " + rest);
      SplitAtSeparator(rest, cur + ps[0]);
      SplitJoined(ps[1..], " ");
      assert [" " + ps[1]] + Spaced(ps[1..][1..]) == Spaced(ps[1..]);
    } else {
      assert [cur + ps[0]] + Spaced(ps[1..]) == [cur + ps[0]];
    }
  }

  lemma SplitEnd(cur: string)
    ensures SplitFrom("", cur, false) == [cur]
  {
  }

  lemma SplitAtSeparator(rest: string, cur: string)
    ensures SplitFrom("; " + rest, cur, false) == [cur] + SplitFrom(rest, " ", false)
  {
    assert ("; " + rest)[1..] == " " + rest;
    assert (" " + rest)[1..] == rest && "" + " " == " ";
  }

  lemma FinishPlain(st: Segments, name: string, v: string)
    requires name !in st.extended
    ensures Finish(st.(simple := st.simple[name := v])) == Finish(st)[name := Plain(v)]
  {
    hide Assemble;
  }

  lemma FinishCoded(st: Segments, name: string, v: string, pieces: seq<Piece>)
    ensures Finish(Segments(st.simple[name := v], st.extended[name := pieces])) == Finish(st)[name := Assemble(pieces)]
  {
    hide Assemble;
  }

  lemma AddParam(st: Segments, p: Param, utf8: string -> string, nfkd: string -> string)
    returns (st1: Segments)
    requires ParamName(p.name) && (forall v :: Bytes(utf8(v))) && (forall v :: v != "" ==> utf8(v) != "")
    requires p.name !in st.extended && p.name !in st.simple
    ensures st1 == AddSpaced(st, ParamPieces(p.name, p.value, utf8, nfkd))
    ensures st1.simple.Keys == st.simple.Keys + {p.name}
    ensures st1.extended.Keys <= st.extended.Keys + {p.name}
    ensures Finish(st1) == Finish(st)[p.name := Expected(p.value, utf8)]
  {
    hide Sanitize, NeedsEncoding, AddSpaced, ParamPieces, Assemble, Bytes, ParamName, Finish;
    var v := Sanitize(p.value);
    if NeedsEncoding(v) {
      NeedsSome(v);
      var pieces, text := AddCodedParam(st, p.name, p.value, utf8, nfkd);
      st1 := Segments(st.simple[p.name := text], st.extended[p.name := pieces]);
      FinishCoded(st, p.name, text, pieces);
    } else {
      AddPlainParam(st, p.name, p.value, utf8, nfkd);
      st1 := st.(simple := st.simple[p.name := v]);
      FinishPlain(st, p.name, v);
    }
  }

  lemma NeedsSome(v: string)
    ensures NeedsEncoding(v) ==> v != ""
  {
  }

  lemma {:induction false} AddAll(st: Segments, params: seq<Param>, utf8: string -> string, nfkd: string -> string)
    requires ProperParams(params) && (forall v :: Bytes(utf8(v))) && (forall v :: v != "" ==> utf8(v) != "")
    requires forall i :: 0 <= i < |params| ==> params[i].name !in st.simple && params[i].name !in st.extended
    ensures Finish(AddSpaced(st, AllPieces(params, utf8, nfkd)))
            == Finish(st) + ExpectedAll(params, utf8)
    decreases |params|
  {
    hide ParamPieces, Finish, Expected, AddSpaced, ParamName, Bytes, AllPieces, ExpectedAll;
    ParamsUnfold(params, utf8, nfkd);
    if params == [] {
      AddSpacedNothing(st);
    } else {
      var p := params[0];
      if p.value == "" {
        AddAll(st, params[1..], utf8, nfkd);
      } else {
        var ps := ParamPieces(p.name, p.value, utf8, nfkd);
        var st1 := AddParam(st, p, utf8, nfkd);
        AddAll(st1, params[1..], utf8, nfkd);
        AddSpacedConcat(st, ps, AllPieces(params[1..], utf8, nfkd));
        UpdateThenAdd(Finish(st), p.name, Expected(p.value, utf8), ExpectedAll(params[1..], utf8));
      }
    }
  }

  lemma AddSpacedNothing(st: Segments)
    ensures AddSpaced(st, []) == st && Finish(st) + map[] == Finish(st)
  {
  }

  lemma UpdateThenAdd<K, V>(m: map<K, V>, k: K, v: V, n: map<K, V>)
    ensures m[k := v] + n == m + (map[k := v] + n)
  {
  }

  lemma {:induction false} AllClosed(params: seq<Param>, utf8: string -> string, nfkd: string -> string)
    requires ProperParams(params) && forall v :: Bytes(utf8(v))
    ensures forall i :: 0 <= i < |AllPieces(params, utf8, nfkd)| ==> Closed(AllPieces(params, utf8, nfkd)[i], false)
    decreases |params|
  {
    hide ParamPieces, Closed;
    if params != [] {
      AllClosed(params[1..], utf8, nfkd);
      if params[0].value != "" {
        PiecesClosed(params[0].name, params[0].value, utf8, nfkd);
      }
    }
  }

  /** The main value of a parameterised header. */
  predicate MainValue(value: string) {
    && Trimmed(value)
    && forall i :: 0 <= i < |value| ==> LowerChar(value[i]) == value[i] && value[i] != ';' && value[i] != '"'
  }

  /** Whatever the reader is given by withParams it reads back: the main value, plain values as they
      were, encoded ones as the UTF-8 bytes they stand for, whatever the ASCII fallback says. */
  lemma ParamsRoundTrip(value: string, params: seq<Param>, utf8: string -> string, nfkd: string -> string)
    requires MainValue(value) && ProperParams(params)
    requires (forall v :: Bytes(utf8(v))) && (forall v :: v != "" ==> utf8(v) != "")
    ensures ParseHeaderValue(WithParams(value, params, utf8, nfkd))
            == HeaderValue(value, ExpectedAll(params, utf8))
  {
    hide Finish, AddSegments, AddSpaced, AllPieces, ExpectedAll, Closed, SplitFrom, Join;
    var ps := AllPieces(params, utf8, nfkd);
    JoinOne(value, "; ");
    JoinPieces([value], params, utf8, nfkd);
    AllClosed(params, utf8, nfkd);
    ClosedPlain(value);
    var all := [value] + ps;
    SplitJoined(all, "");
    assert "" + all[0] == value && all[1..] == ps;
    var segs := SplitFrom(WithParams(value, params, utf8, nfkd), "", false);
    assert segs[0] == value && segs[1..] == Spaced(ps);
    TrimTrimmed(value);
    assert Lower(value) == value;
    AddSpacedIs(NONE, ps);
    AddAll(NONE, params, utf8, nfkd);
    FinishNone();
    assert map[] + ExpectedAll(params, utf8) == ExpectedAll(params, utf8);
  }

  lemma FinishNone()
    ensures Finish(NONE) == map[]
  {
  }

  lemma TrimTrimmed(s: string)
    requires Trimmed(s)
    ensures Trim(s) == s
  {
  }
}
