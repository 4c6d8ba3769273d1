/** Quoted-printable: the encoder of src/core/Message.ts and the decoder of src/core/MimeParser.ts. */
module QuotedPrintable {
  import opened Text

  /** Every line break becomes CRLF; everything else, lone CRs included, stays. */
  function NormalizeCrlf(b: string): string {
    if b == "" then ""
    else if Break(b) > 0 then CRLF + NormalizeCrlf(b[Break(b)..])
    else [b[0]] + NormalizeCrlf(b[1..])
  }

  /** Bare LF line breaks, as encodeQP makes them before it encodes. */
  function NormalizeLf(b: string): (r: string)
    ensures Bytes(b) ==> Bytes(r)
  {
    if b == "" then ""
    else if Break(b) > 0 then "\n" + NormalizeLf(b[Break(b)..])
    else [b[0]] + NormalizeLf(b[1..])
  }

  // ---- Encoding ----------------------------------------------------------------------

  predicate IsBlank(c: char) { c == ' ' || c == '\t' }

  /** `c` needs no escape when `rest` follows it. */
  predicate Literal(c: char, rest: string) {
    ('!' <= c <= '~' && c != '=') || (IsBlank(c) && rest != "" && Break(rest) == 0)
  }

  function Token(c: char, rest: string): string
    requires c as int < 256
  {
    if Literal(c, rest) then [c] else "=" + Hex2(c)
  }

  const CR_CRLF := "\r\r\n"

  const SOFT := "=\r\n"

  /** Encoding of `b` when `line` is already on the current output line. */
  function Enc(b: string, line: string): string
    requires Bytes(b)
    decreases |b|
  {
    if b == "" then line
    else if b[0] == '\r' && Break(b) == 2 then Enc(b[1..], line)
    else if b[0] == '\n' then line + CRLF + Enc(b[1..], "")
    else
      var tok := Token(b[0], b[1..]);
      if |line| + |tok| > 75 then line + SOFT + Enc(b[1..], tok) else Enc(b[1..], line + tok)
  }

  lemma EncUnfold(b: string, line: string)
    requires Bytes(b)
    ensures b == "" ==> Enc(b, line) == line
    ensures b != "" ==>
              Enc(b, line) ==
                if b[0] == '\r' && Break(b) == 2 then Enc(b[1..], line)
                else if b[0] == '\n' then line + CRLF + Enc(b[1..], "")
                else if |line| + |Token(b[0], b[1..])| > 75 then line + SOFT + Enc(b[1..], Token(b[0], b[1..]))
                else Enc(b[1..], line + Token(b[0], b[1..]))
  {
    hide Token, Break;
  }

  lemma AfterLine(out: string, line: string, end: string, rest: string)
    ensures out + (line + end + rest) == out + line + end + rest
  {
  }

  method EncodeQPBytes(buf: string) returns (s: string)
    requires Bytes(buf)
    ensures s == Enc(buf, "")
  {
    hide Enc, Hex2;
    var out, line := "", "";
    NothingBefore(Enc(buf, ""));
    assert buf[0..] == buf;
    for i := 0 to |buf|
      invariant Enc(buf, "") == out + Enc(buf[i..], line)
    {
      var b := buf[i];
      assert buf[i..][0] == b && buf[i..][1..] == buf[i + 1..];
      EncUnfold(buf[i..], line);
      if b == '\r' && i + 1 < |buf| && buf[i + 1] == '\n' { continue; }
      if b == '\n' {
        AfterLine(out, line, CRLF, Enc(buf[i + 1..], ""));
        out := out + line + CRLF;
        line := "";
        continue;
      }
      var atEol := i + 1 >= |buf| || buf[i + 1] == '\n'
        || (buf[i + 1] == '\r' && i + 2 < |buf| && buf[i + 2] == '\n');
      var printable := ('!' <= b <= '~' && b != '=') || ((b == ' ' || b == '\t') && !atEol);
      var tok := if printable then [b] else "=" + Hex2(b);
      assert tok == Token(b, buf[i + 1..]);
      if |line| + |tok| > 75 {
        AfterLine(out, line, SOFT, Enc(buf[i + 1..], tok));
        out := out + line + SOFT;
        line := "";
      }
      NothingBefore(tok);
      line := line + tok;
    }
    assert buf[|buf|..] == "";
    EncUnfold("", line);
    return out + line;
  }

  // ---- Decoding ----------------------------------------------------------------------

  /** Length of the run of blanks at the beginning of `s`. */
  function BlankRun(s: string): (n: nat)
    ensures n <= |s|
  {
    if s != "" && IsBlank(s[0]) then 1 + BlankRun(s[1..]) else 0
  }

  /** Blanks before a line break are dropped. */
  function StripBlanks(s: string): string
    decreases |s|
  {
    if s == "" then ""
    else
      var n := BlankRun(s);
      var k := Break(s[n..]);
      if n > 0 && k > 0 then s[n..n + k] + StripBlanks(s[n + k..])
      else [s[0]] + StripBlanks(s[1..])
  }

  /** Soft line breaks are dropped. */
  function JoinSoft(s: string): string
    decreases |s|
  {
    if s == "" then ""
    else if s[0] == '=' && Break(s[1..]) > 0 then JoinSoft(s[1 + Break(s[1..])..])
    else [s[0]] + JoinSoft(s[1..])
  }

  predicate Escape(s: string) { |s| >= 3 && s[0] == '=' && IsHex(s[1]) && IsHex(s[2]) }

  function Unescape(s: string): string {
    if s == "" then ""
    else if Escape(s) then [Unhex2(s[1], s[2])] + Unescape(s[3..])
    else [(s[0] as int % 256) as char] + Unescape(s[1..])
  }

  function Decode(raw: string): string {
    Unescape(JoinSoft(StripBlanks(raw)))
  }

  lemma UnescapeUnfold(s: string)
    ensures s == "" ==> Unescape(s) == ""
    ensures s != "" ==>
              Unescape(s) == if Escape(s) then [Unhex2(s[1], s[2])] + Unescape(s[3..])
                             else [(s[0] as int % 256) as char] + Unescape(s[1..])
  {
    hide Unhex2;
  }

  method DecodeQuotedPrintable(raw: string) returns (bytes: string)
    ensures bytes == Decode(raw)
  {
    hide StripBlanks, JoinSoft, Unescape, Unhex2;
    var s := JoinSoft(StripBlanks(raw));
    assert s[0..] == s;
    NothingBefore(Unescape(s));
    var out := new char[|s|];
    var n, i := 0, 0;
    while i < |s|
      invariant n <= i <= |s|
      invariant out[..n] + Unescape(s[i..]) == Unescape(s)
    {
      var c := s[i];
      ghost var before, rest := out[..n], s[i..];
      assert rest[1..] == s[i + 1..];
      UnescapeUnfold(rest);
      if c == '=' && i + 2 < |s| && IsHex(s[i + 1]) && IsHex(s[i + 2]) {
        assert rest[3..] == s[i + 3..];
        out[n] := Unhex2(s[i + 1], s[i + 2]);
        i := i + 2;
      } else {
        out[n] := (c as int % 256) as char;
      }
      assert out[..n + 1] == before + [out[n]];
      n, i := n + 1, i + 1;
      Assoc(before, [out[n - 1]], Unescape(s[i..]));
    }
    assert s[i..] == "";
    UnescapeUnfold("");
    NothingBefore(out[..n]);
    return out[..n];
  }

  // ---- Round trip --------------------------------------------------------------------

  /** Text made of tokens: escapes, and characters that stand for themselves. */
  predicate Tokens(x: string) {
    x == ""
    || (x[0] != '=' && x[0] != '\r' && x[0] != '\n' && x[0] as int < 256 && Tokens(x[1..]))
    || (Escape(x) && Tokens(x[3..]))
  }

  lemma {:induction false} TokensAppend(x: string, y: string)
    requires Tokens(x) && Tokens(y)
    ensures Tokens(x + y)
  {
    if x == "" {
      assert x + y == y;
    } else if x[0] == '=' {
      assert (x + y)[3..] == x[3..] + y;
      TokensAppend(x[3..], y);
    } else {
      assert (x + y)[1..] == x[1..] + y;
      TokensAppend(x[1..], y);
    }
  }

  lemma TokenTokens(c: char, rest: string)
    requires c as int < 256 && Break([c] + rest) == 0
    ensures Tokens(Token(c, rest)) && 1 <= |Token(c, rest)| <= 3
    ensures Unescape(Token(c, rest)) == [c]
  {
    var t := Token(c, rest);
    if Literal(c, rest) {
      assert t[1..] == "";
    } else {
      assert t[3..] == "";
      assert Escape(t);
    }
  }

  /** A line whose last character may stand before what follows. */
  predicate EndsFirm(x: string) { x == "" || !IsBlank(x[|x| - 1]) }

  /** Length of the first token. */
  function TokenLength(x: string): (k: nat)
    requires Tokens(x) && x != ""
    ensures 1 <= k <= |x| && Tokens(x[k..])
    ensures k == 1 || (k == 3 && Escape(x))
    ensures k == 1 ==> x[0] != '=' && x[0] != '\r' && x[0] != '\n'
  {
    if x[0] == '=' then 3 else 1
  }

  lemma {:induction false} StripAfterTokens(x: string, y: string)
    requires Tokens(x) && (EndsFirm(x) || (BlankRun(y) == 0 && Break(y) == 0))
    ensures StripBlanks(x + y) == x + StripBlanks(y)
    decreases |x|
  {
    hide BlankRun, Break, StripBlanks, Tokens;
    if x == "" {
      assert x + y == y;
    } else {
      var k := TokenLength(x);
      var tail := x[k..];
      assert (x + y)[k..] == tail + y;
      assert tail != "" ==> tail[|tail| - 1] == x[|x| - 1];
      StripAfterTokens(tail, y);
      assert (x + y)[..k] == x[..k];
      if k == 3 {
        StripEscape(x + y);
      } else {
        RunStaysInside(x, y);
        StripFirm(x + y);
      }
      assert x + StripBlanks(y) == x[..k] + (tail + StripBlanks(y));
    }
  }

  lemma StripFirm(s: string)
    requires s != "" && Break(s[BlankRun(s)..]) == 0
    ensures StripBlanks(s) == [s[0]] + StripBlanks(s[1..])
  {
  }

  lemma StripEscape(s: string)
    requires Escape(s)
    ensures StripBlanks(s) == s[..3] + StripBlanks(s[3..])
  {
    hide StripBlanks;
    StripOne(s);
    StripOne(s[1..]);
    StripOne(s[1..][1..]);
    assert s[1..][1..][1..] == s[3..];
    assert s[..3] == [s[0]] + ([s[1]] + [s[2]]);
    assert s[..3] + StripBlanks(s[3..]) == [s[0]] + ([s[1]] + ([s[2]] + StripBlanks(s[3..])));
  }

  lemma StripOne(s: string)
    requires s != "" && !IsBlank(s[0])
    ensures StripBlanks(s) == [s[0]] + StripBlanks(s[1..])
  {
  }

  lemma {:induction false} RunStaysInside(x: string, y: string)
    requires Tokens(x) && x != "" && (EndsFirm(x) || (BlankRun(y) == 0 && Break(y) == 0))
    ensures Break((x + y)[BlankRun(x + y)..]) == 0
  {
    if IsBlank(x[0]) {
      assert (x + y)[1..] == x[1..] + y;
      if |x| == 1 {
        assert x[1..] + y == y;
        assert y[0..] == y;
      } else {
        assert x[1..][|x[1..]| - 1] == x[|x| - 1];
        RunStaysInside(x[1..], y);
        assert (x + y)[BlankRun(x + y)..] == (x[1..] + y)[BlankRun(x[1..] + y)..];
      }
    } else {
      assert (x + y)[0..] == x + y;
    }
  }

  lemma {:induction false} JoinAfterTokens(x: string, y: string)
    requires Tokens(x)
    ensures JoinSoft(x + y) == x + JoinSoft(y)
    decreases |x|
  {
    hide JoinSoft, Tokens, Break;
    if x == "" {
      NothingBefore(y);
      NothingBefore(JoinSoft(y));
    } else {
      var k := TokenLength(x);
      var tail := x[k..];
      assert (x + y)[k..] == tail + y;
      assert (x + y)[..k] == x[..k];
      JoinAfterTokens(tail, y);
      if k == 3 {
        JoinEscape(x + y);
      } else {
        JoinOne(x + y);
      }
      Assoc(x[..k], tail, JoinSoft(y));
      assert x[..k] + tail == x;
    }
  }

  lemma JoinEscape(s: string)
    requires Escape(s)
    ensures JoinSoft(s) == s[..3] + JoinSoft(s[3..])
  {
    hide JoinSoft;
    JoinOne(s);
    JoinOne(s[1..]);
    JoinOne(s[1..][1..]);
    assert s[1..][1..][1..] == s[3..];
    assert s[..3] + JoinSoft(s[3..]) == [s[0]] + ([s[1]] + ([s[2]] + JoinSoft(s[3..])));
  }

  lemma JoinOne(s: string)
    requires s != "" && (s[0] != '=' || Break(s[1..]) == 0)
    ensures JoinSoft(s) == [s[0]] + JoinSoft(s[1..])
  {
  }

  lemma {:induction false} UnescapeAfterTokens(x: string, y: string)
    requires Tokens(x)
    ensures Unescape(x + y) == Unescape(x) + Unescape(y)
    decreases |x|
  {
    if x == "" {
      assert x + y == y;
    } else if x[0] == '=' {
      assert (x + y)[3..] == x[3..] + y;
      UnescapeAfterTokens(x[3..], y);
    } else {
      assert (x + y)[1..] == x[1..] + y;
      UnescapeAfterTokens(x[1..], y);
    }
  }

  /** The text `Enc` writes, before it is cut into lines. */
  function Unbroken(b: string): string
    requires Bytes(b)
  {
    if b == "" then ""
    else if b[0] == '\r' && Break(b) == 2 then Unbroken(b[1..])
    else if b[0] == '\n' then CRLF + Unbroken(b[1..])
    else Token(b[0], b[1..]) + Unbroken(b[1..])
  }

  /** The line so far is made of tokens and does not end in a blank before a line break. */
  predicate LineOk(line: string, b: string) {
    Tokens(line) && (EndsFirm(line) || (b != "" && Break(b) == 0))
  }

  lemma LineOkToken(line: string, b: string)
    requires Bytes(b) && b != "" && Break(b) == 0 && Tokens(line)
    ensures LineOk(line + Token(b[0], b[1..]), b[1..])
  {
    hide Tokens;
    assert [b[0]] + b[1..] == b;
    TokenTokens(b[0], b[1..]);
    TokensAppend(line, Token(b[0], b[1..]));
    var t := Token(b[0], b[1..]);
    assert (line + t)[|line + t| - 1] == t[|t| - 1];
  }

  lemma StripNewline(y: string)
    ensures StripBlanks(CRLF + y) == CRLF + StripBlanks(y)
  {
    assert (CRLF + y)[1..][1..] == y;
    StripOne(CRLF + y);
    StripOne((CRLF + y)[1..]);
    assert CRLF + StripBlanks(y) == ['\r'] + (['\n'] + StripBlanks(y));
  }

  lemma JoinNewline(y: string)
    ensures JoinSoft(CRLF + y) == CRLF + JoinSoft(y)
  {
    assert (CRLF + y)[1..][1..] == y;
    JoinOne(CRLF + y);
    JoinOne((CRLF + y)[1..]);
    assert CRLF + JoinSoft(y) == ['\r'] + (['\n'] + JoinSoft(y));
  }

  /** The decoder's first two passes undo the line cutting, and only that. */
  lemma {:induction false} Unwraps(b: string, line: string)
    requires Bytes(b) && LineOk(line, b)
    ensures StripBlanks(Enc(b, line)) == Enc(b, line)
    ensures JoinSoft(Enc(b, line)) == line + Unbroken(b)
    decreases |b|
  {
    hide StripBlanks, JoinSoft, Tokens, Enc, Token;
    EncUnfold(b, line);
    if b == "" {
      UnwrapEmpty();
      StripAfterTokens(line, "");
      JoinAfterTokens(line, "");
      NothingBefore(line);
    } else if b[0] == '\r' && Break(b) == 2 {
      Unwraps(b[1..], line);
    } else if b[0] == '\n' {
      TokensEmpty();
      var rest := Enc(b[1..], "");
      Unwraps(b[1..], "");
      Assoc(line, CRLF, rest);
      StripAfterTokens(line, CRLF + rest);
      JoinAfterTokens(line, CRLF + rest);
      StripNewline(rest);
      JoinNewline(rest);
      NothingBefore(Unbroken(b[1..]));
      Assoc(line, CRLF, Unbroken(b[1..]));
    } else {
      var tok := Token(b[0], b[1..]);
      TokensEmpty();
      NothingBefore(tok);
      if |line| + |tok| > 75 {
        LineOkToken("", b);
        Unwraps(b[1..], tok);
        UnwrapSoft(line, Enc(b[1..], tok));
      } else {
        LineOkToken(line, b);
        Unwraps(b[1..], line + tok);
      }
      Assoc(line, tok, Unbroken(b[1..]));
    }
  }

  lemma TokensEmpty()
    ensures Tokens("") && EndsFirm("")
  {
  }

  lemma UnwrapEmpty()
    ensures StripBlanks("") == "" && JoinSoft("") == ""
  {
  }

  lemma UnwrapSoft(line: string, rest: string)
    requires Tokens(line)
    ensures StripBlanks(rest) == rest ==> StripBlanks(line + SOFT + rest) == line + SOFT + rest
    ensures JoinSoft(line + SOFT + rest) == line + JoinSoft(rest)
  {
    hide Tokens, StripBlanks, JoinSoft;
    var y := SOFT + rest;
    assert line + SOFT + rest == line + y;
    StripAfterTokens(line, y);
    JoinAfterTokens(line, y);
    StripSoft(rest);
    JoinSoftBreak(rest);
  }

  lemma StripSoft(rest: string)
    ensures StripBlanks(SOFT + rest) == SOFT + StripBlanks(rest)
  {
    hide StripBlanks;
    assert (SOFT + rest)[1..] == CRLF + rest;
    StripOne(SOFT + rest);
    StripNewline(rest);
    assert SOFT + StripBlanks(rest) == ['='] + (CRLF + StripBlanks(rest));
  }

  lemma JoinSoftBreak(rest: string)
    ensures JoinSoft(SOFT + rest) == JoinSoft(rest)
  {
    var y := SOFT + rest;
    assert y[1..][0] == '\r' && y[1..][1] == '\n';
    assert y[1 + 2..] == rest;
  }

  lemma {:induction false} UnescapeUnbroken(b: string)
    requires Bytes(b)
    ensures Unescape(Unbroken(b)) == NormalizeCrlf(b)
    decreases |b|
  {
    hide Unescape, Tokens;
    if b == "" {
      UnescapeEmpty();
    } else if b[0] == '\r' && Break(b) == 2 {
      assert b[1..][1..] == b[2..];
      UnescapeUnbroken(b[1..]);
    } else if b[0] == '\n' {
      UnescapeUnbroken(b[1..]);
      UnescapeNewline(Unbroken(b[1..]));
    } else {
      assert [b[0]] + b[1..] == b;
      TokenTokens(b[0], b[1..]);
      UnescapeAfterTokens(Token(b[0], b[1..]), Unbroken(b[1..]));
      UnescapeUnbroken(b[1..]);
    }
  }

  lemma UnescapeEmpty()
    ensures Unescape("") == ""
  {
  }

  lemma UnescapeNewline(y: string)
    ensures Unescape(CRLF + y) == CRLF + Unescape(y)
  {
    assert (CRLF + y)[1..][1..] == y;
    assert CRLF + Unescape(y) == ['\r'] + (['\n'] + Unescape(y));
  }

  /** Quoted-printable round trip: decoding gives the bytes back with their line breaks as CRLF. */
  lemma RoundTrip(b: string)
    requires Bytes(b)
    ensures Decode(Enc(b, "")) == NormalizeCrlf(b)
  {
    TokensEmpty();
    Unwraps(b, "");
    assert "" + Unbroken(b) == Unbroken(b);
    UnescapeUnbroken(b);
  }

  /** encodeQP makes all line breaks bare LFs before it encodes. A lone CR just before a CRLF is then
      taken for a part of the line break: exactly the texts without CR CR LF survive. */
  lemma TextRoundTrip(b: string)
    requires Bytes(b)
    ensures Decode(Enc(NormalizeLf(b), "")) == NormalizeCrlf(b) <==> !Contains(b, CR_CRLF)
  {
    RoundTrip(NormalizeLf(b));
    NormalizeTwice(b);
  }

  /** Of two CRs before an LF one is lost. */
  lemma CrLost()
    ensures Decode(Enc(NormalizeLf("\r\r\n"), "")) == CRLF && NormalizeCrlf("\r\r\n") == "\r\r\n"
  {
    hide Decode, Enc;
    var s := "\r\r\n";
    assert s[1..] == CRLF && CRLF[2..] == "";
    assert NormalizeLf(CRLF) == "\n" && NormalizeCrlf(CRLF) == CRLF;
    assert NormalizeLf(s) == CRLF;
    RoundTrip(CRLF);
  }

  lemma StartsCrCrlf(b: string)
    ensures StartsWith(b, CR_CRLF) <==> |b| >= 3 && b[0] == '\r' && Break(b) == 0 && Break(b[1..]) == 2
  {
    if |b| >= 3 {
      assert b[0..3] == [b[0], b[1], b[2]];
    }
  }

  lemma {:induction false} NormalizeTwice(b: string)
    ensures !Contains(b, CR_CRLF) ==> NormalizeCrlf(NormalizeLf(b)) == NormalizeCrlf(b)
    ensures Contains(b, CR_CRLF) ==> |NormalizeCrlf(NormalizeLf(b))| < |NormalizeCrlf(b)|
    ensures |NormalizeCrlf(NormalizeLf(b))| <= |NormalizeCrlf(b)|
    decreases |b|
  {
    if b == "" {
      assert !Contains(b, CR_CRLF);
    } else {
      ContainsTail(b, CR_CRLF);
      StartsCrCrlf(b);
      if Break(b) > 0 {
        var k := Break(b);
        NormalizeTwice(b[k..]);
        assert ("\n" + NormalizeLf(b[k..]))[1..] == NormalizeLf(b[k..]);
        if k == 2 {
          ContainsTail(b[1..], CR_CRLF);
          StartsCrCrlf(b[1..]);
          assert b[1..][1..] == b[2..];
        }
      } else {
        NormalizeTwice(b[1..]);
        NormalizePlain(b);
      }
    }
  }

  lemma NormalizePlain(b: string)
    requires b != "" && Break(b) == 0
    ensures StartsWith(b, CR_CRLF) ==>
              |NormalizeCrlf(NormalizeLf(b))| == |NormalizeCrlf(NormalizeLf(b[1..]))|
    ensures !StartsWith(b, CR_CRLF) ==>
              NormalizeCrlf(NormalizeLf(b)) == [b[0]] + NormalizeCrlf(NormalizeLf(b[1..]))
  {
    var t := [b[0]] + NormalizeLf(b[1..]);
    assert t[1..] == NormalizeLf(b[1..]);
    StartsCrCrlf(b);
    if StartsWith(b, CR_CRLF) {
      assert t[1..][1..] == t[2..];
    }
  }

  // ---- Shape of the output -----------------------------------------------------------

  /** Every line, `col` characters of the first one being already written, has at most `max` characters. */
  predicate LinesFit(s: string, col: nat, max: nat) {
    if s == "" then col <= max
    else if StartsWith(s, CRLF) then col <= max && LinesFit(s[2..], 0, max)
    else LinesFit(s[1..], col + 1, max)
  }

  lemma {:induction false} LinesFitAfterTokens(x: string, y: string, col: nat, max: nat)
    requires Tokens(x)
    ensures LinesFit(x + y, col, max) == LinesFit(y, col + |x|, max)
    decreases |x|
  {
    if x == "" {
      assert x + y == y;
    } else {
      LinesFitOne(x + y, col, max);
      if x[0] == '=' {
        assert (x + y)[1..][1..][1..] == x[3..] + y;
        LinesFitOne((x + y)[1..], col + 1, max);
        LinesFitOne((x + y)[2..], col + 2, max);
        LinesFitAfterTokens(x[3..], y, col + 3, max);
      } else {
        assert (x + y)[1..] == x[1..] + y;
        LinesFitAfterTokens(x[1..], y, col + 1, max);
      }
    }
  }

  lemma LinesFitOne(s: string, col: nat, max: nat)
    requires s != "" && s[0] != '\r'
    ensures LinesFit(s, col, max) == LinesFit(s[1..], col + 1, max)
  {
    if StartsWith(s, CRLF) {
      StartsWithFirst(s, CRLF);
    }
  }

  lemma LinesFitBreak(y: string, col: nat, max: nat)
    requires col <= max
    ensures LinesFit(CRLF + y, col, max) == LinesFit(y, 0, max)
    ensures col < max ==> LinesFit(SOFT + y, col, max) == LinesFit(y, 0, max)
  {
    var s := CRLF + y;
    assert s[0..2] == CRLF && s[2..] == y;
    assert StartsWith(s, CRLF);
    if col < max {
      LinesFitOne(SOFT + y, col, max);
      assert (SOFT + y)[1..] == s;
    }
  }

  /** Every output line has at most 76 characters. */
  lemma {:induction false} WidthBound(b: string, line: string)
    requires Bytes(b) && LineOk(line, b) && |line| <= 75
    ensures LinesFit(Enc(b, line), 0, 76)
    decreases |b|
  {
    hide LinesFit, Tokens, Enc, Token;
    TokensEmpty();
    EncUnfold(b, line);
    if b == "" {
      LinesFitAfterTokens(line, "", 0, 76);
      NothingBefore(line);
      LinesFitEnd(|line|, 76);
    } else if b[0] == '\r' && Break(b) == 2 {
      WidthBound(b[1..], line);
    } else if b[0] == '\n' {
      var rest := Enc(b[1..], "");
      WidthBound(b[1..], "");
      Assoc(line, CRLF, rest);
      LinesFitAfterTokens(line, CRLF + rest, 0, 76);
      LinesFitBreak(rest, |line|, 76);
    } else {
      var tok := Token(b[0], b[1..]);
      NothingBefore(tok);
      if |line| + |tok| > 75 {
        var rest := Enc(b[1..], tok);
        LineOkToken("", b);
        TokenShort(b[0], b[1..]);
        WidthBound(b[1..], tok);
        Assoc(line, SOFT, rest);
        LinesFitAfterTokens(line, SOFT + rest, 0, 76);
        LinesFitBreak(rest, |line|, 76);
      } else {
        LineOkToken(line, b);
        WidthBound(b[1..], line + tok);
      }
    }
  }

  lemma TokenShort(c: char, rest: string)
    requires c as int < 256
    ensures |Token(c, rest)| <= 3
  {
  }

  /** The same, of a whole body. */
  lemma OutputFits(b: string)
    requires Bytes(b)
    ensures LinesFit(Enc(b, ""), 0, 76)
  {
    hide Enc, LinesFit;
    TokensEmpty();
    WidthBound(b, "");
  }

  lemma LinesFitEnd(col: nat, max: nat)
    ensures LinesFit("", col, max) == (col <= max)
  {
  }

  // ---- What the output looks like ----------------------------------------------------

  predicate Seven(s: string) {
    forall i :: 0 <= i < |s| ==> ' ' <= s[i] <= '~' || s[i] in "\t\r\n"
  }

  lemma TokenSeven(c: char, rest: string)
    requires c as int < 256
    ensures Seven(Token(c, rest))
  {
    var h := Hex2(c);
    hide Hex2;
    assert Token(c, rest) == [c] || Token(c, rest) == ['=', h[0], h[1]];
  }

  lemma SevenConcat(a: string, b: string)
    requires Seven(a) && Seven(b)
    ensures Seven(a + b)
  {
  }

  /** The output is seven-bit text. */
  lemma {:induction false} OutputSeven(b: string, line: string)
    requires Bytes(b) && Seven(line)
    ensures Seven(Enc(b, line))
    decreases |b|
  {
    hide Enc, Seven, Token, Literal;
    EncUnfold(b, line);
    if b != "" {
      var tok := Token(b[0], b[1..]);
      TokenSeven(b[0], b[1..]);
      SevenBreaks();
      SevenConcat(line, tok);
      OutputSeven(b[1..], line);
      OutputSeven(b[1..], "");
      OutputSeven(b[1..], tok);
      OutputSeven(b[1..], line + tok);
      SevenConcat(line, CRLF);
      SevenConcat(line + CRLF, Enc(b[1..], ""));
      SevenConcat(line, SOFT);
      SevenConcat(line + SOFT, Enc(b[1..], tok));
    }
  }

  lemma SevenBreaks()
    ensures Seven(CRLF) && Seven(SOFT) && Seven("")
  {
  }

  /** Printable text on a line of its own stays as it is, but for a blank at its end. */
  predicate Plain(s: string) {
    (forall i :: 0 <= i < |s| ==> ' ' <= s[i] <= '~' && s[i] != '=') && (s != "" ==> s[|s| - 1] != ' ')
  }

  lemma {:induction false} PlainLine(s: string, line: string)
    requires Bytes(s) && Plain(s) && |line| + |s| <= 75
    ensures Enc(s, line) == line + s
    decreases |s|
  {
    hide Enc;
    EncUnfold(s, line);
    if s == "" {
      NothingBefore(line);
    } else {
      assert s[0] == ' ' ==> |s| > 1 && s[1] == s[1..][0];
      assert Literal(s[0], s[1..]);
      PlainLine(s[1..], line + [s[0]]);
      assert line + [s[0]] + s[1..] == line + s;
    }
  }

  /** Plain text stays readable. */
  lemma PlainKept(s: string)
    requires Bytes(s) && Plain(s) && |s| <= 75
    ensures Enc(s, "") == s
  {
    PlainLine(s, "");
    NothingBefore(s);
  }

  // ---- What transport may add --------------------------------------------------------

  predicate Ending(n: string) { n == "\r\n" || n == "\n" }

  predicate Padding(p: string) { forall i :: 0 <= i < |p| ==> p[i] == ' ' || p[i] == '\t' }

  lemma {:induction false} RunIsPadding(p: string, rest: string)
    requires Padding(p) && rest != "" && rest[0] != ' ' && rest[0] != '\t'
    ensures BlankRun(p + rest) == |p|
  {
    if p == "" {
      NothingBefore(rest);
    } else {
      assert (p + rest)[1..] == p[1..] + rest;
      RunIsPadding(p[1..], rest);
    }
  }

  /** Blanks before a line break are dropped, however many, and whichever line break it is. */
  lemma PaddingDropped(p: string, ending: string, rest: string)
    requires Padding(p) && Ending(ending)
    ensures StripBlanks(p + (ending + rest)) == ending + StripBlanks(rest)
  {
    hide StripBlanks;
    if p == "" {
      NothingBefore(ending + rest);
      EndingKept(ending, rest);
    } else {
      var s := p + (ending + rest);
      RunIsPadding(p, ending + rest);
      assert Break(ending + rest) == |ending|;
      StripRun(s);
      hide BlankRun, Break;
      assert s[|p|..] == ending + rest;
      assert s[|p|..|p| + |ending|] == ending && s[|p| + |ending|..] == rest;
    }
  }

  lemma StripRun(s: string)
    requires BlankRun(s) > 0 && Break(s[BlankRun(s)..]) > 0
    ensures var n := BlankRun(s);
            var k := Break(s[n..]);
            StripBlanks(s) == s[n..n + k] + StripBlanks(s[n + k..])
  {
    hide BlankRun, Break;
  }

  lemma EndingKept(ending: string, rest: string)
    requires Ending(ending)
    ensures StripBlanks(ending + rest) == ending + StripBlanks(rest)
  {
    hide StripBlanks;
    if ending == "\r\n" {
      StripNewline(rest);
    } else {
      StripOne("\n" + rest);
      assert ("\n" + rest)[1..] == rest;
    }
  }

  /** A soft line break may be a bare LF. */
  lemma SoftBreakDropped(ending: string, rest: string)
    requires Ending(ending)
    ensures JoinSoft("=" + (ending + rest)) == JoinSoft(rest)
  {
    var s := "=" + (ending + rest);
    assert s[1..] == ending + rest && Break(s[1..]) == |ending|;
    assert s[1 + |ending|..] == rest;
  }
}
