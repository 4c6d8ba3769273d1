/** MIME entities: the printer of src/core/Message.ts and the parser of src/core/MimeParser.ts
    (RFC 2045; RFC 2046, section 5.1.1). */
module MimeTree {
  import opened Text
  import opened Params
  import opened Headers
  import QuotedPrintable
  import Base64

  // ---- Parsing -----------------------------------------------------------------------

  /** Where the first blank line begins, with the line break before it; -1 if there is none. */
  function BlankAt(s: string): (k: int)
    ensures k == -1 || 0 <= k < |s|
  {
    if s == "" then -1
    else if Break(s) > 0 && Break(s[Break(s)..]) > 0 then 0
    else
      var k := BlankAt(s[1..]);
      if k == -1 then -1 else k + 1
  }

  function SplitHeadBody(s: string): (string, string) {
    if Break(s) > 0 then ("", s[Break(s)..])
    else
      var k := BlankAt(s);
      if k == -1 then (s, "")
      else
        var n := Break(s[k..]);
        (s[..k], s[k + n + Break(s[k + n..])..])
  }

  function DropCr(s: string): string {
    if s != "" && s[|s| - 1] == '\r' then s[..|s| - 1] else s
  }

  /** End of the line that `from` is on. */
  function LineEnd(s: string, from: nat): (e: nat)
    requires from <= |s|
    ensures from <= e <= |s|
  {
    var e := Find(s, "\n", from);
    if e == -1 then |s| else e
  }

  /** A delimiter line found at `idx`: where the line begins, where the token ends, whether it is the
      closing one, where the line ends, and whether nothing else is on it. */
  datatype Delim = Delim(lineStart: nat, after: nat, close: bool, eol: nat, exact: bool)

  function DelimAt(body: string, delim: string, idx: nat): (d: Delim)
    requires At(body, idx, delim) || (At(body, idx, "\n" + delim) && delim != "")
    requires delim != "" && delim[0] != '\n'
    ensures idx <= d.lineStart <= idx + 1 && d.after == d.lineStart + |delim| && d.after <= d.eol <= |body|
  {
    DelimStart(body, delim, idx);
    var lineStart := if body[idx] == '\n' then idx + 1 else idx;
    var after := lineStart + |delim|;
    var close := At(body, after, "--");
    var eol := LineEnd(body, after);
    CloseInLine(body, after);
    var tail := DropCr(body[after + (if close then 2 else 0)..eol]);
    Delim(lineStart, after, close, eol, Trim(tail) == "")
  }

  lemma DelimStart(body: string, delim: string, idx: nat)
    requires delim != "" && delim[0] != '\n'
    ensures At(body, idx, delim) ==> body[idx] == delim[0]
    ensures At(body, idx, "\n" + delim) ==> body[idx] == '\n' && At(body, idx + 1, delim)
  {
    if At(body, idx, delim) {
      assert body[idx..idx + |delim|][0] == body[idx];
    }
    if At(body, idx, "\n" + delim) {
      assert body[idx..idx + 1 + |delim|][0] == body[idx];
      assert body[idx + 1..idx + 1 + |delim|] == body[idx..idx + 1 + |delim|][1..];
    }
  }

  lemma CloseInLine(body: string, after: nat)
    requires after <= |body|
    ensures At(body, after, "--") ==> after + 2 <= LineEnd(body, after)
  {
    if At(body, after, "--") {
      var e := LineEnd(body, after);
      assert body[after..after + 2][0] == body[after] && body[after..after + 2][1] == body[after + 1];
      if e < |body| {
        assert body[e..e + 1] == "\n";
        assert body[e] == '\n';
      }
    }
  }

  /** The next candidate for a delimiter line. */
  function NextDelim(body: string, delim: string, pos: nat): (i: int)
    ensures i == -1 || At(body, i, delim) || At(body, i, "\n" + delim)
    ensures i == -1 || pos <= i
  {
    if pos == 0 && StartsWith(body, delim) then 0 else Find(body, "\n" + delim, pos)
  }

  /** End of a part before the delimiter line at `idx`: its line break belongs to the delimiter. */
  function PartEnd(body: string, idx: nat, lineStart: nat): (e: nat)
    requires idx <= |body|
    ensures e <= idx
  {
    var end := if lineStart == 0 then 0 else idx;
    if end > 0 && body[end - 1] == '\r' then end - 1 else end
  }

  /** The entities of a multipart body from `pos` on; `start` is where the current one begins, -1 before
      the first delimiter. */
  function SplitMultipart(body: string, delim: string, pos: nat, start: int): seq<string>
    requires delim != "" && delim[0] != '\n'
    requires -1 <= start <= |body|
    decreases |body| - pos
  {
    var idx := NextDelim(body, delim, pos);
    if idx == -1 then
      if start >= 0 then [body[start..]] else []
    else
      var d := DelimAt(body, delim, idx);
      if !d.exact then SplitMultipart(body, delim, d.after, start)
      else
        var e := PartEnd(body, idx, d.lineStart);
        var here := if start >= 0 then [body[start..if e > start then e else start]] else [];
        if d.close then here
        else
          here + SplitMultipart(body, delim, d.eol, if d.eol + 1 < |body| then d.eol + 1 else |body|)
  }

  method SplitMultipartBody(body: string, boundary: string) returns (parts: seq<string>)
    ensures parts == SplitMultipart(body, "--" + boundary, 0, -1)
  {
    hide SplitMultipart, DelimAt, NextDelim, PartEnd;
    var delim := "--" + boundary;
    parts := [];
    var partStart, pos := -1, 0;
    NothingBefore(SplitMultipart(body, delim, 0, -1));
    while true
      invariant -1 <= partStart <= |body|
      invariant SplitMultipart(body, delim, 0, -1) == parts + SplitMultipart(body, delim, pos, partStart)
      decreases |body| - pos
    {
      SplitUnfold(body, delim, pos, partStart);
      var idx := NextDelim(body, delim, pos);
      if idx == -1 { break; }
      var d := DelimAt(body, delim, idx);
      if !d.exact {
        pos := d.after;
        continue;
      }
      var here: seq<string> := [];
      if partStart >= 0 {
        var end := PartEnd(body, idx, d.lineStart);
        here := [body[partStart..if end > partStart then end else partStart]];
      }
      var next := if d.eol + 1 < |body| then d.eol + 1 else |body|;
      Assoc(parts, here, SplitMultipart(body, delim, d.eol, next));
      parts := parts + here;
      if d.close { return; }
      partStart, pos := next, d.eol;
    }
    NothingBefore(parts);
    if partStart >= 0 { parts := parts + [body[partStart..]]; }
  }

  lemma SplitUnfold(body: string, delim: string, pos: nat, start: int)
    requires delim != "" && delim[0] != '\n' && -1 <= start <= |body|
    ensures var idx := NextDelim(body, delim, pos);
            && (idx == -1 ==> SplitMultipart(body, delim, pos, start) == if start >= 0 then [body[start..]] else [])
            && (idx != -1 ==>
                  var d := DelimAt(body, delim, idx);
                  var e := PartEnd(body, idx, d.lineStart);
                  var here := if start >= 0 then [body[start..if e > start then e else start]] else [];
                  SplitMultipart(body, delim, pos, start) ==
                    if !d.exact then SplitMultipart(body, delim, d.after, start)
                    else if d.close then here
                    else here + SplitMultipart(body, delim, d.eol, if d.eol + 1 < |body| then d.eol + 1 else |body|))
  {
    hide DelimAt, NextDelim, PartEnd;
  }

  /** decodeTransfer. */
  function DecodeTransfer(raw: string, encoding: string): string {
    if encoding == "base64" then Base64.DecodeBody(raw)
    else if encoding == "quoted-printable" then QuotedPrintable.Decode(raw)
    else raw
  }

  datatype Limits = Limits(maxDepth: nat, maxParts: nat, maxHeaderBytes: nat)

  datatype Ctx = Ctx(parts: nat, truncated: bool)

  /** What the headers say; `disposition` is "" when there is none. */
  datatype Info = Info(
    contentType: string, params: map<string, ParamValue>,
    disposition: string, dispositionParams: map<string, ParamValue>, encoding: string)

  datatype Part = Part(headers: seq<Header>, info: Info, rawBody: string, kind: Kind)

  datatype Kind = Single | Multipart(parts: seq<Part>) | Embedded(message: Part)

  function HeaderValueOf(hs: seq<Header>, name: string): HeaderValue {
    match Raw(hs, name)
    case None => HeaderValue("", map[])
    case Some(v) => if v == "" then HeaderValue("", map[]) else ParseHeaderValue(v)
  }

  function Describe(hs: seq<Header>, defaultType: string): Info {
    var ct := HeaderValueOf(hs, "content-type");
    var cd := HeaderValueOf(hs, "content-disposition");
    var enc := Raw(hs, "content-transfer-encoding");
    Info(
      if '/' in ct.value then ct.value else defaultType, ct.params,
      cd.value, cd.params,
      Lower(Trim(if enc.None? then "7bit" else enc.value)))
  }

  predicate IsMultipart(contentType: string) { StartsWith(contentType, "multipart/") }

  predicate IsMessage(contentType: string) { contentType == "message/rfc822" || contentType == "message/global" }

  /** The boundary parameter; `text` stands for decodeRfc2047 and decodeText. */
  function BoundaryOf(info: Info, text: ParamValue -> string): string {
    if "boundary" in info.params then text(info.params["boundary"]) else ""
  }

  function Remaining(depth: nat, lim: Limits): nat {
    if depth <= lim.maxDepth then lim.maxDepth - depth + 1 else 0
  }

  function ParseMime(s: string, defaultType: string, depth: nat, c: Ctx, lim: Limits, text: ParamValue -> string)
    : (Part, Ctx)
    decreases Remaining(depth, lim), 0, 0
  {
    var (head0, body) := SplitHeadBody(s);
    var cut := |head0| > lim.maxHeaderBytes;
    var head := if cut then head0[..lim.maxHeaderBytes] else head0;
    var c1 := Ctx(c.parts + 1, c.truncated || cut);
    var hs := ParseHeaders(head);
    var info := Describe(hs, defaultType);
    var single := Part(hs, info, body, Single);
    if (IsMultipart(info.contentType) || IsMessage(info.contentType)) && depth >= lim.maxDepth then
      (single, c1.(truncated := true))
    else if IsMultipart(info.contentType) && BoundaryOf(info, text) != "" then
      var childType := if info.contentType == "multipart/digest" then "message/rfc822" else "text/plain";
      var ps := SplitMultipart(body, "--" + BoundaryOf(info, text), 0, -1);
      var r := ParseParts(ps, childType, depth + 1, c1, lim, text);
      (single.(kind := Multipart(r.0)), r.1)
    else if IsMessage(info.contentType) then
      if c1.parts >= lim.maxParts then (single, c1.(truncated := true))
      else
        var inner := if info.encoding == "base64" || info.encoding == "quoted-printable"
                     then DecodeTransfer(body, info.encoding) else body;
        var r := ParseMime(inner, "text/plain", depth + 1, c1, lim, text);
        (single.(kind := Embedded(r.0)), r.1)
    else (single, c1)
  }

  /** The entities of one multipart body, until there are too many parts. */
  function ParseParts(ps: seq<string>, defaultType: string, depth: nat, c: Ctx, lim: Limits, text: ParamValue -> string)
    : (seq<Part>, Ctx)
    decreases Remaining(depth, lim), 1, |ps|
  {
    if ps == [] then ([], c)
    else if c.parts >= lim.maxParts then ([], c.(truncated := true))
    else
      var first := ParseMime(ps[0], defaultType, depth, c, lim, text);
      var rest := ParseParts(ps[1..], defaultType, depth, first.1, lim, text);
      ([first.0] + rest.0, rest.1)
  }

  // ---- Printing ----------------------------------------------------------------------

  /** An entity to serialise: its headers and either a body, or child entities, or a message with headers of
      its own. */
  datatype Entity =
    | Leaf(headers: seq<Header>, body: string)
    | Multi(headers: seq<Header>, boundary: string, children: seq<Entity>)
    | Attached(headers: seq<Header>, top: seq<Header>, message: Entity)

  /** The boundary goes into the first header, which is the content type. */
  function HeadersOf(e: Entity): seq<Header> {
    match e
    case Leaf(hs, _) => hs
    case Attached(hs, _, _) => hs
    case Multi(hs, b, _) =>
      if hs == [] then []
      else [Header(hs[0].name, hs[0].value + "; boundary=\"" + b + "\"")] + hs[1..]
  }

  function Serialize(e: Entity): string
    decreases e, 1
  {
    SerializeHeaders(HeadersOf(e)) + CRLF + BodyOf(e)
  }

  function BodyOf(e: Entity): string
    decreases e, 0
  {
    match e
    case Leaf(_, body) => body
    case Multi(_, b, children) => SerializeParts(b, children)
    case Attached(_, top, message) => Message(top, message)
  }

  /** A message: its own headers, then the root entity. */
  function Message(top: seq<Header>, e: Entity): string
    decreases e, 2
  {
    (if top == [] then "" else SerializeHeaders(top)) + Serialize(e)
  }

  function SerializeParts(b: string, children: seq<Entity>): string
    decreases children, 2
  {
    if children == [] then "--" + b + "--\r\n"
    else "--" + b + "\r\n" + Serialize(children[0]) + CRLF + SerializeParts(b, children[1..])
  }

  // ---- Head and body -----------------------------------------------------------------

  function Shift(k: nat, i: int): int {
    if i == -1 then -1 else k + i
  }

  lemma {:induction false} BlankAfterLine(x: string, rest: string)
    requires OneLine(x)
    ensures BlankAt(x + rest) == Shift(|x|, BlankAt(rest))
  {
    if x == "" {
      NothingBefore(rest);
    } else {
      assert (x + rest)[1..] == x[1..] + rest;
      BlankAfterLine(x[1..], rest);
    }
  }

  lemma BlankUnfold(s: string)
    ensures s == "" ==> BlankAt(s) == -1
    ensures s != "" ==>
              BlankAt(s) == if Break(s) > 0 && Break(s[Break(s)..]) > 0 then 0 else Shift(1, BlankAt(s[1..]))
  {
    hide Break;
  }

  lemma BlankAfterBreak(rest: string)
    requires rest != "" && rest[0] != '\r' && rest[0] != '\n'
    ensures BlankAt(CRLF + rest) == Shift(2, BlankAt(rest))
  {
    hide BlankAt;
    var s := CRLF + rest;
    assert s[1..] == "\n" + rest && ("\n" + rest)[1..] == rest && s[2..] == rest;
    BlankUnfold("\n" + rest);
    BlankUnfold(s);
  }

  lemma BlankHere(rest: string)
    ensures BlankAt(CRLF + CRLF + rest) == 0
  {
    assert (CRLF + CRLF + rest)[2..] == CRLF + rest;
  }

  lemma {:induction false} BlankAfterRest(words: seq<string>, col: nat, rest: string)
    requires WordsOneLine(words)
    ensures BlankAt(FoldRest(words, col) + rest) == Shift(|FoldRest(words, col)|, BlankAt(rest))
    decreases |words|
  {
    hide BlankAt, OneLine;
    if words == [] {
      NothingBefore(rest);
    } else {
      var w := words[0];
      var col' := if Wraps(col, w) then 1 + |w| else col + 1 + |w|;
      var next := FoldRest(words[1..], col');
      BlankAfterRest(words[1..], col', rest);
      BlankAfterWord(Wraps(col, w), w, next + rest);
      Assoc((if Wraps(col, w) then FOLD else " ") + w, next, rest);
    }
  }

  lemma BlankAfterWord(wraps: bool, w: string, rest: string)
    requires OneLine(w)
    ensures var sep := if wraps then FOLD else " ";
            BlankAt(sep + w + rest) == Shift(|sep| + |w|, BlankAt(rest))
  {
    hide BlankAt, OneLine;
    SpaceIsLine();
    BlankAfterLine(w, rest);
    BlankAfterLine(" ", w + rest);
    Assoc(" ", w, rest);
    if wraps {
      BlankAfterBreak(" " + (w + rest));
      FoldIs(w, rest);
    }
  }

  lemma BlankAfterHeader(h: Header, rest: string)
    requires ProperHeader(h)
    ensures BlankAt(FoldHeader(h) + rest) == Shift(|FoldHeader(h)|, BlankAt(rest))
  {
    hide BlankAt, Words, FoldRest, Contains, Trimmed;
    var first := h.name + ": ";
    if Short(h) {
      BlankAfterLine(first + h.value, rest);
    } else {
      var ws := Words(h.value, "");
      WordsAreLines(h.value, "");
      var tail := FoldRest(ws[1..], |first| + |ws[0]|);
      BlankAfterRest(ws[1..], |first| + |ws[0]|, rest);
      BlankAfterLine(first + ws[0], tail + rest);
      Assoc(first + ws[0], tail, rest);
    }
  }

  lemma {:induction false} BlankAfterBlock(hs: seq<Header>, body: string)
    requires hs != [] && ProperHeaders(hs)
    ensures BlankAt(Join(FoldAll(hs), CRLF) + (CRLF + CRLF + body)) == |Join(FoldAll(hs), CRLF)|
    ensures Join(FoldAll(hs), CRLF) != "" && Join(FoldAll(hs), CRLF)[0] == hs[0].name[0]
    decreases |hs|
  {
    hide BlankAt, FoldHeader, ProperHeader;
    FoldStart(hs[0]);
    var end := CRLF + CRLF + body;
    if |hs| == 1 {
      assert FoldAll(hs) == [FoldHeader(hs[0])];
      BlankAfterHeader(hs[0], end);
      BlankHere(body);
    } else {
      var block := Join(FoldAll(hs[1..]), CRLF);
      BlankAfterBlock(hs[1..], body);
      FoldStart(hs[1]);
      assert FoldAll(hs)[1..] == FoldAll(hs[1..]);
      BlankAfterBreak(block + end);
      BlankAfterHeader(hs[0], CRLF + (block + end));
      assert FoldHeader(hs[0]) + (CRLF + (block + end)) == FoldHeader(hs[0]) + CRLF + block + end;
    }
  }

  /** The parser splits a serialised entity where the printer joined it. */
  lemma HeadBodyRoundTrip(hs: seq<Header>, body: string)
    requires hs != [] && ProperHeaders(hs)
    ensures SplitHeadBody(SerializeHeaders(hs) + CRLF + body) == (Join(FoldAll(hs), CRLF), body)
  {
    hide BlankAt, FoldAll, Join, ProperHeader;
    var block := Join(FoldAll(hs), CRLF);
    var s := SerializeHeaders(hs) + CRLF + body;
    BlankAfterBlock(hs, body);
    FoldStart(hs[0]);
    assert s == block + (CRLF + CRLF + body);
    hide SerializeHeaders;
    NameStart(hs[0]);
    SplitAtBlank(block, body);
  }

  lemma NameStart(h: Header)
    requires ProperHeader(h)
    ensures h.name[0] != '\r' && h.name[0] != '\n'
  {
    hide Trimmed, Short;
  }

  lemma SplitAtBlank(block: string, body: string)
    requires block != "" && block[0] != '\r' && block[0] != '\n'
    requires BlankAt(block + (CRLF + CRLF + body)) == |block|
    ensures SplitHeadBody(block + (CRLF + CRLF + body)) == (block, body)
  {
    hide BlankAt;
    var s, k := block + (CRLF + CRLF + body), |block|;
    assert s[..k] == block && s[k..] == CRLF + (CRLF + body);
    assert s[k + 2..] == CRLF + body;
    assert s[k + 2 + 2..] == body;
  }

  predicate IsBreak(n: string) { n == "\r\n" || n == "\n" }

  /** A bare LF ends a line like CRLF does: the head ends at the first blank line, and there is none before a
      blank line at the very beginning. */
  lemma AnyBlankLine(line: string, n1: string, n2: string, body: string)
    requires OneLine(line) && IsBreak(n1) && IsBreak(n2)
    ensures SplitHeadBody(line + (n1 + (n2 + body))) == if line == "" then ("", n2 + body) else (line, body)
  {
    var rest := n1 + (n2 + body);
    BreakIs(n1, n2 + body);
    BreakIs(n2, body);
    if line == "" {
      NothingBefore(rest);
    } else {
      BlankAfterLine(line, rest);
      hide BlankAt, Break;
      BlankUnfold(rest);
      var s := line + rest;
      NoBreakFirst(s);
      assert s[..|line|] == line && s[|line|..] == rest;
      assert s[|line| + |n1|..] == n2 + body && s[|line| + |n1| + |n2|..] == body;
    }
  }

  lemma BreakIs(n: string, rest: string)
    requires IsBreak(n)
    ensures Break(n + rest) == |n| && (n + rest)[|n|..] == rest
  {
  }

  lemma NoBreakFirst(s: string)
    ensures s != "" && s[0] != '\r' && s[0] != '\n' ==> Break(s) == 0
  {
  }

  // ---- Boundaries --------------------------------------------------------------------

  /** `----=_Part_` and 32 hexadecimal digits, as boundary() makes them. */
  predicate IsBoundary(b: string) {
    |b| == 43 && StartsWith(b, "----=_Part_") && forall i :: 11 <= i < 43 ==> IsHex(b[i])
  }

  lemma BoundaryChars(b: string)
    requires IsBoundary(b)
    ensures forall i :: 0 <= i < |b| ==>
              b[i] != '\n' && b[i] != '\r' && b[i] != '"' && b[i] != '\\' && b[i] != ' ' && b[i] as int < 128
    ensures b[4] == '=' && b[5] == '_'
  {
    assert b[0..11] == "----=_Part_";
    assert forall i :: 0 <= i < 11 ==> b[i] == b[0..11][i];
  }

  /** No line of `s` begins with `d`. */
  ghost predicate LineFree(s: string, d: string) {
    !StartsWith(s, d) && forall k :: 0 <= k < |s| && s[k] == '\n' ==> !At(s, k + 1, d)
  }

  predicate DelimText(d: string) { d != "" && d[0] == '-' && OneLine(d) }

  lemma AtInside(a: string, c: char, t: string, k: nat, d: string)
    requires OneLine(d) && (c == '\n' || c == '\r') && k <= |a|
    ensures At(a + [c] + t, k, d) ==> At(a, k, d)
  {
    var s := a + [c] + t;
    AtChars(s, k, d);
    AtChars(a, k, d);
    assert s[|a|] == c;
  }

  lemma LineFreeJoin(a: string, t: string, d: string)
    requires DelimText(d) && LineFree(a, d) && LineFree(t, d)
    ensures LineFree(a + "\n" + t, d)
  {
    var s := a + ['\n'] + t;
    assert s == a + "\n" + t;
    AtInside(a, '\n', t, 0, d);
    forall k | 0 <= k < |s| && s[k] == '\n' ensures !At(s, k + 1, d) {
      if k < |a| {
        AtInside(a, '\n', t, k + 1, d);
      } else {
        var j := k - |a|;
        AtSuffix(a + ['\n'], t, j, d);
        assert s[k] == if j == 0 then '\n' else t[j - 1];
      }
    }
  }

  lemma AtSuffix(a: string, t: string, j: nat, d: string)
    ensures At(a + t, |a| + j, d) <==> At(t, j, d)
  {
    if j + |d| <= |t| {
      assert (a + t)[|a| + j..|a| + j + |d|] == t[j..j + |d|];
    }
  }

  lemma LineFreeCr(a: string, d: string)
    requires DelimText(d) && LineFree(a, d)
    ensures LineFree(a + "\r", d)
  {
    var s := a + ['\r'] + "";
    assert s == a + "\r";
    AtInside(a, '\r', "", 0, d);
    forall k | 0 <= k < |s| && s[k] == '\n' ensures !At(s, k + 1, d) {
      AtInside(a, '\r', "", k + 1, d);
    }
  }

  /** `a` and `t` with a CRLF between them. */
  lemma LineFreeCrlf(a: string, t: string, d: string)
    requires DelimText(d) && LineFree(a, d) && LineFree(t, d)
    ensures LineFree(a + CRLF + t, d)
  {
    hide LineFree;
    LineFreeCr(a, d);
    LineFreeJoin(a + "\r", t, d);
    assert a + "\r" + "\n" + t == a + CRLF + t;
  }

  lemma LineFreeShort(d: string)
    requires DelimText(d)
    ensures LineFree("", d)
  {
  }

  /** The line and the delimiter differ somewhere, whatever follows the line. */
  ghost predicate Differs(x: string, d: string) {
    exists i :: 0 <= i < |x| && i < |d| && x[i] != d[i]
  }

  lemma DiffersMore(x: string, y: string, d: string)
    requires Differs(x, d)
    ensures Differs(x + y, d)
  {
    var i :| 0 <= i < |x| && i < |d| && x[i] != d[i];
    assert (x + y)[i] == x[i];
  }

  lemma LineFreeLine(x: string, d: string)
    requires DelimText(d) && OneLine(x) && Differs(x, d)
    ensures LineFree(x, d)
  {
    var i :| 0 <= i < |x| && i < |d| && x[i] != d[i];
    AtChars(x, 0, d);
    assert x[0 + i] != d[i];
  }

  lemma {:induction false} LineFreeFoldRest(x: string, words: seq<string>, col: nat, d: string)
    requires DelimText(d) && WordsOneLine(words) && OneLine(x) && Differs(x, d)
    ensures LineFree(x + FoldRest(words, col), d)
    decreases |words|
  {
    hide LineFree, DelimText, Differs;
    if words == [] {
      NothingBefore(x);
      LineFreeLine(x, d);
    } else {
      var w := words[0];
      var col' := if Wraps(col, w) then 1 + |w| else col + 1 + |w|;
      var next := FoldRest(words[1..], col');
      if Wraps(col, w) {
        SpaceDiffers(w, d);
        LineFreeFoldRest(" " + w, words[1..], col', d);
        LineFreeLine(x, d);
        LineFreeCrlf(x, " " + w + next, d);
        FoldIs(w, next);
        Assoc(x, CRLF, " " + w + next);
      } else {
        DiffersMore(x, " " + w, d);
        Assoc(x, " ", w);
        LineFreeFoldRest(x + " " + w, words[1..], col', d);
        Assoc(x, " " + w, next);
      }
    }
  }

  lemma SpaceDiffers(w: string, d: string)
    requires DelimText(d)
    ensures Differs(" " + w, d)
  {
    assert (" " + w)[0] != d[0];
  }

  /** What every delimiter line begins with. */
  const LEAD := "------=_Part_"

  /** No header name looks like a delimiter line. */
  predicate NamesApart(hs: seq<Header>) {
    forall i :: 0 <= i < |hs| ==> !StartsWith(hs[i].name, LEAD)
  }

  lemma NameDiffers(name: string, b: string)
    requires IsBoundary(b) && !StartsWith(name, LEAD)
    ensures Differs(name + ":", "--" + b)
  {
    var x, d := name + ":", "--" + b;
    AtChars(b, 0, "----=_Part_");
    assert forall i :: 0 <= i < 11 ==> b[0 + i] == "----=_Part_"[i];
    assert forall i :: 0 <= i < 13 ==> LEAD[i] == d[i];
    AtChars(name, 0, LEAD);
    if |name| < 13 {
      assert x[|name|] == ':' && d[|name|] != ':';
    } else {
      var i :| 0 <= i < 13 && name[0 + i] != LEAD[i];
      assert x[i] != d[i];
    }
  }

  lemma LineFreeHeader(h: Header, d: string)
    requires DelimText(d) && ProperHeader(h) && Differs(h.name + ":", d)
    ensures LineFree(FoldHeader(h), d)
  {
    hide LineFree, Words, FoldRest, Contains, Trimmed, Differs;
    var first := h.name + ": ";
    assert first == h.name + ":" + " ";
    if Short(h) {
      DiffersMore(h.name + ":", " " + h.value, d);
      assert h.name + ":" + (" " + h.value) == first + h.value;
      LineFreeLine(first + h.value, d);
    } else {
      var ws := Words(h.value, "");
      WordsAreLines(h.value, "");
      DiffersMore(h.name + ":", " " + ws[0], d);
      assert h.name + ":" + (" " + ws[0]) == first + ws[0];
      LineFreeFoldRest(first + ws[0], ws[1..], |first| + |ws[0]|, d);
    }
  }

  lemma {:induction false} LineFreeBlock(hs: seq<Header>, d: string)
    requires DelimText(d) && hs != [] && ProperHeaders(hs)
    requires forall i :: 0 <= i < |hs| ==> Differs(hs[i].name + ":", d)
    ensures LineFree(Join(FoldAll(hs), CRLF), d)
    decreases |hs|
  {
    hide LineFree, FoldHeader, ProperHeader, Differs;
    LineFreeHeader(hs[0], d);
    if |hs| == 1 {
      assert FoldAll(hs) == [FoldHeader(hs[0])];
    } else {
      assert FoldAll(hs)[1..] == FoldAll(hs[1..]);
      LineFreeBlock(hs[1..], d);
      LineFreeCrlf(FoldHeader(hs[0]), Join(FoldAll(hs[1..]), CRLF), d);
    }
  }

  const MARK := "=_"

  /** Every boundary contains "=_", so a body without it contains no delimiter line. */
  lemma LineFreeBody(body: string, b: string)
    requires IsBoundary(b) && !Contains(body, MARK)
    ensures LineFree(body, "--" + b)
  {
    BoundaryChars(b);
    var d := "--" + b;
    forall k | 0 <= k && At(body, k, d) ensures false {
      assert body[k + 6..k + 8] == body[k..k + |d|][6..8];
      assert d[6..8] == MARK;
      assert At(body, k + 6, MARK);
    }
  }

  // ---- Multipart bodies --------------------------------------------------------------

  /** What the printer puts after the first delimiter line. */
  function AfterDelim(b: string, parts: seq<string>): string
    requires parts != []
  {
    parts[0] + CRLF + "--" + b + (if |parts| == 1 then "--\r\n" else CRLF + AfterDelim(b, parts[1..]))
  }

  /** A part between what precedes it and the delimiter line that ends it. */
  function Laid(pre: string, part: string, d: string, rest: string): string {
    pre + "\n" + part + CRLF + d + rest
  }

  lemma FindDelim(pre: string, part: string, d: string, rest: string)
    requires DelimText(d) && LineFree(part, d)
    ensures var body := Laid(pre, part, d, rest);
            && Find(body, "\n" + d, |pre|) == |pre| + |part| + 2
            && At(body, |pre| + |part| + 2, "\n" + d)
  {
    hide Find, LineFree, DelimText, Laid, At;
    DelimSits(pre, part, d, rest);
    forall k | |pre| <= k < |pre| + |part| + 2 ensures !At(Laid(pre, part, d, rest), k, "\n" + d) {
      NoEarlierDelim(pre, part, d, rest, k);
    }
    FindIs(Laid(pre, part, d, rest), "\n" + d, |pre|, |pre| + |part| + 2);
  }

  lemma DelimSits(pre: string, part: string, d: string, rest: string)
    ensures At(Laid(pre, part, d, rest), |pre| + |part| + 2, "\n" + d)
  {
    var body, i := Laid(pre, part, d, rest), |pre| + |part| + 2;
    assert body[i..i + 1 + |d|] == "\n" + d;
  }

  lemma NoEarlierDelim(pre: string, part: string, d: string, rest: string, k: nat)
    requires DelimText(d) && LineFree(part, d) && |pre| <= k < |pre| + |part| + 2
    ensures !At(Laid(pre, part, d, rest), k, "\n" + d)
  {
    var body := Laid(pre, part, d, rest);
    var t := part + ['\r'] + ("\n" + d + rest);
    assert body == pre + "\n" + t;
    DelimStart(body, d, k);
    var j := k - |pre|;
    AtSuffix(pre + "\n", t, j, d);
    assert body[k] == if j == 0 then '\n' else t[j - 1];
    if j <= |part| {
      AtInside(part, '\r', "\n" + d + rest, j, d);
    }
  }

  lemma FindNewline(pre: string, rest: string, from: nat)
    requires from <= |pre| && forall k :: from <= k < |pre| ==> pre[k] != '\n'
    ensures Find(pre + "\n" + rest, "\n", from) == |pre|
  {
    var s := pre + "\n" + rest;
    assert s[|pre|..|pre| + 1] == "\n";
    forall k | from <= k < |pre| ensures !At(s, k, "\n") {
      assert s[k..k + 1] == [pre[k]];
    }
    FindIs(s, "\n", from, |pre|);
  }

  lemma TrimNothing()
    ensures Trim("") == "" && DropCr("\r") == ""
  {
  }

  /** An opening delimiter line. */
  lemma OpenDelim(pre: string, d: string, rest: string, idx: nat)
    requires DelimText(d)
    requires if idx == |pre| then At(pre + d + CRLF + rest, idx, d)
             else idx + 1 == |pre| && At(pre + d + CRLF + rest, idx, "\n" + d)
    ensures DelimAt(pre + d + CRLF + rest, d, idx)
            == Delim(|pre|, |pre| + |d|, false, |pre| + |d| + 1, true)
  {
    hide Find, Trim;
    var body := pre + d + CRLF + rest;
    DelimStart(body, d, idx);
    var after := |pre| + |d|;
    assert body[after] == '\r';
    AtChars(body, after, "--");
    assert body == (pre + d + "\r") + "\n" + rest;
    FindNewline(pre + d + "\r", rest, after);
    assert body[after..after + 1] == "\r";
    TrimNothing();
    assert body[idx] == '\n' <==> idx + 1 == |pre|;
  }

  /** The closing delimiter line. */
  lemma CloseDelim(pre: string, d: string, idx: nat)
    requires DelimText(d)
    requires if idx == |pre| then At(pre + d + "--\r\n", idx, d)
             else idx + 1 == |pre| && At(pre + d + "--\r\n", idx, "\n" + d)
    ensures var r := DelimAt(pre + d + "--\r\n", d, idx);
            r.lineStart == |pre| && r.close && r.exact
  {
    hide Find, Trim;
    var body := pre + d + "--\r\n";
    DelimStart(body, d, idx);
    var after := |pre| + |d|;
    assert body[after..after + 2] == "--";
    assert body == (pre + d + "--\r") + "\n" + "";
    FindNewline(pre + d + "--\r", "", after);
    assert body[after + 2..after + 3] == "\r";
    TrimNothing();
    assert body[idx] == '\n' <==> idx + 1 == |pre|;
  }

  /** A part is found between the delimiter lines around it. */
  lemma PartFound(pre: string, part: string, d: string, rest: string)
    requires pre != "" && DelimText(d) && LineFree(part, d)
    ensures var body, idx := Laid(pre, part, d, rest), |pre| + |part| + 2;
            && NextDelim(body, d, |pre|) == idx && idx < |body|
            && body[idx - 1] == '\r' && body[|pre| + 1..idx - 1] == part
  {
    hide Find, LineFree, DelimText, At;
    FindDelim(pre, part, d, rest);
    var body := Laid(pre, part, d, rest);
    assert body[|pre| + 1..|pre| + |part| + 1] == part;
  }

  lemma LastPart(pre: string, part: string, d: string)
    requires pre != "" && DelimText(d) && LineFree(part, d)
    ensures SplitMultipart(Laid(pre, part, d, "--\r\n"), d, |pre|, |pre| + 1) == [part]
  {
    hide SplitMultipart, LineFree, DelimAt, NextDelim;
    var body, pre' := Laid(pre, part, d, "--\r\n"), pre + "\n" + part + CRLF;
    PartFound(pre, part, d, "--\r\n");
    assert body == pre' + d + "--\r\n";
    hide Laid;
    SplitUnfold(body, d, |pre|, |pre| + 1);
    CloseDelim(pre', d, |pre| + |part| + 2);
  }

  lemma MoreParts(pre: string, part: string, d: string, more: string)
    requires pre != "" && DelimText(d) && LineFree(part, d) && more != ""
    ensures var pre' := pre + "\n" + part + CRLF + d + "\r";
            SplitMultipart(Laid(pre, part, d, CRLF + more), d, |pre|, |pre| + 1)
            == [part] + SplitMultipart(pre' + "\n" + more, d, |pre'|, |pre'| + 1)
  {
    hide SplitMultipart, LineFree, DelimAt, NextDelim;
    var body, before := Laid(pre, part, d, CRLF + more), pre + "\n" + part + CRLF;
    PartFound(pre, part, d, CRLF + more);
    assert body == before + d + CRLF + more;
    assert body == before + d + "\r" + "\n" + more;
    hide Laid;
    SplitUnfold(body, d, |pre|, |pre| + 1);
    OpenDelim(before, d, more, |pre| + |part| + 2);
  }

  /** From just after a delimiter line on, the entities are found again one by one. */
  lemma {:induction false} SplitParts(pre: string, b: string, parts: seq<string>)
    requires pre != "" && parts != [] && DelimText("--" + b)
    requires forall i :: 0 <= i < |parts| ==> LineFree(parts[i], "--" + b)
    ensures SplitMultipart(pre + "\n" + AfterDelim(b, parts), "--" + b, |pre|, |pre| + 1) == parts
    decreases |parts|
  {
    hide SplitMultipart, LineFree, DelimText, AfterDelim;
    var d, part := "--" + b, parts[0];
    AfterDelimUnfold(b, parts);
    if |parts| == 1 {
      assert pre + "\n" + AfterDelim(b, parts) == Laid(pre, part, d, "--\r\n");
      LastPart(pre, part, d);
      assert parts == [part];
    } else {
      var more := AfterDelim(b, parts[1..]);
      assert pre + "\n" + AfterDelim(b, parts) == Laid(pre, part, d, CRLF + more);
      AfterDelimUnfold(b, parts[1..]);
      MoreParts(pre, part, d, more);
      SplitParts(pre + "\n" + part + CRLF + d + "\r", b, parts[1..]);
      assert [part] + parts[1..] == parts;
    }
  }

  lemma AfterDelimUnfold(b: string, parts: seq<string>)
    requires parts != []
    ensures AfterDelim(b, parts) ==
              parts[0] + CRLF + ("--" + b) + (if |parts| == 1 then "--\r\n" else CRLF + AfterDelim(b, parts[1..]))
  {
    assert parts[0] + CRLF + "--" + b == parts[0] + CRLF + ("--" + b);
  }

  function SerializeAll(children: seq<Entity>): (r: seq<string>)
    ensures |r| == |children| && forall i :: 0 <= i < |r| ==> r[i] == Serialize(children[i])
  {
    if children == [] then [] else [Serialize(children[0])] + SerializeAll(children[1..])
  }

  lemma {:induction false} SerializePartsIs(b: string, children: seq<Entity>)
    requires children != []
    ensures SerializeParts(b, children) == "--" + b + CRLF + AfterDelim(b, SerializeAll(children))
    decreases |children|
  {
    hide Serialize;
    var ps := SerializeAll(children);
    if |children| == 1 {
      assert children[1..] == [];
      assert "--" + b + "\r\n" + ps[0] + CRLF + ("--" + b + "--\r\n")
          == "--" + b + CRLF + (ps[0] + CRLF + "--" + b + "--\r\n");
    } else {
      SerializePartsIs(b, children[1..]);
      assert ps[1..] == SerializeAll(children[1..]);
      var more := AfterDelim(b, ps[1..]);
      assert "--" + b + "\r\n" + ps[0] + CRLF + ("--" + b + CRLF + more)
          == "--" + b + CRLF + (ps[0] + CRLF + "--" + b + (CRLF + more));
    }
  }

  lemma SplitNone(b: string)
    requires DelimText("--" + b)
    ensures SplitMultipart("--" + b + "--\r\n", "--" + b, 0, -1) == []
  {
    hide SplitMultipart, DelimAt, Find, DelimText;
    var d := "--" + b;
    var body := d + "--\r\n";
    SplitUnfold(body, d, 0, -1);
    assert body[0..|d|] == d;
    assert body == "" + d + "--\r\n";
    CloseDelim("", d, 0);
  }

  lemma FirstLine(d: string, more: string)
    ensures var body := d + CRLF + more;
            body == "" + d + CRLF + more && body == d + "\r" + "\n" + more && At(body, 0, d)
  {
    assert (d + CRLF + more)[0..|d|] == d;
  }

  lemma SplitSome(b: string, parts: seq<string>)
    requires DelimText("--" + b) && parts != []
    requires forall i :: 0 <= i < |parts| ==> LineFree(parts[i], "--" + b)
    ensures SplitMultipart("--" + b + CRLF + AfterDelim(b, parts), "--" + b, 0, -1) == parts
  {
    hide SplitMultipart, DelimAt, Find, DelimText, AfterDelim, LineFree;
    var d, more := "--" + b, AfterDelim(b, parts);
    var body := d + CRLF + more;
    FirstLine(d, more);
    SplitUnfold(body, d, 0, -1);
    AfterDelimUnfold(b, parts);
    OpenDelim("", d, more, 0);
    SplitParts(d + "\r", b, parts);
    NothingBefore(parts);
  }

  /** A multipart body is split into exactly the entities it was made of. */
  lemma MultipartRoundTrip(b: string, children: seq<Entity>)
    requires DelimText("--" + b)
    requires forall i :: 0 <= i < |children| ==> LineFree(Serialize(children[i]), "--" + b)
    ensures SplitMultipart(SerializeParts(b, children), "--" + b, 0, -1) == SerializeAll(children)
  {
    hide SplitMultipart, LineFree, DelimAt, Find, DelimText, Serialize, AfterDelim, SerializeAll;
    if children == [] {
      SplitNone(b);
      assert SerializeParts(b, children) == "--" + b + "--\r\n";
    } else {
      hide SerializeParts;
      SerializePartsIs(b, children);
      SplitSome(b, SerializeAll(children));
    }
  }

  // ---- Trees -------------------------------------------------------------------------

  /** The type and the encoding come only from the entity: the builder refuses them as custom headers. */
  predicate NoStructure(hs: seq<Header>) {
    forall i :: 0 <= i < |hs| ==>
      Lower(hs[i].name) !in ["content-type", "content-transfer-encoding"]
  }

  /** The content type of a multipart entity before its boundary is added. */
  predicate MultipartType(h: Header) {
    && h.name == "Content-Type" && MainValue(h.value)
    && |h.value| >= 10 && h.value[..10] == "multipart/" && h.value != "multipart/digest"
  }

  /** The headers of an attached message: it is sent as it is. */
  predicate MessageType(hs: seq<Header>) {
    && hs != [] && hs[0].name == "Content-Type" && hs[0].value in ["message/rfc822", "message/global"]
    && NoStructure(hs[1..])
  }

  /** A leaf's type is none that has structure. */
  predicate LeafType(t: string) {
    !(|t| >= 10 && t[..10] == "multipart/") && t != "message/rfc822" && t != "message/global"
  }

  /** An entity tree the builder makes: nested boundaries differ, also those in attached messages, leaf
      bodies are free of "=_", and leaves are neither multipart nor messages. */
  ghost predicate Proper(e: Entity, outer: set<string>)
    decreases e
  {
    && HeadersOf(e) != [] && ProperHeaders(HeadersOf(e)) && NamesApart(HeadersOf(e))
    && match e
       case Leaf(hs, body) =>
         !Contains(body, MARK) && LeafType(Describe(hs, "text/plain").contentType)
       case Attached(hs, top, message) =>
         MessageType(hs) && ProperHeaders(top) && NamesApart(top) && NoStructure(top) && Proper(message, outer)
       case Multi(hs, b, children) =>
         && MultipartType(hs[0]) && IsBoundary(b) && b !in outer
         && forall i :: 0 <= i < |children| ==> Proper(children[i], outer + {b})
  }

  function Size(e: Entity): (n: nat)
    ensures n >= 1
    decreases e, 0
  {
    match e
    case Leaf(_, _) => 1
    case Multi(_, _, children) => 1 + Sizes(children)
    case Attached(_, _, message) => 1 + Size(message)
  }

  function Sizes(es: seq<Entity>): nat
    decreases es, 1
  {
    if es == [] then 0 else Size(es[0]) + Sizes(es[1..])
  }

  /** No header block is too long and no multipart nested too deep. */
  predicate Within(top: seq<Header>, e: Entity, depth: nat, lim: Limits)
    decreases e
  {
    && |Join(FoldAll(top + HeadersOf(e)), CRLF)| <= lim.maxHeaderBytes
    && match e
       case Leaf(_, _) => true
       case Multi(_, _, children) =>
         && depth < lim.maxDepth
         && forall i :: 0 <= i < |children| ==> Within([], children[i], depth + 1, lim)
       case Attached(_, inner, message) => depth < lim.maxDepth && Within(inner, message, depth + 1, lim)
  }

  /** The part tree an entity stands for. */
  function PartOf(top: seq<Header>, e: Entity): Part
    decreases e, 0
  {
    var hs := top + HeadersOf(e);
    var kind := match e
      case Leaf(_, _) => Single
      case Multi(_, _, children) => Multipart(PartsOf(children))
      case Attached(_, inner, message) => Embedded(PartOf(inner, message));
    Part(hs, Describe(hs, "text/plain"), BodyOf(e), kind)
  }

  function PartsOf(es: seq<Entity>): seq<Part>
    decreases es, 1
  {
    if es == [] then [] else [PartOf([], es[0])] + PartsOf(es[1..])
  }

  // A delimiter line of an enclosing multipart never occurs inside an entity.

  lemma SameBoundary(b: string, b': string, tail: string)
    requires IsBoundary(b) && IsBoundary(b') && StartsWith("--" + b' + tail, "--" + b)
    ensures b == b'
  {
    var x, d := "--" + b' + tail, "--" + b;
    AtChars(x, 0, d);
    forall i | 0 <= i < 43 ensures b[i] == b'[i] {
      assert d[2 + i] == b[i] && x[2 + i] == b'[i] && x[0 + (2 + i)] == d[2 + i];
    }
  }

  lemma OtherBoundary(b: string, b': string, tail: string)
    requires IsBoundary(b) && IsBoundary(b') && b != b' && OneLine(tail)
    ensures LineFree("--" + b' + tail, "--" + b)
  {
    BoundaryChars(b');
    if StartsWith("--" + b' + tail, "--" + b) {
      SameBoundary(b, b', tail);
    }
  }

  lemma BoundaryDelim(b: string)
    requires IsBoundary(b)
    ensures DelimText("--" + b)
  {
    BoundaryChars(b);
  }

  lemma BlockDiffers(hs: seq<Header>, b: string)
    requires IsBoundary(b) && NamesApart(hs)
    ensures forall i :: 0 <= i < |hs| ==> Differs(hs[i].name + ":", "--" + b)
  {
    hide Differs, IsBoundary;
    forall i | 0 <= i < |hs| ensures Differs(hs[i].name + ":", "--" + b) {
      NameDiffers(hs[i].name, b);
    }
  }

  lemma {:induction false} LineFreeEntity(e: Entity, outer: set<string>, b: string)
    requires Proper(e, outer) && b in outer && IsBoundary(b)
    ensures LineFree(Serialize(e), "--" + b)
    decreases e, 1
  {
    hide LineFree, IsBoundary, ProperHeaders, NamesApart, Differs, Contains, MultipartType;
    var d := "--" + b;
    BoundaryDelim(b);
    var block := Join(FoldAll(HeadersOf(e)), CRLF);
    BlockDiffers(HeadersOf(e), b);
    LineFreeBlock(HeadersOf(e), d);
    match e {
      case Leaf(_, body) => LineFreeBody(body, b);
      case Multi(_, b', children) => LineFreeParts(children, outer + {b'}, b, b');
      case Attached(_, top, message) =>
        LineFreeEntity(message, outer, b);
        LineFreeMessage(top, message, b);
    }
    LineFreeShort(d);
    LineFreeCrlf("", BodyOf(e), d);
    LineFreeCrlf(block, "" + CRLF + BodyOf(e), d);
    assert block + CRLF + ("" + CRLF + BodyOf(e)) == block + CRLF + CRLF + BodyOf(e);
  }

  lemma LineFreeMessage(top: seq<Header>, e: Entity, b: string)
    requires ProperHeaders(top) && NamesApart(top) && IsBoundary(b) && LineFree(Serialize(e), "--" + b)
    ensures LineFree(Message(top, e), "--" + b)
  {
    hide LineFree, IsBoundary, ProperHeaders, NamesApart, Differs, Serialize;
    BoundaryDelim(b);
    NothingBefore(Serialize(e));
    if top != [] {
      BlockDiffers(top, b);
      LineFreeBlock(top, "--" + b);
      LineFreeCrlf(Join(FoldAll(top), CRLF), Serialize(e), "--" + b);
    }
  }

  lemma {:induction false} LineFreeParts(es: seq<Entity>, outer: set<string>, b: string, b': string)
    requires forall i :: 0 <= i < |es| ==> Proper(es[i], outer)
    requires b in outer && IsBoundary(b) && IsBoundary(b') && b != b'
    ensures LineFree(SerializeParts(b', es), "--" + b)
    decreases es, 2
  {
    hide LineFree, IsBoundary, Serialize, Proper;
    var d := "--" + b;
    BoundaryDelim(b);
    if es == [] {
      OtherBoundary(b, b', "--");
      LineFreeShort(d);
      LineFreeCrlf("--" + b' + "--", "", d);
      assert "--" + b' + "--" + CRLF + "" == SerializeParts(b', es);
    } else {
      var first, rest := Serialize(es[0]), SerializeParts(b', es[1..]);
      OtherBoundary(b, b', "");
      NothingBefore("--" + b');
      LineFreeEntity(es[0], outer, b);
      LineFreeParts(es[1..], outer, b, b');
      LineFreeCrlf(first, rest, d);
      LineFreeCrlf("--" + b', first + CRLF + rest, d);
      assert "--" + b' + CRLF + (first + CRLF + rest) == SerializeParts(b', es);
    }
  }

  // The boundary parameter reads back.

  lemma BoundaryParam(h: Header, b: string)
    requires MultipartType(h) && IsBoundary(b)
    ensures ParseHeaderValue(h.value + "; boundary=\"" + b + "\"")
            == HeaderValue(h.value, map["boundary" := Plain(b)])
  {
    hide Closed, SplitFrom, AddSegments, AddSegment, Escape, Trim, Lower, Unquote, Join;
    var v, p := h.value, "boundary=\"" + b + "\"";
    BoundaryChars(b);
    EscapePlain(b);
    ClosedPlain(v);
    ClosedAssigned("boundary", b);
    UnquoteQuoted(b);
    assert "boundary" + "=\"" + b + "\"" == p;
    var all := [v, p];
    assert Closed(all[0], false) && Closed(all[1], false);
    JoinTwo(v, p, "; ");
    assert v + "; boundary=\"" + b + "\"" == v + "; " + p;
    SplitJoined(all, "");
    NothingBefore(v);
    assert all[1..] == [p];
    TrimTrimmed(v);
    LowerSame(v);
    AddSpacedIs(NONE, [p]);
    AddFallback(NONE, "boundary", b);
    assert AddSpaced(NONE, [p]) == Segments(map["boundary" := b], map[]);
    assert Finish(Segments(map["boundary" := b], map[])) == map["boundary" := Plain(b)];
  }

  lemma LowerSame(v: string)
    requires forall i :: 0 <= i < |v| ==> LowerChar(v[i]) == v[i]
    ensures Lower(v) == v
  {
  }

  lemma JoinTwo(a: string, b: string, sep: string)
    ensures Join([a, b], sep) == a + sep + b
  {
    assert [a, b][1..] == [b];
  }

  lemma {:induction false} ValuesOfConcat(a: seq<Header>, b: seq<Header>, name: string)
    ensures ValuesOf(a + b, name) == ValuesOf(a, name) + ValuesOf(b, name)
  {
    hide Lower;
    if a == [] {
      NothingBefore(b);
      NothingBefore(ValuesOf(b, name));
    } else {
      assert (a + b)[1..] == a[1..] + b;
      ValuesOfConcat(a[1..], b, name);
      Assoc(if Lower(a[0].name) == Lower(name) then [a[0].value] else [], ValuesOf(a[1..], name), ValuesOf(b, name));
    }
  }

  lemma {:induction false} NoValues(hs: seq<Header>, name: string)
    requires forall i :: 0 <= i < |hs| ==> Lower(hs[i].name) != Lower(name)
    ensures ValuesOf(hs, name) == []
  {
    hide Lower;
    if hs != [] {
      NoValues(hs[1..], name);
    }
  }

  /** The message's own headers do not change the type and the encoding; a custom Content-Disposition comes
      before the entity's. */
  lemma DescribeTop(top: seq<Header>, hs: seq<Header>, defaultType: string)
    requires NoStructure(top)
    ensures var info, own := Describe(top + hs, defaultType), Describe(hs, defaultType);
            info.contentType == own.contentType && info.params == own.params && info.encoding == own.encoding
  {
    hide Lower, ParseHeaderValue, Trim;
    LowerNames();
    var names := ["content-type", "content-transfer-encoding"];
    forall i | 0 <= i < 2 ensures ValuesOf(top + hs, names[i]) == ValuesOf(hs, names[i]) {
      NoValues(top, names[i]);
      ValuesOfConcat(top, hs, names[i]);
      NothingBefore(ValuesOf(hs, names[i]));
    }
    assert names[0] == "content-type" && names[1] == "content-transfer-encoding";
  }

  lemma LowerNames()
    ensures Lower("content-type") == "content-type"
    ensures Lower("content-transfer-encoding") == "content-transfer-encoding"
    ensures Lower("Content-Type") == "content-type"
  {
  }

  lemma DescribeMulti(e: Entity)
    requires e.Multi? && e.headers != [] && MultipartType(e.headers[0]) && IsBoundary(e.boundary)
    ensures var info := Describe(HeadersOf(e), "text/plain");
            && info.contentType == e.headers[0].value
            && info.params == map["boundary" := Plain(e.boundary)]
  {
    hide Lower, ParseHeaderValue, Trim, MultipartType, IsBoundary;
    LowerNames();
    var h := e.headers[0];
    var hs := HeadersOf(e);
    BoundaryParam(h, e.boundary);
    MultipartHasSlash(h);
    assert ValuesOf(hs, "content-type")[0] == hs[0].value;
  }

  lemma MultipartHasSlash(h: Header)
    requires MultipartType(h)
    ensures '/' in h.value && h.name == "Content-Type"
    ensures IsMultipart(h.value) && !IsMessage(h.value) && h.value != "multipart/digest"
  {
    assert h.value[0..10] == h.value[..10];
    AtChars(h.value, 0, "multipart/");
    assert h.value[0 + 9] == "multipart/"[9];
    assert h.value[0 + 1] == "multipart/"[1];
  }

  lemma LeafIsSingle(t: string)
    requires LeafType(t)
    ensures !IsMultipart(t) && !IsMessage(t)
  {
    assert |t| >= 10 ==> t[0..10] == t[..10];
  }

  /** An attached message is one, and is not encoded. */
  lemma DescribeAttached(hs: seq<Header>)
    requires MessageType(hs)
    ensures var info := Describe(hs, "text/plain");
            IsMessage(info.contentType) && !IsMultipart(info.contentType) && info.encoding == "7bit"
  {
    hide ParseHeaderValue;
    var own := [hs[0]];
    assert hs == own + hs[1..];
    DescribeAfter(own[0], hs[1..]);
    MessageValue("message/rfc822");
    MessageValue("message/global");
  }

  /** The first header tells the type. */
  lemma DescribeAfter(h: Header, more: seq<Header>)
    requires h.name == "Content-Type" && NoStructure(more)
    ensures Raw([h] + more, "content-type") == Some(h.value) && Raw([h] + more, "content-transfer-encoding") == None
  {
    hide Lower;
    LowerNames();
    var names := ["content-type", "content-transfer-encoding"];
    assert names[1] == "content-transfer-encoding";
    forall i | 0 <= i < |more| ensures Lower(more[i].name) != Lower("content-transfer-encoding") {
      assert Lower(more[i].name) !in names;
    }
    NoValues(more, "content-transfer-encoding");
    assert ([h] + more)[1..] == more;
    NamesDiffer();
  }

  lemma NamesDiffer()
    ensures "content-type" != "content-transfer-encoding"
  {
    assert |"content-type"| != |"content-transfer-encoding"|;
  }

  lemma MessageValue(v: string)
    requires v == "message/rfc822" || v == "message/global"
    ensures v != "" && ParseHeaderValue(v).value == v && '/' in v
    ensures Lower(Trim("7bit")) == "7bit" && IsMessage(v) && !IsMultipart(v)
  {
    hide Lower, Trim, MainValue, ParseHeaderValue;
    assert v[7] == '/' && v[1] == 'e';
    AtChars(v, 0, "multipart/");
    assert "multipart/"[1] == 'u';
    MessageChars(v);
    PlainValue(v);
    SevenBit();
  }

  lemma SevenBit()
    ensures Lower(Trim("7bit")) == "7bit"
  {
    hide Trim;
    var s := "7bit";
    assert s[0] == '7' && s[3] == 't';
    TrimTrimmed(s);
    LowerSame(s);
  }

  lemma MessageChars(v: string)
    requires v == "message/rfc822" || v == "message/global"
    ensures MainValue(v)
  {
    forall i | 0 <= i < |v| ensures v[i] in "mesagrfclob/82" {
    }
    assert v[0] == 'm';
  }

  lemma PlainValue(v: string)
    requires MainValue(v)
    ensures ParseHeaderValue(v).value == v
  {
    hide Trim, Finish, AddSegments;
    ClosedPlain(v);
    var all := [v];
    JoinOne(v, "; ");
    SplitJoined(all, "");
    NothingBefore(v);
    TrimTrimmed(v);
    LowerSame(v);
  }

  /** `text` leaves plain ASCII without "=?" alone, as decodeRfc2047 does. */
  ghost predicate KeepsBoundaries(text: ParamValue -> string) {
    forall b: string :: IsBoundary(b) ==> text(Plain(b)) == b
  }

  lemma HeadRoundTrip(top: seq<Header>, e: Entity)
    requires HeadersOf(e) != [] && ProperHeaders(HeadersOf(e)) && ProperHeaders(top)
    ensures var hs, s := top + HeadersOf(e), Message(top, e);
            && SplitHeadBody(s) == (Join(FoldAll(hs), CRLF), BodyOf(e))
            && ParseHeaders(Join(FoldAll(hs), CRLF)) == hs
  {
    hide SplitHeadBody, ParseHeaders, FoldAll, Join, BodyOf;
    var hs := top + HeadersOf(e);
    assert HeadersOf(e) != [] && ProperHeaders(HeadersOf(e));
    assert ProperHeaders(hs);
    HeadBodyRoundTrip(hs, BodyOf(e));
    HeadersRoundTrip(hs);
    MessageIs(top, e);
  }

  lemma MessageIs(top: seq<Header>, e: Entity)
    requires HeadersOf(e) != []
    ensures Message(top, e) == SerializeHeaders(top + HeadersOf(e)) + CRLF + BodyOf(e)
  {
    hide SerializeHeaders, BodyOf;
    NothingBefore(HeadersOf(e));
    NothingBefore(Serialize(e));
    if top != [] {
      SerializeConcat(top, HeadersOf(e));
      Assoc(SerializeHeaders(top), SerializeHeaders(HeadersOf(e)), CRLF);
      Assoc(SerializeHeaders(top), SerializeHeaders(HeadersOf(e)) + CRLF, BodyOf(e));
    }
  }

  /** What parsing one entity does, once its head is known. */
  lemma ParseKnown(s: string, hs: seq<Header>, body: string, depth: nat, c: Ctx, lim: Limits, text: ParamValue -> string)
    requires SplitHeadBody(s) == (Join(FoldAll(hs), CRLF), body) && ParseHeaders(Join(FoldAll(hs), CRLF)) == hs
    requires |Join(FoldAll(hs), CRLF)| <= lim.maxHeaderBytes
    ensures var info := Describe(hs, "text/plain");
            var c1 := Ctx(c.parts + 1, c.truncated);
            && (!IsMultipart(info.contentType) && !IsMessage(info.contentType) ==>
                  ParseMime(s, "text/plain", depth, c, lim, text) == (Part(hs, info, body, Single), c1))
            && (IsMultipart(info.contentType) && info.contentType != "multipart/digest"
                && depth < lim.maxDepth && BoundaryOf(info, text) != "" ==>
                  var r := ParseParts(SplitMultipart(body, "--" + BoundaryOf(info, text), 0, -1),
                                      "text/plain", depth + 1, c1, lim, text);
                  ParseMime(s, "text/plain", depth, c, lim, text) == (Part(hs, info, body, Multipart(r.0)), r.1))
            && (IsMessage(info.contentType) && !IsMultipart(info.contentType)
                && depth < lim.maxDepth && c1.parts < lim.maxParts ==>
                  var decoded := if info.encoding in ["base64", "quoted-printable"] then DecodeTransfer(body, info.encoding)
                                 else body;
                  var r := ParseMime(decoded, "text/plain", depth + 1, c1, lim, text);
                  ParseMime(s, "text/plain", depth, c, lim, text) == (Part(hs, info, body, Embedded(r.0)), r.1))
  {
    hide SplitHeadBody, ParseHeaders, Describe, IsMultipart, IsMessage, BoundaryOf, SplitMultipart, ParseParts, DecodeTransfer;
  }

  /** A multipart entity is recognised, and its body is split at its own boundary. */
  lemma BodyRoundTrip(e: Entity, outer: set<string>, text: ParamValue -> string)
    requires e.Multi? && Proper(e, outer) && KeepsBoundaries(text)
    ensures var info := Describe(HeadersOf(e), "text/plain");
            && IsMultipart(info.contentType) && info.contentType != "multipart/digest"
            && BoundaryOf(info, text) == e.boundary && e.boundary != ""
    ensures SplitMultipart(BodyOf(e), "--" + e.boundary, 0, -1) == SerializeAll(e.children)
  {
    hide SplitMultipart, Describe, Serialize, SerializeParts, MultipartType, IsMultipart, KeepsBoundaries, LineFree, SerializeAll;
    var b := e.boundary;
    DescribeMulti(e);
    MultipartHasSlash(e.headers[0]);
    BoundaryKept(b, text);
    BoundaryDelim(b);
    forall i | 0 <= i < |e.children| ensures LineFree(Serialize(e.children[i]), "--" + b) {
      LineFreeEntity(e.children[i], outer + {b}, b);
    }
    MultipartRoundTrip(b, e.children);
  }

  /** What is known of an entity before its body is looked at. */
  lemma EntityHead(top: seq<Header>, e: Entity, outer: set<string>, depth: nat, c: Ctx, lim: Limits, text: ParamValue -> string)
    requires Proper(e, outer) && ProperHeaders(top) && NoStructure(top) && Within(top, e, depth, lim)
    ensures var hs, s := top + HeadersOf(e), Message(top, e);
            var info, own := Describe(hs, "text/plain"), Describe(HeadersOf(e), "text/plain");
            && SplitHeadBody(s) == (Join(FoldAll(hs), CRLF), BodyOf(e)) && ParseHeaders(Join(FoldAll(hs), CRLF)) == hs
            && |Join(FoldAll(hs), CRLF)| <= lim.maxHeaderBytes
            && info.contentType == own.contentType && info.params == own.params && info.encoding == own.encoding
  {
    hide ParseMime, SplitMultipart, Describe, SplitHeadBody, ParseHeaders, Message, Serialize, MultipartType, MessageType, LeafType,
      Contains, NoStructure, ProperHeaders, FoldAll, Join, BodyOf;
    HeadRoundTrip(top, e);
    DescribeTop(top, HeadersOf(e), "text/plain");
  }

  lemma LeafParsed(top: seq<Header>, e: Entity, outer: set<string>, depth: nat, c: Ctx, lim: Limits, text: ParamValue -> string)
    requires e.Leaf? && Proper(e, outer) && ProperHeaders(top) && NoStructure(top) && Within(top, e, depth, lim)
    ensures ParseMime(Message(top, e), "text/plain", depth, c, lim, text) == (PartOf(top, e), Ctx(c.parts + 1, c.truncated))
  {
    EntityHead(top, e, outer, depth, c, lim, text);
    ParseKnown(Message(top, e), top + HeadersOf(e), BodyOf(e), depth, c, lim, text);
    LeafIsSingle(Describe(HeadersOf(e), "text/plain").contentType);
    hide ParseMime, Describe, SplitHeadBody, ParseHeaders, Message, Serialize, IsMultipart, IsMessage, LeafType, Contains, NoStructure,
      ProperHeaders, FoldAll, Join, BoundaryOf, DecodeTransfer;
  }

  lemma AttachedParsed(top: seq<Header>, e: Entity, outer: set<string>, depth: nat, c: Ctx, lim: Limits, text: ParamValue -> string)
    requires e.Attached? && Proper(e, outer) && ProperHeaders(top) && NoStructure(top) && Within(top, e, depth, lim)
    requires c.parts + 1 < lim.maxParts
    ensures var c1 := Ctx(c.parts + 1, c.truncated);
            var r := ParseMime(Message(e.top, e.message), "text/plain", depth + 1, c1, lim, text);
            ParseMime(Message(top, e), "text/plain", depth, c, lim, text)
            == (Part(top + HeadersOf(e), Describe(top + HeadersOf(e), "text/plain"), BodyOf(e), Embedded(r.0)), r.1)
  {
    EntityHead(top, e, outer, depth, c, lim, text);
    ParseKnown(Message(top, e), top + HeadersOf(e), BodyOf(e), depth, c, lim, text);
    DescribeAttached(e.headers);
    AttachedBody(e);
    hide ParseMime, Describe, SplitHeadBody, ParseHeaders, Message, Serialize, IsMultipart, IsMessage, Contains, NoStructure,
      ProperHeaders, FoldAll, Join, BoundaryOf, DecodeTransfer, BodyOf, MessageType;
  }

  lemma MultiParsed(top: seq<Header>, e: Entity, outer: set<string>, depth: nat, c: Ctx, lim: Limits, text: ParamValue -> string)
    requires e.Multi? && Proper(e, outer) && ProperHeaders(top) && NoStructure(top) && Within(top, e, depth, lim)
    requires KeepsBoundaries(text)
    ensures var r := ParseParts(SerializeAll(e.children), "text/plain", depth + 1, Ctx(c.parts + 1, c.truncated), lim, text);
            ParseMime(Message(top, e), "text/plain", depth, c, lim, text)
            == (Part(top + HeadersOf(e), Describe(top + HeadersOf(e), "text/plain"), BodyOf(e), Multipart(r.0)), r.1)
  {
    EntityHead(top, e, outer, depth, c, lim, text);
    ParseKnown(Message(top, e), top + HeadersOf(e), BodyOf(e), depth, c, lim, text);
    BodyRoundTrip(e, outer, text);
    hide ParseMime, ParseParts, Describe, SplitHeadBody, ParseHeaders, Message, Serialize, IsMultipart, IsMessage, Contains, NoStructure,
      ProperHeaders, FoldAll, Join, BodyOf, MultipartType, SplitMultipart, SerializeAll, KeepsBoundaries;
    SameBoundaryParam(Describe(top + HeadersOf(e), "text/plain"), Describe(HeadersOf(e), "text/plain"), text);
    hide BoundaryOf;
  }

  /** MIME tree round trip: parsing a serialised tree gives the tree back, whatever its shape. */
  lemma {:induction false} TreeRoundTrip(
    top: seq<Header>, e: Entity, outer: set<string>, depth: nat, c: Ctx, lim: Limits, text: ParamValue -> string)
    requires Proper(e, outer) && ProperHeaders(top) && NoStructure(top) && KeepsBoundaries(text)
    requires Within(top, e, depth, lim) && c.parts + Size(e) <= lim.maxParts
    ensures ParseMime(Message(top, e), "text/plain", depth, c, lim, text)
            == (PartOf(top, e), Ctx(c.parts + Size(e), c.truncated))
    decreases e, 1
  {
    hide ParseMime, ParseParts, Describe, Message, Serialize, MultipartType, MessageType, LeafType, Contains, KeepsBoundaries, NoStructure,
      ProperHeaders, PartsOf, Sizes, FoldAll, Join, BodyOf, SerializeAll;
    match e {
      case Leaf(_, _) => LeafParsed(top, e, outer, depth, c, lim, text);
      case Attached(_, inner, message) =>
        AttachedParsed(top, e, outer, depth, c, lim, text);
        TreeRoundTrip(inner, message, outer, depth + 1, Ctx(c.parts + 1, c.truncated), lim, text);
      case Multi(_, b, children) =>
        MultiParsed(top, e, outer, depth, c, lim, text);
        PartsRoundTrip(children, outer + {b}, depth + 1, Ctx(c.parts + 1, c.truncated), lim, text);
    }
  }

  lemma SameBoundaryParam(info: Info, info': Info, text: ParamValue -> string)
    requires info.params == info'.params
    ensures BoundaryOf(info, text) == BoundaryOf(info', text)
  {
  }

  lemma AttachedBody(e: Entity)
    requires e.Attached?
    ensures BodyOf(e) == Message(e.top, e.message)
  {
  }

  lemma BoundaryKept(b: string, text: ParamValue -> string)
    requires KeepsBoundaries(text) && IsBoundary(b)
    ensures text(Plain(b)) == b && b != ""
  {
  }

  lemma {:induction false} PartsRoundTrip(
    es: seq<Entity>, outer: set<string>, depth: nat, c: Ctx, lim: Limits, text: ParamValue -> string)
    requires KeepsBoundaries(text) && c.parts + Sizes(es) <= lim.maxParts
    requires forall i :: 0 <= i < |es| ==> Within([], es[i], depth, lim)
    ensures (forall i :: 0 <= i < |es| ==> Proper(es[i], outer)) ==>
              ParseParts(SerializeAll(es), "text/plain", depth, c, lim, text)
              == (PartsOf(es), Ctx(c.parts + Sizes(es), c.truncated))
    decreases es, 2
  {
    hide ParseMime, Serialize, Proper, Within, KeepsBoundaries, PartOf, Size;
    if es != [] && forall i :: 0 <= i < |es| ==> Proper(es[i], outer) {
      assert SerializeAll(es)[1..] == SerializeAll(es[1..]);
      TreeRoundTrip([], es[0], outer, depth, c, lim, text);
      NothingBefore(Serialize(es[0]));
      assert Message([], es[0]) == Serialize(es[0]);
      PartsRoundTrip(es[1..], outer, depth, Ctx(c.parts + Size(es[0]), c.truncated), lim, text);
    }
  }
}
