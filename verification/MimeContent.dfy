/** Built messages: entity trees whose leaves carry encoded content (src/core/Message.ts), and what
    src/core/MimeParser.ts makes of them. */
module MimeContent {
  import opened Text
  import opened Params
  import opened Headers
  import opened MimeTree
  import QP = QuotedPrintable
  import Base64

  /** Text and quoted-printable attachments, base64 attachments, multiparts of these, and attached messages
      with headers of their own. */
  datatype Built =
    | QpLeaf(headers: seq<Header>, content: string)
    | Base64Leaf(headers: seq<Header>, content: string)
    | Group(headers: seq<Header>, boundary: string, children: seq<Built>)
    | Forward(headers: seq<Header>, top: seq<Header>, message: Built)

  function EntityOf(t: Built): Entity
    requires BytesIn(t)
    decreases t, 0
  {
    match t
    case QpLeaf(hs, content) => Leaf(hs, QP.Enc(content, ""))
    case Base64Leaf(hs, content) => Leaf(hs, Base64.Wrap(Base64.Encode(content)))
    case Group(hs, b, children) => Multi(hs, b, EntitiesOf(children))
    case Forward(hs, top, message) => Attached(hs, top, EntityOf(message))
  }

  function EntitiesOf(ts: seq<Built>): (es: seq<Entity>)
    requires forall i :: 0 <= i < |ts| ==> BytesIn(ts[i])
    ensures |es| == |ts| && forall i :: 0 <= i < |ts| ==> es[i] == EntityOf(ts[i])
    decreases ts, 1
  {
    if ts == [] then [] else [EntityOf(ts[0])] + EntitiesOf(ts[1..])
  }

  predicate BytesIn(t: Built) {
    match t
    case QpLeaf(_, content) => Bytes(content)
    case Base64Leaf(_, content) => Bytes(content)
    case Group(_, _, children) => forall i :: 0 <= i < |children| ==> BytesIn(children[i])
    case Forward(_, _, message) => BytesIn(message)
  }

  predicate LeafHeaders(hs: seq<Header>, encoding: string) {
    var info := Describe(hs, "text/plain");
    hs != [] && info.encoding == encoding && LeafType(info.contentType)
  }

  /** A tree the builder makes: leaf headers announce the encoding that was used, and nested boundaries
      differ. Nothing is asked of the content. */
  ghost predicate ProperBuilt(t: Built, outer: set<string>)
    decreases t
  {
    match t
    case QpLeaf(hs, _) => LeafHeaders(hs, "quoted-printable") && ProperHeaders(hs) && NamesApart(hs)
    case Base64Leaf(hs, _) => LeafHeaders(hs, "base64") && ProperHeaders(hs) && NamesApart(hs)
    case Group(hs, b, children) =>
      && hs != [] && MultipartType(hs[0]) && IsBoundary(b) && b !in outer
      && ProperHeaders(HeadersOf(Multi(hs, b, []))) && NamesApart(HeadersOf(Multi(hs, b, [])))
      && forall i :: 0 <= i < |children| ==> ProperBuilt(children[i], outer + {b})
    case Forward(hs, top, message) =>
      && MessageType(hs) && ProperHeaders(hs) && NamesApart(hs)
      && ProperHeaders(top) && NamesApart(top) && NoStructure(top) && ProperBuilt(message, outer)
  }

  datatype Content = Document(bytes: string) | Container(parts: seq<Content>) | Mail(headers: seq<Header>, content: Content)

  /** What a reader of the parsed message sees. */
  function ContentOf(p: Part): Content
    decreases p, 0
  {
    match p.kind
    case Single => Document(DecodeTransfer(p.rawBody, p.info.encoding))
    case Multipart(parts) => Container(ContentsOf(parts))
    case Embedded(message) => Mail(message.headers, ContentOf(message))
  }

  function ContentsOf(ps: seq<Part>): seq<Content>
    decreases ps, 1
  {
    if ps == [] then [] else [ContentOf(ps[0])] + ContentsOf(ps[1..])
  }

  /** What the builder was given: quoted-printable turns line breaks into CRLF, base64 keeps every byte. */
  function Given(t: Built): Content
    requires BytesIn(t)
    decreases t, 0
  {
    match t
    case QpLeaf(_, content) => Document(QP.NormalizeCrlf(content))
    case Base64Leaf(_, content) => Document(content)
    case Group(_, _, children) => Container(AllGiven(children))
    case Forward(_, top, message) => Mail(top + HeadersOf(EntityOf(message)), Given(message))
  }

  function AllGiven(ts: seq<Built>): seq<Content>
    requires forall i :: 0 <= i < |ts| ==> BytesIn(ts[i])
    decreases ts, 1
  {
    if ts == [] then [] else [Given(ts[0])] + AllGiven(ts[1..])
  }

  // ---- "=_" occurs in no encoded body ------------------------------------------------

  lemma StartsMark(s: string)
    ensures StartsWith(s, MARK) <==> |s| >= 2 && s[0] == '=' && s[1] == '_'
  {
    if |s| >= 2 {
      assert s[0..2] == [s[0], s[1]];
    }
  }

  lemma {:induction false} NoMarkTokens(x: string, y: string)
    requires QP.Tokens(x) && !Contains(y, MARK)
    ensures !Contains(x + y, MARK)
    decreases |x|
  {
    hide Contains, QP.Tokens;
    if x == "" {
      NothingBefore(y);
    } else {
      var k := QP.TokenLength(x);
      assert (x + y)[k..] == x[k..] + y;
      NoMarkTokens(x[k..], y);
      NoMarkStep(x + y);
      if k == 3 {
        NoMarkStep((x + y)[1..]);
        NoMarkStep((x + y)[2..]);
        assert (x + y)[1..][1..] == (x + y)[2..] && (x + y)[2..][1..] == (x + y)[3..];
      }
    }
  }

  lemma NoMarkStep(s: string)
    requires s != "" && (s[0] != '=' || (|s| > 1 && s[1] != '_'))
    ensures Contains(s, MARK) <==> Contains(s[1..], MARK)
  {
    ContainsTail(s, MARK);
    StartsMark(s);
  }

  lemma NoMarkNothing()
    ensures !Contains("", MARK)
  {
  }

  lemma NoMarkBreak(y: string)
    requires !Contains(y, MARK)
    ensures !Contains(CRLF + y, MARK) && !Contains(QP.SOFT + y, MARK)
  {
    hide Contains;
    var s := QP.SOFT + y;
    assert s[1..] == CRLF + y && s[1..][1..][1..] == y;
    NoMarkStep(s);
    NoMarkStep(s[1..]);
    NoMarkStep(s[1..][1..]);
  }

  lemma {:induction false} QpHasNoMark(b: string, line: string)
    requires Bytes(b) && QP.LineOk(line, b)
    ensures !Contains(QP.Enc(b, line), MARK)
    decreases |b|
  {
    hide Contains, QP.Tokens, QP.Token;
    QP.TokensEmpty();
    if b == "" {
      NoMarkNothing();
      NoMarkTokens(line, "");
      NothingBefore(line);
    } else if b[0] == '\r' && Break(b) == 2 {
      QpHasNoMark(b[1..], line);
    } else if b[0] == '\n' {
      var rest := QP.Enc(b[1..], "");
      QpHasNoMark(b[1..], "");
      NoMarkBreak(rest);
      NoMarkTokens(line, CRLF + rest);
      Assoc(line, CRLF, rest);
    } else {
      var tok := QP.Token(b[0], b[1..]);
      NothingBefore(tok);
      if |line| + |tok| > 75 {
        QP.LineOkToken("", b);
        var rest := QP.Enc(b[1..], tok);
        QpHasNoMark(b[1..], tok);
        NoMarkBreak(rest);
        NoMarkTokens(line, QP.SOFT + rest);
        Assoc(line, QP.SOFT, rest);
      } else {
        QP.LineOkToken(line, b);
        QpHasNoMark(b[1..], line + tok);
      }
    }
  }

  predicate NoUnderscore(s: string) { forall i :: 0 <= i < |s| ==> s[i] != '_' }

  lemma {:induction false} WrapAllPlain(s: string)
    requires NoUnderscore(s)
    ensures NoUnderscore(Base64.WrapAll(s))
  {
    if |s| >= 76 {
      WrapAllPlain(s[76..]);
    }
  }

  lemma Base64HasNoMark(b: string)
    requires Bytes(b)
    ensures !Contains(Base64.Wrap(Base64.Encode(b)), MARK)
  {
    hide Base64.Digits;
    WrapAllPlain(Base64.Encode(b));
    var s := Base64.Wrap(Base64.Encode(b));
    assert NoUnderscore(s);
    forall i ensures !At(s, i, MARK) {
      AtChars(s, i, MARK);
      assert MARK[1] == '_';
    }
  }

  // ---- Whole messages ----------------------------------------------------------------

  lemma {:induction false} BuiltIsProper(t: Built, outer: set<string>)
    requires BytesIn(t)
    ensures ProperBuilt(t, outer) ==> Proper(EntityOf(t), outer)
    decreases t
  {
    hide Contains, ProperHeaders, NamesApart, Describe, MultipartType, IsBoundary, QP.Enc, Base64.Wrap, Base64.Encode;
    if ProperBuilt(t, outer) {
      match t {
        case QpLeaf(hs, content) =>
          QP.TokensEmpty();
          QpHasNoMark(content, "");
        case Base64Leaf(hs, content) => Base64HasNoMark(content);
        case Group(hs, b, children) =>
          forall i | 0 <= i < |children| ensures Proper(EntityOf(children[i]), outer + {b}) {
            BuiltIsProper(children[i], outer + {b});
          }
        case Forward(_, _, message) => BuiltIsProper(message, outer);
      }
    }
  }

  lemma {:induction false} ContentRoundTrip(top: seq<Header>, t: Built, outer: set<string>)
    requires BytesIn(t) && NoStructure(top)
    ensures ProperBuilt(t, outer) ==> ContentOf(PartOf(top, EntityOf(t))) == Given(t)
    decreases t, 1
  {
    hide ProperHeaders, Describe, MultipartType, IsBoundary, NoStructure, DecodeTransfer,
      QP.Enc, QP.Decode, QP.NormalizeCrlf, Base64.Wrap, Base64.Encode, Base64.DecodeBody;
    if ProperBuilt(t, outer) {
      match t {
        case QpLeaf(hs, content) =>
          DescribeTop(top, hs, "text/plain");
          QP.RoundTrip(content);
          DecodeCases(QP.Enc(content, ""));
        case Base64Leaf(hs, content) =>
          DescribeTop(top, hs, "text/plain");
          Base64.BodyRoundTrip(content);
          DecodeCases(Base64.Wrap(Base64.Encode(content)));
        case Group(hs, b, children) => ContentsRoundTrip(children, outer + {b});
        case Forward(_, inner, message) => ContentRoundTrip(inner, message, outer);
      }
    }
  }

  lemma DecodeCases(raw: string)
    ensures DecodeTransfer(raw, "base64") == Base64.DecodeBody(raw)
    ensures DecodeTransfer(raw, "quoted-printable") == QP.Decode(raw)
  {
  }

  lemma {:induction false} ContentsRoundTrip(ts: seq<Built>, outer: set<string>)
    requires forall i :: 0 <= i < |ts| ==> BytesIn(ts[i])
    ensures (forall i :: 0 <= i < |ts| ==> ProperBuilt(ts[i], outer))
            ==> ContentsOf(PartsOf(EntitiesOf(ts))) == AllGiven(ts)
    decreases ts, 2
  {
    hide EntityOf, PartOf, ContentOf, Given, BytesIn, ProperBuilt;
    if ts != [] && forall i :: 0 <= i < |ts| ==> ProperBuilt(ts[i], outer) {
      ContentRoundTrip([], ts[0], outer);
      ContentsRoundTrip(ts[1..], outer);
      assert PartsOf(EntitiesOf(ts))[1..] == PartsOf(EntitiesOf(ts[1..]));
    }
  }

  /** A built message, parsed within the limits, has the tree and the content it was built from. */
  lemma MessageRoundTrip(top: seq<Header>, t: Built, lim: Limits, text: ParamValue -> string)
    requires BytesIn(t) && ProperHeaders(top) && NoStructure(top) && KeepsBoundaries(text)
    requires Within(top, EntityOf(t), 0, lim) && Size(EntityOf(t)) <= lim.maxParts
    ensures ProperBuilt(t, {}) ==>
              var (part, ctx) := ParseMime(Message(top, EntityOf(t)), "text/plain", 0, Ctx(0, false), lim, text);
              && !ctx.truncated && ctx.parts == Size(EntityOf(t))
              && part == PartOf(top, EntityOf(t)) && ContentOf(part) == Given(t)
  {
    hide ParseMime, EntityOf, PartOf, ContentOf, Given, Within, Size, Message, ProperBuilt, Proper;
    if ProperBuilt(t, {}) {
      BuiltIsProper(t, {});
      TreeRoundTrip(top, EntityOf(t), {}, 0, Ctx(0, false), lim, text);
      ContentRoundTrip(top, t, {});
    }
  }

  // ---- What the headers of a part say ------------------------------------------------

  /** Headers of an attachment, as attachmentEntity makes them. */
  function AttachmentHeaders(ct: string, cd: string, extra: seq<Header>, encoding: string): seq<Header> {
    [Header("Content-Type", ct), Header("Content-Disposition", cd)] + extra + [Header("Content-Transfer-Encoding", encoding)]
  }

  const STRUCTURE := ["content-type", "content-disposition", "content-transfer-encoding"]

  predicate OtherNames(hs: seq<Header>) {
    forall i :: 0 <= i < |hs| ==> Lower(hs[i].name) !in STRUCTURE
  }

  lemma NoneOf(hs: seq<Header>, k: nat)
    requires OtherNames(hs) && k < 3
    ensures ValuesOf(hs, STRUCTURE[k]) == []
  {
    StructureLower();
    hide Lower;
    forall i | 0 <= i < |hs| ensures Lower(hs[i].name) != Lower(STRUCTURE[k]) {
      assert STRUCTURE[k] in STRUCTURE;
    }
    NoValues(hs, STRUCTURE[k]);
  }

  lemma StructureLower()
    ensures forall k :: 0 <= k < 3 ==> Lower(STRUCTURE[k]) == STRUCTURE[k]
    ensures Lower("Content-Type") == STRUCTURE[0] && Lower("Content-Disposition") == STRUCTURE[1]
    ensures Lower("Content-Transfer-Encoding") == STRUCTURE[2]
    ensures STRUCTURE[0] != STRUCTURE[1] && STRUCTURE[1] != STRUCTURE[2] && STRUCTURE[0] != STRUCTURE[2]
  {
    hide Lower;
    LowerNames();
    LowerDisposition();
    LowerEncoding();
    assert |STRUCTURE[0]| != |STRUCTURE[1]| && |STRUCTURE[1]| != |STRUCTURE[2]| && |STRUCTURE[0]| != |STRUCTURE[2]|;
  }

  lemma LowerDisposition()
    ensures Lower("Content-Disposition") == "content-disposition" && Lower("content-disposition") == "content-disposition"
  {
  }

  lemma LowerEncoding()
    ensures Lower("Content-Transfer-Encoding") == "content-transfer-encoding"
  {
  }

  lemma OneValue(h: Header, name: string)
    ensures ValuesOf([h], name) == if Lower(h.name) == Lower(name) then [h.value] else []
  {
    assert [h][1..] == [];
  }

  lemma StructureValues(ct: string, cd: string, extra: seq<Header>, encoding: string)
    requires OtherNames(extra)
    ensures var hs := AttachmentHeaders(ct, cd, extra, encoding);
            && ValuesOf(hs, STRUCTURE[0]) == [ct] && ValuesOf(hs, STRUCTURE[1]) == [cd] && ValuesOf(hs, STRUCTURE[2]) == [encoding]
  {
    hide Lower, ValuesOf, OtherNames;
    StructureLower();
    var a, b, c := Header("Content-Type", ct), Header("Content-Disposition", cd), Header("Content-Transfer-Encoding", encoding);
    assert [a, b] == [a] + [b];
    forall k | 0 <= k < 3
      ensures ValuesOf(AttachmentHeaders(ct, cd, extra, encoding), STRUCTURE[k])
              == ValuesOf([a], STRUCTURE[k]) + ValuesOf([b], STRUCTURE[k]) + [] + ValuesOf([c], STRUCTURE[k])
    {
      NoneOf(extra, k);
      ValuesOfConcat([a, b] + extra, [c], STRUCTURE[k]);
      ValuesOfConcat([a, b], extra, STRUCTURE[k]);
      ValuesOfConcat([a], [b], STRUCTURE[k]);
    }
    forall k | 0 <= k < 3
      ensures ValuesOf([a], STRUCTURE[k]) == (if k == 0 then [ct] else [])
      ensures ValuesOf([b], STRUCTURE[k]) == (if k == 1 then [cd] else [])
      ensures ValuesOf([c], STRUCTURE[k]) == (if k == 2 then [encoding] else [])
    {
      OneValue(a, STRUCTURE[k]);
      OneValue(b, STRUCTURE[k]);
      OneValue(c, STRUCTURE[k]);
    }
  }

  lemma WithParamsSome(value: string, params: seq<Param>, utf8: string -> string, nfkd: string -> string)
    requires value != "" && forall v :: Bytes(utf8(v))
    ensures WithParams(value, params, utf8, nfkd) != ""
  {
    var parts := [value] + Formatted(params, utf8, nfkd);
    assert parts[0] == value;
  }

  /** What the reader makes of an attachment's headers: the type and the disposition with their parameters,
      and the encoding, as the builder was given them. */
  lemma AttachmentDescribed(
    t: string, ps: seq<Param>, d: string, ds: seq<Param>, extra: seq<Header>, encoding: string, defaultType: string,
    utf8: string -> string, nfkd: string -> string)
    requires MainValue(t) && '/' in t && MainValue(d) && d != "" && ProperParams(ps) && ProperParams(ds) && OtherNames(extra)
    requires encoding in ["7bit", "8bit", "base64", "quoted-printable"]
    requires (forall v :: Bytes(utf8(v))) && (forall v :: v != "" ==> utf8(v) != "")
    ensures var hs := AttachmentHeaders(WithParams(t, ps, utf8, nfkd), WithParams(d, ds, utf8, nfkd), extra, encoding);
            Describe(hs, defaultType) == Info(t, ExpectedAll(ps, utf8), d, ExpectedAll(ds, utf8), encoding)
  {
    ParamsRoundTrip(t, ps, utf8, nfkd);
    ParamsRoundTrip(d, ds, utf8, nfkd);
    WithParamsSome(t, ps, utf8, nfkd);
    WithParamsSome(d, ds, utf8, nfkd);
    StructureValues(WithParams(t, ps, utf8, nfkd), WithParams(d, ds, utf8, nfkd), extra, encoding);
    EncodingKept(encoding);
    hide ParseHeaderValue, WithParams, MainValue, ProperParams, Lower, Trim, ValuesOf, AttachmentHeaders, ExpectedAll;
  }

  lemma EncodingKept(encoding: string)
    requires encoding in ["7bit", "8bit", "base64", "quoted-printable"]
    ensures Lower(Trim(encoding)) == encoding
  {
    hide Lower, Trim;
    EncodingChars(encoding);
    TrimTrimmed(encoding);
    LowerSame(encoding);
  }

  lemma EncodingChars(encoding: string)
    requires encoding in ["7bit", "8bit", "base64", "quoted-printable"]
    ensures Trimmed(encoding) && forall i :: 0 <= i < |encoding| ==> LowerChar(encoding[i]) == encoding[i]
  {
    hide Trimmed, LowerChar;
    if encoding == "quoted-printable" { QpChars(); } else { BitChars(encoding); }
  }

  lemma QpChars()
    ensures Trimmed("quoted-printable")
    ensures forall i :: 0 <= i < |"quoted-printable"| ==> LowerChar("quoted-printable"[i]) == "quoted-printable"[i]
  {
  }

  lemma BitChars(encoding: string)
    requires encoding == "7bit" || encoding == "8bit" || encoding == "base64"
    ensures Trimmed(encoding) && forall i :: 0 <= i < |encoding| ==> LowerChar(encoding[i]) == encoding[i]
  {
  }

  /** Without headers a part has the default type, no disposition and needs no decoding. */
  lemma NothingDescribed(defaultType: string)
    ensures Describe([], defaultType) == Info(defaultType, map[], "", map[], "7bit")
  {
    SevenBit();
  }

  /** The headers announce a message in base64. */
  predicate EncodedMessage(hs: seq<Header>) {
    var info := Describe(hs, "text/plain");
    info.encoding == "base64" && info.contentType in ["message/rfc822", "message/global"]
  }

  lemma EncodedParsed(s: string, hs: seq<Header>, body: string, depth: nat, c: Ctx, lim: Limits, text: ParamValue -> string)
    requires EncodedMessage(hs)
    requires SplitHeadBody(s) == (Join(FoldAll(hs), CRLF), body) && ParseHeaders(Join(FoldAll(hs), CRLF)) == hs
    requires |Join(FoldAll(hs), CRLF)| <= lim.maxHeaderBytes && depth < lim.maxDepth && c.parts + 1 < lim.maxParts
    ensures var r := ParseMime(Base64.DecodeBody(body), "text/plain", depth + 1, Ctx(c.parts + 1, c.truncated), lim, text);
            ParseMime(s, "text/plain", depth, c, lim, text)
            == (Part(hs, Describe(hs, "text/plain"), body, Embedded(r.0)), r.1)
  {
    hide ParseMime, SplitHeadBody, ParseHeaders, Describe, FoldAll, Join, Base64.DecodeBody, DecodeTransfer, IsMessage, IsMultipart;
    MessageValue(Describe(hs, "text/plain").contentType);
    ParseKnown(s, hs, body, depth, c, lim, text);
    DecodeCases(body);
  }

  /** A message attached in base64 is read as one, too. */
  lemma EncodedMessageRead(
    hs: seq<Header>, top: seq<Header>, e: Entity, outer: set<string>, depth: nat, c: Ctx, lim: Limits, text: ParamValue -> string)
    requires hs != [] && ProperHeaders(hs) && EncodedMessage(hs)
    requires Proper(e, outer) && ProperHeaders(top) && NoStructure(top) && KeepsBoundaries(text) && Bytes(Message(top, e))
    requires |Join(FoldAll(hs), CRLF)| <= lim.maxHeaderBytes && depth < lim.maxDepth && Within(top, e, depth + 1, lim)
    requires c.parts + 1 + Size(e) <= lim.maxParts
    ensures var body := Base64.Wrap(Base64.Encode(Message(top, e)));
            ParseMime(SerializeHeaders(hs) + CRLF + body, "text/plain", depth, c, lim, text)
            == (Part(hs, Describe(hs, "text/plain"), body, Embedded(PartOf(top, e))), Ctx(c.parts + 1 + Size(e), c.truncated))
  {
    hide ParseMime, SplitHeadBody, ParseHeaders, Describe, Message, Serialize, Proper, Within, KeepsBoundaries, NoStructure, ProperHeaders,
      FoldAll, Join, PartOf, Size, Base64.Wrap, Base64.Encode, Base64.DecodeBody, EncodedMessage, SerializeHeaders;
    var message := Message(top, e);
    var body := Base64.Wrap(Base64.Encode(message));
    HeadBodyRoundTrip(hs, body);
    HeadersRoundTrip(hs);
    Base64.BodyRoundTrip(message);
    EncodedParsed(SerializeHeaders(hs) + CRLF + body, hs, body, depth, c, lim, text);
    TreeRoundTrip(top, e, outer, depth + 1, Ctx(c.parts + 1, c.truncated), lim, text);
  }
}
