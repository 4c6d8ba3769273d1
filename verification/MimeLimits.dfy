/** What the limits on parsing do to any input, well-formed or not (src/core/MimeParser.ts). */
module MimeLimits {
  import opened Text
  import opened Params
  import opened Headers
  import opened MimeTree

  function Max(a: nat, b: nat): nat { if a < b then b else a }

  /** The parts of a tree. */
  function Count(p: Part): (n: nat)
    ensures n >= 1
    decreases p, 0
  {
    match p.kind
    case Single => 1
    case Multipart(parts) => 1 + CountAll(parts)
    case Embedded(message) => 1 + Count(message)
  }

  function CountAll(ps: seq<Part>): nat
    decreases ps, 1
  {
    if ps == [] then 0 else Count(ps[0]) + CountAll(ps[1..])
  }

  /** How deep parts are nested in it. */
  function Levels(p: Part): nat
    decreases p, 0
  {
    match p.kind
    case Single => 0
    case Multipart(parts) => 1 + LevelsAll(parts)
    case Embedded(message) => 1 + Levels(message)
  }

  function LevelsAll(ps: seq<Part>): nat
    decreases ps, 1
  {
    if ps == [] then 0 else Max(Levels(ps[0]), LevelsAll(ps[1..]))
  }

  /** The type says that there are parts or a message inside. */
  predicate Nests(t: string) {
    (|t| >= 10 && t[..10] == "multipart/") || t == "message/rfc822" || t == "message/global"
  }

  lemma NestsExact(t: string)
    ensures Nests(t) <==> IsMultipart(t) || IsMessage(t)
    ensures IsMultipart(t) ==> !IsMessage(t)
  {
    assert |t| >= 10 ==> t[0..10] == t[..10];
    AtChars(t, 0, "multipart/");
    assert "multipart/"[1] == 'u' && "message/rfc822"[1] == 'e' && "message/global"[1] == 'e';
  }

  /** Some part that nests lies at depth `max` or below; `p` itself is at `depth`. */
  predicate TooDeep(p: Part, depth: nat, max: nat)
    decreases p, 0
  {
    || (Nests(p.info.contentType) && depth >= max)
    || match p.kind
       case Single => false
       case Multipart(parts) => AnyTooDeep(parts, depth + 1, max)
       case Embedded(message) => TooDeep(message, depth + 1, max)
  }

  predicate AnyTooDeep(ps: seq<Part>, depth: nat, max: nat)
    decreases ps, 1
  {
    ps != [] && (TooDeep(ps[0], depth, max) || AnyTooDeep(ps[1..], depth, max))
  }

  // ---- One entity --------------------------------------------------------------------

  /** The entity without what is inside, and whether its header block was cut. */
  function Headed(s: string, t: string, lim: Limits): (Part, bool) {
    var (head, body) := SplitHeadBody(s);
    var cut := |head| > lim.maxHeaderBytes;
    var hs := ParseHeaders(if cut then head[..lim.maxHeaderBytes] else head);
    (Part(hs, Describe(hs, t), body, Single), cut)
  }

  datatype Inside = Nothing | Entities(ps: seq<string>, childType: string) | Message(text: string)

  function InsideOf(p: Part, text: ParamValue -> string): Inside {
    if IsMultipart(p.info.contentType) && BoundaryOf(p.info, text) != "" then
      Entities(SplitMultipart(p.rawBody, "--" + BoundaryOf(p.info, text), 0, -1),
               if p.info.contentType == "multipart/digest" then "message/rfc822" else "text/plain")
    else if IsMessage(p.info.contentType) then
      Message(if p.info.encoding == "base64" || p.info.encoding == "quoted-printable"
              then DecodeTransfer(p.rawBody, p.info.encoding) else p.rawBody)
    else Nothing
  }

  lemma Unfold(s: string, t: string, depth: nat, c: Ctx, lim: Limits, text: ParamValue -> string)
    ensures var (p, cut) := Headed(s, t, lim);
            var c1 := Ctx(c.parts + 1, c.truncated || cut);
            && p.kind == Single && (InsideOf(p, text) != Nothing ==> Nests(p.info.contentType))
            && ParseMime(s, t, depth, c, lim, text)
               == if Nests(p.info.contentType) && depth >= lim.maxDepth then (p, c1.(truncated := true))
                  else match InsideOf(p, text)
                       case Nothing => (p, c1)
                       case Entities(ps, childType) =>
                         var r := ParseParts(ps, childType, depth + 1, c1, lim, text);
                         (p.(kind := Multipart(r.0)), r.1)
                       case Message(inner) =>
                         if c1.parts >= lim.maxParts then (p, c1.(truncated := true))
                         else
                           var r := ParseMime(inner, "text/plain", depth + 1, c1, lim, text);
                           (p.(kind := Embedded(r.0)), r.1)
  {
    hide SplitHeadBody, ParseHeaders, Describe, SplitMultipart, DecodeTransfer, BoundaryOf, IsMultipart, IsMessage, ParseParts;
    NestsExact(Headed(s, t, lim).0.info.contentType);
    hide Nests;
  }

  // ---- Any input ---------------------------------------------------------------------

  /** The counter counts the parts of the tree, whose number and depth are bounded, and what is truncated
      stays so. */
  lemma {:induction false} Bounded(s: string, t: string, depth: nat, c: Ctx, lim: Limits, text: ParamValue -> string)
    ensures var (part, ctx) := ParseMime(s, t, depth, c, lim, text);
            && ctx.parts == c.parts + Count(part) && ctx.parts <= Max(lim.maxParts, c.parts + 1)
            && depth + Levels(part) <= Max(depth, lim.maxDepth)
            && (c.truncated ==> ctx.truncated)
    decreases Remaining(depth, lim), 0, 0
  {
    hide ParseMime, ParseParts, Headed, InsideOf, Nests;
    Unfold(s, t, depth, c, lim, text);
    var (p, cut) := Headed(s, t, lim);
    var c1 := Ctx(c.parts + 1, c.truncated || cut);
    if !(Nests(p.info.contentType) && depth >= lim.maxDepth) {
      match InsideOf(p, text) {
        case Nothing =>
        case Entities(ps, childType) => BoundedParts(ps, childType, depth + 1, c1, lim, text);
        case Message(inner) => if c1.parts < lim.maxParts { Bounded(inner, "text/plain", depth + 1, c1, lim, text); }
      }
    }
  }

  lemma {:induction false} BoundedParts(ps: seq<string>, t: string, depth: nat, c: Ctx, lim: Limits, text: ParamValue -> string)
    ensures var (parts, ctx) := ParseParts(ps, t, depth, c, lim, text);
            && ctx.parts == c.parts + CountAll(parts) && ctx.parts <= Max(lim.maxParts, c.parts)
            && depth + LevelsAll(parts) <= Max(depth, lim.maxDepth)
            && (c.truncated ==> ctx.truncated)
    decreases Remaining(depth, lim), 1, |ps|
  {
    hide ParseMime;
    if ps != [] && c.parts < lim.maxParts {
      var first := ParseMime(ps[0], t, depth, c, lim, text);
      Bounded(ps[0], t, depth, c, lim, text);
      BoundedParts(ps[1..], t, depth, first.1, lim, text);
    }
  }

  // ---- Exactly what is truncated -----------------------------------------------------

  predicate Tighter(lim: Limits, big: Limits) {
    lim.maxDepth <= big.maxDepth && lim.maxParts <= big.maxParts && lim.maxHeaderBytes == big.maxHeaderBytes
  }

  /** Given the tree that wider limits give in full, the tighter ones truncate exactly if it has too many
      parts or nests too deep, and otherwise give the same. */
  predicate Agrees(r: (Part, Ctx), full: (Part, Ctx), depth: nat, parts: nat, lim: Limits) {
    && (r.1.truncated <==> full.1.parts > Max(lim.maxParts, parts + 1) || TooDeep(full.0, depth, lim.maxDepth))
    && (!r.1.truncated ==> r == full)
  }

  predicate AllAgree(r: (seq<Part>, Ctx), full: (seq<Part>, Ctx), depth: nat, parts: nat, lim: Limits) {
    && (r.1.truncated <==> full.1.parts > Max(lim.maxParts, parts) || AnyTooDeep(full.0, depth, lim.maxDepth))
    && (!r.1.truncated ==> r == full)
  }

  lemma {:induction false} Compared(
    s: string, t: string, depth: nat, c: Ctx, lim: Limits, big: Limits, text: ParamValue -> string)
    requires Tighter(lim, big) && !c.truncated
    ensures var full := ParseMime(s, t, depth, c, big, text);
            !full.1.truncated ==> Agrees(ParseMime(s, t, depth, c, lim, text), full, depth, c.parts, lim)
    decreases Remaining(depth, big), 0, 0
  {
    hide ParseMime, ParseParts, Headed, InsideOf, Nests;
    Unfold(s, t, depth, c, lim, text);
    Unfold(s, t, depth, c, big, text);
    assert Headed(s, t, lim) == Headed(s, t, big) by { SameHead(s, t, lim, big); }
    var (p, cut) := Headed(s, t, big);
    var c1 := Ctx(c.parts + 1, c.truncated || cut);
    var full := ParseMime(s, t, depth, c, big, text);
    if !full.1.truncated {
      match InsideOf(p, text) {
        case Nothing =>
        case Entities(ps, childType) =>
          BoundedParts(ps, childType, depth + 1, c1, big, text);
          AllCompared(ps, childType, depth + 1, c1, lim, big, text);
        case Message(inner) =>
          Bounded(inner, "text/plain", depth + 1, c1, big, text);
          Compared(inner, "text/plain", depth + 1, c1, lim, big, text);
      }
    }
  }

  lemma SameHead(s: string, t: string, lim: Limits, big: Limits)
    requires Tighter(lim, big)
    ensures Headed(s, t, lim) == Headed(s, t, big)
  {
  }

  lemma {:induction false} AllCompared(
    ps: seq<string>, t: string, depth: nat, c: Ctx, lim: Limits, big: Limits, text: ParamValue -> string)
    requires Tighter(lim, big) && !c.truncated
    ensures var full := ParseParts(ps, t, depth, c, big, text);
            !full.1.truncated ==> AllAgree(ParseParts(ps, t, depth, c, lim, text), full, depth, c.parts, lim)
    decreases Remaining(depth, big), 1, |ps|
  {
    hide ParseMime;
    var full := ParseParts(ps, t, depth, c, big, text);
    if ps != [] && !full.1.truncated {
      var first := ParseMime(ps[0], t, depth, c, big, text);
      Bounded(ps[0], t, depth, c, big, text);
      BoundedParts(ps[1..], t, depth, first.1, big, text);
      Compared(ps[0], t, depth, c, lim, big, text);
      if c.parts < lim.maxParts {
        var first' := ParseMime(ps[0], t, depth, c, lim, text);
        BoundedParts(ps[1..], t, depth, first'.1, lim, text);
        AllCompared(ps[1..], t, depth, first.1, lim, big, text);
      }
    }
  }

  /** Parsing any input is bounded: the tree has at most maxParts parts, or just the root, and nests at most
      maxDepth deep. If wider limits give the tree in full, `truncated` says exactly whether it has too many
      parts or a part that nests at maxDepth, and if not the tree is the same. */
  lemma LimitsExact(s: string, lim: Limits, big: Limits, text: ParamValue -> string)
    requires Tighter(lim, big)
    ensures var (part, ctx) := ParseMime(s, "text/plain", 0, Ctx(0, false), lim, text);
            var (full, wide) := ParseMime(s, "text/plain", 0, Ctx(0, false), big, text);
            && ctx.parts == Count(part) <= Max(lim.maxParts, 1) && Levels(part) <= lim.maxDepth
            && (!wide.truncated ==>
                  && (ctx.truncated <==> Count(full) > Max(lim.maxParts, 1) || TooDeep(full, 0, lim.maxDepth))
                  && (!ctx.truncated ==> part == full))
  {
    hide ParseMime;
    Bounded(s, "text/plain", 0, Ctx(0, false), lim, text);
    Bounded(s, "text/plain", 0, Ctx(0, false), big, text);
    Compared(s, "text/plain", 0, Ctx(0, false), lim, big, text);
  }

  /** A header block that is too long is reported. */
  lemma HeaderCutReported(s: string, t: string, depth: nat, c: Ctx, lim: Limits, text: ParamValue -> string)
    ensures var (part, ctx) := ParseMime(s, t, depth, c, lim, text);
            && |SplitHeadBody(s).0| > lim.maxHeaderBytes ==> ctx.truncated
  {
    hide ParseMime, ParseParts, InsideOf, Nests, SplitHeadBody, ParseHeaders, Describe;
    Unfold(s, t, depth, c, lim, text);
    var (p, cut) := Headed(s, t, lim);
    var c1 := Ctx(c.parts + 1, c.truncated || cut);
    match InsideOf(p, text) {
      case Nothing =>
      case Entities(ps, childType) => BoundedParts(ps, childType, depth + 1, c1, lim, text);
      case Message(inner) => Bounded(inner, "text/plain", depth + 1, c1, lim, text);
    }
  }

  // ---- Default types -----------------------------------------------------------------

  /** The type of a part is what its headers say, and else what its place makes it: a message inside a digest,
      plain text elsewhere. */
  predicate Typed(p: Part, defaultType: string)
    decreases p, 0
  {
    && p.info == Describe(p.headers, defaultType)
    && match p.kind
       case Single => true
       case Multipart(parts) => AllTyped(parts, if p.info.contentType == "multipart/digest" then "message/rfc822" else "text/plain")
       case Embedded(message) => Typed(message, "text/plain")
  }

  predicate AllTyped(ps: seq<Part>, defaultType: string)
    decreases ps, 1
  {
    ps != [] ==> Typed(ps[0], defaultType) && AllTyped(ps[1..], defaultType)
  }

  lemma {:induction false} TypesKnown(s: string, t: string, depth: nat, c: Ctx, lim: Limits, text: ParamValue -> string)
    ensures Typed(ParseMime(s, t, depth, c, lim, text).0, t)
    decreases Remaining(depth, lim), 0, 0
  {
    hide ParseMime, ParseParts, SplitHeadBody, ParseHeaders, Describe, Nests, IsMultipart, IsMessage, BoundaryOf, SplitMultipart,
      DecodeTransfer;
    Unfold(s, t, depth, c, lim, text);
    var (p, cut) := Headed(s, t, lim);
    var c1 := Ctx(c.parts + 1, c.truncated || cut);
    if !(Nests(p.info.contentType) && depth >= lim.maxDepth) {
      match InsideOf(p, text) {
        case Nothing =>
        case Entities(ps, childType) => AllTypesKnown(ps, childType, depth + 1, c1, lim, text);
        case Message(inner) => if c1.parts < lim.maxParts { TypesKnown(inner, "text/plain", depth + 1, c1, lim, text); }
      }
    }
  }

  lemma {:induction false} AllTypesKnown(ps: seq<string>, t: string, depth: nat, c: Ctx, lim: Limits, text: ParamValue -> string)
    ensures AllTyped(ParseParts(ps, t, depth, c, lim, text).0, t)
    decreases Remaining(depth, lim), 1, |ps|
  {
    hide ParseMime, Typed;
    if ps != [] && c.parts < lim.maxParts {
      TypesKnown(ps[0], t, depth, c, lim, text);
      AllTypesKnown(ps[1..], t, depth, ParseMime(ps[0], t, depth, c, lim, text).1, lim, text);
    }
  }
}
