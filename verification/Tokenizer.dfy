/** Tokens of an IMAP response (src/imap/ImapTokenizer.ts; RFC 3501, section 9). */
module Tokenizer {
  import opened Text

  /** `value`s are byte strings; `literal` tells `{N}` strings from quoted ones. */
  datatype Token =
    | Atom(value: string)
    | Str(value: string, literal: bool)
    | Nil
    | List(items: seq<Token>)

  predicate IsGap(c: char) { c == ' ' || c == '\r' || c == '\n' }

  predicate EndsAtom(c: char) { IsGap(c) || c == '(' || c == ')' }

  /** A result with `a` read before it. */
  function Before<T>(a: seq<T>, r: (seq<T>, string)): (seq<T>, string) {
    (a + r.0, r.1)
  }

  lemma BeforeNothing<T>(r: (seq<T>, string))
    ensures Before([], r) == r
  {
    assert [] + r.0 == r.0;
  }

  lemma BeforeEnd<T>(a: seq<T>, t: string)
    ensures Before(a, ([], t)) == (a, t)
  {
    assert a + [] == a;
  }

  lemma BeforeBefore<T>(a: seq<T>, b: seq<T>, r: (seq<T>, string))
    ensures Before(a, Before(b, r)) == Before(a + b, r)
  {
    assert a + (b + r.0) == a + b + r.0;
  }

  function SkipSpace(t: string): (r: string)
    ensures |r| <= |t|
    ensures r == "" || !IsGap(r[0])
    ensures t == "" || !IsGap(t[0]) ==> r == t
  {
    if t != "" && IsGap(t[0]) then SkipSpace(t[1..]) else t
  }

  /** The text of a quoted string and what follows its closing quote. */
  function Quoted(t: string): (r: (string, string))
    ensures |r.1| <= |t|
  {
    if t == "" then ("", "")
    else if t[0] == '\\' && |t| > 1 then Before([t[1]], Quoted(t[2..]))
    else if t[0] == '"' then ("", t[1..])
    else Before([t[0]], Quoted(t[1..]))
  }

  function DigitRun(t: string): (n: nat)
    ensures n <= |t| && forall i :: 0 <= i < n ==> IsDigit(t[i])
    ensures n < |t| ==> !IsDigit(t[n])
  {
    if t != "" && IsDigit(t[0]) then
      assert forall i :: 0 < i < 1 + DigitRun(t[1..]) ==> t[i] == t[1..][i - 1];
      1 + DigitRun(t[1..])
    else 0
  }

  /** `{N}` CRLF, with an optional `~` before and `+` inside, within the first 32 characters:
      the length of this header and N. */
  function LiteralHeader(t: string): (r: Option<(nat, nat)>)
    ensures r.Some? ==> 1 <= r.value.0 <= |t|
  {
    var w := if |t| > 32 then t[..32] else t;
    var a := if w != "" && w[0] == '~' then 1 else 0;
    if a >= |w| || w[a] != '{' then None
    else
      var n := DigitRun(w[a + 1..]);
      var b := a + 1 + n;
      var c := if b < |w| && w[b] == '+' then b + 1 else b;
      if n > 0 && At(w, c, "}\r\n") then
        Some((c + 3, DecimalValue(w[a + 1..][..n])))
      else None
  }

  /** A literal, taken by length; it may be cut short by the end of the input. */
  function LiteralAt(t: string): (r: Option<(string, string)>)
    ensures r.Some? ==> |r.value.1| < |t|
  {
    match LiteralHeader(t)
    case None => None
    case Some((h, n)) =>
      var end := if h + n <= |t| then h + n else |t|;
      Some((t[h..end], t[end..]))
  }

  /** An atom and what follows it; inside brackets everything belongs to the atom. */
  function AtomSplit(t: string, depth: nat): (r: (string, string))
    ensures |r.0| + |r.1| == |t|
    ensures t != "" && !EndsAtom(t[0]) ==> r.0 != ""
  {
    if t == "" || (depth == 0 && EndsAtom(t[0])) then ("", t)
    else
      var d := if t[0] == '[' then depth + 1 else if t[0] == ']' && depth > 0 then depth - 1 else depth;
      Before([t[0]], AtomSplit(t[1..], d))
  }

  predicate SpellsNil(v: string) {
    |v| == 3 && (v[0] == 'N' || v[0] == 'n') && (v[1] == 'I' || v[1] == 'i') && (v[2] == 'L' || v[2] == 'l')
  }

  function AtomToken(v: string): Token {
    if SpellsNil(v) then Nil else Atom(v)
  }

  function Found(tok: Option<Token>): seq<Token> {
    match tok
    case None => []
    case Some(t) => [t]
  }

  /** The next token of `t`, None at the end and for a stray closing parenthesis, and what follows it. */
  function Next(t: string): (r: (Option<Token>, string))
    ensures |r.1| <= |t|
    ensures SkipSpace(t) != "" ==> |r.1| < |t|
    decreases |t|, 0
  {
    var u := SkipSpace(t);
    if u == "" then (None, "")
    else if u[0] == '(' then var l := Items(u[1..]); (Some(List(l.0)), l.1)
    else if u[0] == ')' then (None, u[1..])
    else if u[0] == '"' then var q := Quoted(u[1..]); (Some(Str(q.0, false)), q.1)
    else if LiteralAt(u).Some? then (Some(Str(LiteralAt(u).value.0, true)), LiteralAt(u).value.1)
    else var a := AtomSplit(u, 0); (Some(AtomToken(a.0)), a.1)
  }

  /** The items of a list up to its closing parenthesis, and what follows that. */
  function Items(t: string): (r: (seq<Token>, string))
    ensures |r.1| <= |t|
    decreases |t|, 1
  {
    var u := SkipSpace(t);
    if u == "" then ([], "")
    else if u[0] == ')' then ([], u[1..])
    else
      Before(Found(Next(u).0), Items(Next(u).1))
  }

  function Tokenize(t: string): seq<Token>
    decreases |t|
  {
    var u := SkipSpace(t);
    if u == "" then [] else Found(Next(u).0) + Tokenize(Next(u).1)
  }

  lemma ItemsUnfold(t: string)
    ensures var u := SkipSpace(t);
            && (u == "" ==> Items(t) == ([], ""))
            && (u != "" && u[0] == ')' ==> Items(t) == ([], u[1..]))
            && (u != "" && u[0] != ')' ==> Items(t) == Before(Found(Next(u).0), Items(Next(u).1)))
    ensures Items(SkipSpace(t)) == Items(t)
  {
    hide Next;
  }

  lemma QuotedUnfold(t: string)
    ensures t == "" ==> Quoted(t) == ("", "")
    ensures t != "" ==>
              Quoted(t) == if t[0] == '\\' && |t| > 1 then Before([t[1]], Quoted(t[2..]))
                           else if t[0] == '"' then ("", t[1..])
                           else Before([t[0]], Quoted(t[1..]))
  {
  }

  lemma AtomUnfold(t: string, depth: nat)
    requires t != ""
    ensures depth == 0 && EndsAtom(t[0]) ==> AtomSplit(t, depth) == ("", t)
    ensures !(depth == 0 && EndsAtom(t[0])) ==>
              var d := if t[0] == '[' then depth + 1 else if t[0] == ']' && depth > 0 then depth - 1 else depth;
              AtomSplit(t, depth) == Before([t[0]], AtomSplit(t[1..], d))
  {
  }

  // ---- The tokenizer object ----------------------------------------------------------

  class Cursor {
    const s: string
    var i: nat

    /** What has not been read; nothing once a literal has claimed more than there is. */
    ghost function Rest(): string
      reads this
    {
      if i <= |s| then s[i..] else ""
    }

    lemma Advance(k: nat)
      requires i + k <= |s|
      ensures Rest()[k..] == s[i + k..]
    {
    }

    constructor (s: string, start: nat)
      ensures this.s == s && i == start
    {
      this.s, i := s, start;
    }

    method SkipGaps()
      modifies this`i
      ensures Rest() == SkipSpace(old(Rest()))
      ensures i >= old(i) && (i <= |s| || i == old(i))
    {
      ghost var whole := SkipSpace(Rest());
      while i < |s| && (s[i] == ' ' || s[i] == '\r' || s[i] == '\n')
        invariant SkipSpace(Rest()) == whole
        invariant i >= old(i) && (i <= |s| || i == old(i))
        decreases |s| - i
      {
        Advance(1);
        i := i + 1;
      }
    }

    method Eof() returns (eof: bool)
      modifies this`i
      ensures Rest() == SkipSpace(old(Rest()))
      ensures eof <==> Rest() == ""
    {
      SkipGaps();
      eof := i >= |s|;
    }

    method ReadNext() returns (tok: Option<Token>)
      modifies this`i
      ensures (tok, Rest()) == Next(old(Rest()))
      decreases |Rest()|, 1
    {
      hide Items, Quoted, LiteralAt, AtomSplit;
      SkipGaps();
      var u := Rest();
      if i >= |s| { return None; }
      var c := s[i];
      if c == '(' {
        var l := ReadList();
        return Some(l);
      }
      if c == ')' {
        i := i + 1;
        assert s[i..] == u[1..];
        return None;
      }
      if c == '"' {
        var q := ReadQuoted();
        return Some(Str(q, false));
      }
      if c == '{' || (c == '~' && i + 1 < |s| && s[i + 1] == '{') {
        var lit := ReadLiteral();
        if lit.Some? { return Some(Str(lit.value, true)); }
      } else {
        NoHeader(u);
      }
      var a := ReadAtom();
      return Some(a);
    }

    method ReadList() returns (tok: Token)
      requires Rest() != "" && Rest()[0] == '('
      modifies this`i
      ensures (tok, Rest()) == (List(Items(old(Rest())[1..]).0), Items(old(Rest())[1..]).1)
      decreases |Rest()|, 0
    {
      hide Items, Next, Before, SkipSpace;
      ghost var whole := Items(Rest()[1..]);
      Advance(1);
      i := i + 1;
      var items: seq<Token> := [];
      BeforeNothing(whole);
      while true
        invariant |Rest()| < |old(Rest())|
        invariant whole == Before(items, Items(Rest()))
        decreases |Rest()|
      {
        ItemsUnfold(Rest());
        SkipGaps();
        if i >= |s| { break; }
        if s[i] == ')' {
          Advance(1);
          i := i + 1;
          break;
        }
        var t := ReadNext();
        BeforeBefore(items, Found(t), Items(Rest()));
        assert items + Found(t) == if t.Some? then items + [t.value] else items;
        if t.Some? { items := items + [t.value]; }
      }
      BeforeEnd(items, Rest());
      return List(items);
    }

    method ReadQuoted() returns (out: string)
      requires Rest() != ""
      modifies this`i
      ensures (out, Rest()) == Quoted(old(Rest())[1..])
    {
      hide Quoted, Before;
      ghost var whole := Quoted(Rest()[1..]);
      Advance(1);
      i := i + 1;
      out := "";
      BeforeNothing(whole);
      while i < |s|
        invariant i <= |s|
        invariant whole == Before(out, Quoted(Rest()))
        decreases |s| - i
      {
        ghost var rest := Rest();
        var c := s[i];
        QuotedUnfold(rest);
        if c == '\\' && i + 1 < |s| {
          Advance(2);
          BeforeBefore(out, [rest[1]], Quoted(rest[2..]));
          out := out + [s[i + 1]];
          i := i + 2;
          assert Rest() == rest[2..];
          continue;
        }
        Advance(1);
        i := i + 1;
        assert Rest() == rest[1..];
        if c == '"' {
          BeforeEnd(out, Rest());
          return;
        }
        BeforeBefore(out, [c], Quoted(rest[1..]));
        out := out + [c];
      }
      QuotedUnfold("");
      BeforeEnd(out, "");
    }

    method ReadLiteral() returns (value: Option<string>)
      requires Rest() != ""
      modifies this`i
      ensures match LiteralAt(old(Rest()))
              case None => value == None && i == old(i)
              case Some((v, rest)) => value == Some(v) && Rest() == rest
    {
      hide LiteralHeader;
      var m := LiteralHeader(s[i..]);
      if m.None? { return None; }
      var (h, n) := m.value;
      var begin := i + h;
      var end := if begin + n <= |s| then begin + n else |s|;
      value := Some(s[begin..end]);
      assert s[begin..end] == s[i..][h..end - i];
      assert s[end..] == s[i..][end - i..];
      i := begin + n;
    }

    method ReadAtom() returns (tok: Token)
      requires Rest() != ""
      modifies this`i
      ensures (tok, Rest()) == (AtomToken(AtomSplit(old(Rest()), 0).0), AtomSplit(old(Rest()), 0).1)
    {
      hide AtomSplit, AtomToken, Before;
      var begin := i;
      ghost var whole := AtomSplit(Rest(), 0);
      var depth: nat := 0;
      assert s[begin..begin] == "";
      BeforeNothing(whole);
      while i < |s|
        invariant begin <= i <= |s|
        invariant whole == Before(s[begin..i], AtomSplit(Rest(), depth))
        decreases |s| - i
      {
        var c := s[i];
        Advance(1);
        AtomUnfold(Rest(), depth);
        if c == '[' {
          depth := depth + 1;
        } else if c == ']' {
          depth := if depth > 0 then depth - 1 else 0;
        } else if depth == 0 && (c == ' ' || c == '(' || c == ')' || c == '\r' || c == '\n') {
          break;
        }
        BeforeBefore(s[begin..i], [c], AtomSplit(s[i + 1..], depth));
        assert s[begin..i] + [c] == s[begin..i + 1];
        i := i + 1;
      }
      AtomDone();
      BeforeEnd(s[begin..i], Rest());
      var value := s[begin..i];
      if SpellsNil(value) {
        tok := Nil;
      } else {
        tok := Atom(value);
      }
      AtomTokenIs(value);
    }
  }

  lemma AtomDone()
    ensures forall d: nat :: AtomSplit("", d) == ("", "")
  {
  }

  lemma AtomTokenIs(v: string)
    ensures AtomToken(v) == if SpellsNil(v) then Nil else Atom(v)
  {
  }

  lemma NoHeader(t: string)
    requires t != "" && t[0] != '{' && !(t[0] == '~' && |t| > 1 && t[1] == '{')
    ensures LiteralAt(t) == None
  {
  }

  method TokenizeString(input: string, start: nat) returns (out: seq<Token>)
    ensures out == Tokenize(if start <= |input| then input[start..] else "")
  {
    hide Next, Tokenize, SkipSpace;
    var t := new Cursor(input, start);
    ghost var whole := Tokenize(t.Rest());
    out := [];
    assert [] + whole == whole;
    TokenizeSkip(t.Rest());
    var eof := t.Eof();
    while !eof
      invariant t.s == input
      invariant eof <==> t.Rest() == ""
      invariant SkipSpace(t.Rest()) == t.Rest()
      invariant whole == out + Tokenize(t.Rest())
      decreases |t.Rest()|
    {
      TokenizeUnfold(t.Rest());
      var tok := t.ReadNext();
      ghost var more := Tokenize(t.Rest());
      assert out + (Found(tok) + more) == out + Found(tok) + more;
      if tok.Some? { out := out + [tok.value]; }
      TokenizeSkip(t.Rest());
      eof := t.Eof();
    }
    TokenizeUnfold("");
    assert out + [] == out;
  }

  lemma TokenizeUnfold(t: string)
    ensures SkipSpace(t) == "" ==> Tokenize(t) == []
    ensures var u := SkipSpace(t); u != "" ==> Tokenize(t) == Found(Next(u).0) + Tokenize(Next(u).1)
  {
    hide Next;
  }

  lemma TokenizeSkip(t: string)
    ensures Tokenize(SkipSpace(t)) == Tokenize(t)
    ensures SkipSpace(SkipSpace(t)) == SkipSpace(t)
  {
    hide Next, SkipSpace;
  }

  // ---- Rendering ---------------------------------------------------------------------

  /** Every way to write NIL. */
  const NIL_SPELLINGS := ["NIL", "NIl", "NiL", "Nil", "nIL", "nIl", "niL", "nil"]

  /** How a server writes: `tight` leaves out the space between adjacent lists, as the grammar does for the
      parts of a multipart body structure and for address lists; `gap` is what else stands between two tokens;
      literals may be binary (`tilde`) and non-synchronizing (`plus`); `nothing` is its NIL. */
  datatype Style = Style(tight: bool, gap: string, tilde: bool, plus: bool, nothing: string)

  predicate Legal(style: Style) {
    && style.gap != "" && (forall i :: 0 <= i < |style.gap| ==> style.gap[i] in " \r\n")
    && style.nothing in NIL_SPELLINGS
  }

  const PLAIN := Style(false, " ", false, false, "NIL")

  /** The length of a literal, as it is announced. */
  function Header(n: nat, style: Style): string {
    (if style.tilde then "~{" else "{") + Decimal(n) + (if style.plus then "+}\r\n" else "}\r\n")
  }

  /** The wire form of a token. */
  function Render(tok: Token, style: Style): string
    decreases tok, 0
  {
    match tok
    case Atom(v) => v
    case Str(v, literal) => if literal then Header(|v|, style) + v else "\"" + Escape(v) + "\""
    case Nil => style.nothing
    case List(items) => "(" + RenderItems(items, style) + ")"
  }

  function Separator(a: Token, b: Token, style: Style): string {
    if style.tight && a.List? && b.List? then "" else style.gap
  }

  function RenderItems(items: seq<Token>, style: Style): string
    decreases items, 1
  {
    if items == [] then ""
    else if |items| == 1 then Render(items[0], style)
    else Render(items[0], style) + Separator(items[0], items[1], style) + RenderItems(items[1..], style)
  }

  /** Balanced brackets, and no atom-ending character outside them. */
  predicate AtomText(v: string, depth: nat) {
    if v == "" then depth == 0
    else if v[0] == '[' then AtomText(v[1..], depth + 1)
    else if v[0] == ']' then AtomText(v[1..], if depth > 0 then depth - 1 else 0)
    else (depth > 0 || v[0] !in " ()\r\n") && AtomText(v[1..], depth)
  }

  /** A token that has a wire form: atoms are atoms of the grammar, literals may hold any bytes. The bound
      on the header is the tokenizer's window, far beyond any string's length. */
  predicate Proper(tok: Token, style: Style) {
    match tok
    case Atom(v) =>
      v != "" && v[0] != '"' && v[0] != '{' && !StartsWith(v, "~{") && AtomText(v, 0) && v !in NIL_SPELLINGS
    case Str(v, literal) => literal ==> |Header(|v|, style)| <= 32
    case Nil => true
    case List(items) => forall k :: 0 <= k < |items| ==> Proper(items[k], style)
  }

  /** `rest` may follow the wire form of `tok`. */
  predicate Delimited(tok: Token, rest: string) {
    (tok.Atom? || tok.Nil?) ==> rest == "" || rest[0] in " ()\r\n"
  }

  /** The characters that stand between tokens and that end an atom. */
  lemma GapExact(c: char)
    ensures IsGap(c) <==> c in " \r\n"
    ensures EndsAtom(c) <==> c in " ()\r\n"
  {
  }

  /** An atom's text is NIL exactly when it is one of the spellings. */
  lemma AtomTokenExact(v: string)
    ensures AtomToken(v) == if v in NIL_SPELLINGS then Nil else Atom(v)
  {
    if |v| == 3 {
      assert v == [v[0], v[1], v[2]];
    }
    forall k | 0 <= k < 8 ensures SpellsNil(NIL_SPELLINGS[k]) {
    }
  }

  lemma QuotedChar(c: char, rest: string)
    ensures Quoted((if c == '\\' || c == '"' then ['\\', c] else [c]) + rest) == Before([c], Quoted(rest))
  {
    hide Before;
    if c == '\\' || c == '"' {
      assert (['\\', c] + rest)[2..] == rest;
    } else {
      assert ([c] + rest)[1..] == rest;
    }
  }

  lemma {:induction false} QuotedEscape(v: string, rest: string)
    ensures Quoted(Escape(v) + "\"" + rest) == (v, rest)
  {
    if v == "" {
      assert Escape(v) + "\"" + rest == "\"" + rest && ("\"" + rest)[1..] == rest;
    } else {
      hide Quoted;
      var u := Escape(v[1..]) + "\"" + rest;
      QuotedEscape(v[1..], rest);
      QuotedChar(v[0], u);
      var first := if v[0] == '\\' || v[0] == '"' then ['\\', v[0]] else [v[0]];
      assert first + Escape(v[1..]) + "\"" + rest == first + u;
      assert v == [v[0]] + v[1..];
    }
  }

  lemma {:induction false} AtomSplitText(v: string, rest: string, depth: nat)
    requires AtomText(v, depth) && (rest == "" || rest[0] in " ()\r\n")
    ensures AtomSplit(v + rest, depth) == (v, rest)
  {
    if v == "" {
      assert v + rest == rest;
    } else {
      assert (v + rest)[1..] == v[1..] + rest && v == [v[0]] + v[1..];
      var d := if v[0] == '[' then depth + 1 else if v[0] == ']' && depth > 0 then depth - 1 else depth;
      AtomSplitText(v[1..], rest, d);
    }
  }

  lemma {:induction false} DigitRunIs(d: string, rest: string)
    requires AllDigits(d) && (rest == "" || !IsDigit(rest[0]))
    ensures DigitRun(d + rest) == |d|
  {
    if d == "" {
      assert d + rest == rest;
    } else {
      assert (d + rest)[1..] == d[1..] + rest;
      DigitRunIs(d[1..], rest);
    }
  }

  lemma HeaderOf(n: nat, style: Style, rest: string)
    requires |Header(n, style)| <= 32
    ensures LiteralHeader(Header(n, style) + rest) == Some((|Header(n, style)|, n))
  {
    hide Decimal, DecimalValue, LiteralHeader;
    DecimalRoundTrip(n);
    AnyHeader(style.tilde, Decimal(n), style.plus, rest);
  }

  lemma AnyHeader(tilde: bool, d: string, plus: bool, rest: string)
    requires d != "" && AllDigits(d)
    requires var h := (if tilde then "~{" else "{") + d + (if plus then "+}\r\n" else "}\r\n"); |h| <= 32
    ensures var h := (if tilde then "~{" else "{") + d + (if plus then "+}\r\n" else "}\r\n");
            LiteralHeader(h + rest) == Some((|h|, DecimalValue(d)))
  {
    hide LiteralHeader, DecimalValue;
    var close := if plus then "+}\r\n" else "}\r\n";
    var h := (if tilde then "~{" else "{") + d + close;
    var t := h + rest;
    var w := if |t| > 32 then t[..32] else t;
    assert w[..|h|] == h;
    HeaderAt(w, if tilde then "~{" else "{", d, close);
    HeaderIn(t, w, if tilde then 1 else 0, d, close);
  }

  lemma HeaderAt(w: string, open: string, d: string, close: string)
    requires |open + d + close| <= |w| && w[..|open + d + close|] == open + d + close
    ensures At(w, 0, open) && At(w, |open|, d) && At(w, |open| + |d|, close)
  {
    var h := open + d + close;
    assert w[0..|open|] == h[0..|open|] == open;
    assert w[|open|..|open| + |d|] == h[|open|..|open| + |d|] == d;
    assert w[|open| + |d|..|h|] == h[|open| + |d|..] == close;
  }

  lemma HeaderIn(t: string, w: string, a: nat, d: string, close: string)
    requires w == (if |t| > 32 then t[..32] else t) && (close == "}\r\n" || close == "+}\r\n")
    requires d != "" && AllDigits(d) && a <= 1 && At(w, 0, if a == 1 then "~{" else "{")
    requires At(w, a + 1, d) && At(w, a + 1 + |d|, close)
    ensures LiteralHeader(t) == Some((a + 1 + |d| + |close|, DecimalValue(d)))
  {
    hide DigitRun, DecimalValue, LiteralHeader, At;
    hide AllDigits, IsDigit;
    var b := a + 1 + |d|;
    OpenAt(w, a);
    CloseAt(w, b, close);
    RunAt(w, a + 1, d);
    assert a == if w[0] == '~' then 1 else 0;
    HeaderKnown(t, w, a, |d|);
  }

  lemma OpenAt(w: string, a: nat)
    requires a <= 1 && At(w, 0, if a == 1 then "~{" else "{")
    ensures a < |w| && w[0] == (if a == 1 then '~' else '{') && w[a] == '{'
  {
    AtChars(w, 0, if a == 1 then "~{" else "{");
    assert "~{"[0] == '~' && "~{"[1] == '{' && "{"[0] == '{';
  }

  lemma CloseAt(w: string, b: nat, close: string)
    requires (close == "}\r\n" || close == "+}\r\n") && At(w, b, close)
    ensures b < |w| && !IsDigit(w[b]) && (w[b] == '+' <==> close == "+}\r\n")
    ensures At(w, if w[b] == '+' then b + 1 else b, "}\r\n")
  {
    assert w[b..b + |close|][0] == w[b] && close[0] == w[b];
    if close == "+}\r\n" {
      assert w[b + 1..b + 4] == w[b..b + 4][1..] == "+}\r\n"[1..] == "}\r\n";
    }
  }

  lemma RunAt(w: string, i: nat, d: string)
    requires At(w, i, d) && AllDigits(d) && i + |d| < |w| && !IsDigit(w[i + |d|])
    ensures DigitRun(w[i..]) == |d| && w[i..][..|d|] == d
  {
    hide DigitRun;
    assert w[i..] == d + w[i + |d|..];
    DigitRunIs(d, w[i + |d|..]);
  }

  lemma HeaderKnown(t: string, w: string, a: nat, n: nat)
    requires w == (if |t| > 32 then t[..32] else t) && w != "" && a == (if w[0] == '~' then 1 else 0)
    requires a < |w| && w[a] == '{' && n == DigitRun(w[a + 1..]) && n > 0 && a + 1 + n < |w|
    requires At(w, if w[a + 1 + n] == '+' then a + 2 + n else a + 1 + n, "}\r\n")
    ensures LiteralHeader(t)
            == Some(((if w[a + 1 + n] == '+' then a + 2 + n else a + 1 + n) + 3, DecimalValue(w[a + 1..][..n])))
  {
    hide DigitRun, DecimalValue, At;
  }

  function Announcement(tilde: bool, d: string, plus: bool): string {
    (if tilde then "~{" else "{") + d + (if plus then "+}\r\n" else "}\r\n")
  }

  lemma CutInFour(w: string, a: nat, b: nat, c: nat)
    requires a < b <= c && c + 3 <= |w|
    ensures w[..c + 3] == w[..a + 1] + w[a + 1..b] + (w[b..c] + w[c..c + 3])
  {
  }

  lemma OpenText(w: string, a: nat)
    requires a < |w| && a == (if w[0] == '~' then 1 else 0) && w[a] == '{'
    ensures w[..a + 1] == if a == 1 then "~{" else "{"
  {
  }

  lemma DigitsText(s: string)
    ensures AllDigits(s[..DigitRun(s)])
  {
  }

  lemma CloseText(w: string, b: nat, plus: bool)
    requires var c := if plus then b + 1 else b;
             b <= |w| && At(w, c, "}\r\n") && (plus ==> w[b] == '+')
    ensures var c := if plus then b + 1 else b; w[b..c] + w[c..c + 3] == if plus then "+}\r\n" else "}\r\n"
  {
    var c := if plus then b + 1 else b;
    if plus {
      assert w[b..c] == "+";
    } else {
      assert w[b..c] == "";
    }
  }

  /** Nothing else is taken for the header of a literal. */
  lemma HeaderRead(t: string) returns (tilde: bool, d: string, plus: bool)
    requires LiteralHeader(t).Some?
    ensures d != "" && AllDigits(d) && |Announcement(tilde, d, plus)| <= 32 && StartsWith(t, Announcement(tilde, d, plus))
  {
    hide DecimalValue, DigitRun, AllDigits, At, Announcement;
    var w := if |t| > 32 then t[..32] else t;
    var a := if w != "" && w[0] == '~' then 1 else 0;
    var n := DigitRun(w[a + 1..]);
    var b := a + 1 + n;
    tilde, d := a == 1, w[a + 1..b];
    plus := b < |w| && w[b] == '+';
    var c := if plus then b + 1 else b;
    assert At(w, c, "}\r\n");
    assert c + 3 <= |w| by { AtChars(w, c, "}\r\n"); }
    hide LiteralHeader;
    assert d == w[a + 1..][..n];
    DigitsText(w[a + 1..]);
    CutInFour(w, a, b, c);
    OpenText(w, a);
    CloseText(w, b, plus);
    HeaderStarts(t, w, c, tilde, d, plus);
  }

  lemma HeaderStarts(t: string, w: string, c: nat, tilde: bool, d: string, plus: bool)
    requires w == (if |t| > 32 then t[..32] else t) && c + 3 <= |w|
    requires w[..c + 3] == (if tilde then "~{" else "{") + d + (if plus then "+}\r\n" else "}\r\n")
    ensures |Announcement(tilde, d, plus)| <= 32 && StartsWith(t, Announcement(tilde, d, plus))
  {
    var h := Announcement(tilde, d, plus);
    assert h == w[..c + 3];
    hide Announcement;
    assert t[0..c + 3] == w[..c + 3];
  }

  /** A literal is read exactly where digits in braces and a line break stand, with or without a tilde before
      and a plus after them, within 32 characters. */
  lemma LiteralExact(t: string)
    ensures LiteralHeader(t).Some? <==>
            exists tilde, d, plus :: d != "" && AllDigits(d) && |Announcement(tilde, d, plus)| <= 32
                                     && StartsWith(t, Announcement(tilde, d, plus))
  {
    hide LiteralHeader, Announcement;
    if LiteralHeader(t).Some? { var tilde, d, plus := HeaderRead(t); }
    forall tilde, d, plus | d != "" && AllDigits(d) && |Announcement(tilde, d, plus)| <= 32
                            && StartsWith(t, Announcement(tilde, d, plus))
      ensures LiteralHeader(t).Some?
    {
      AnnouncedHeader(tilde, d, plus, t);
    }
  }

  lemma AnnouncedHeader(tilde: bool, d: string, plus: bool, t: string)
    requires d != "" && AllDigits(d) && |Announcement(tilde, d, plus)| <= 32 && StartsWith(t, Announcement(tilde, d, plus))
    ensures LiteralHeader(t).Some?
  {
    hide LiteralHeader, DecimalValue;
    var h := Announcement(tilde, d, plus);
    assert t == h + t[|h|..];
    AnyHeader(tilde, d, plus, t[|h|..]);
  }

  lemma LiteralRendered(v: string, style: Style, rest: string)
    requires |Header(|v|, style)| <= 32
    ensures LiteralAt(Header(|v|, style) + v + rest) == Some((v, rest))
  {
    hide Header, LiteralHeader;
    var h := Header(|v|, style);
    var t := h + v + rest;
    assert t == h + (v + rest);
    HeaderOf(|v|, style, v + rest);
    assert t[|h|..|h| + |v|] == v && t[|h| + |v|..] == rest;
  }

  lemma AtomStart(v: string, style: Style, rest: string)
    requires Proper(Atom(v), style) && (rest == "" || rest[0] in " ()\r\n")
    ensures v[0] !in " ()\r\n" && LiteralAt(v + rest) == None
  {
    hide LiteralAt;
    assert |v| > 1 ==> v[0..2] == [v[0], v[1]];
    NoHeader(v + rest);
  }

  lemma NextAtom(v: string, rest: string)
    requires v != "" && v[0] !in " ()\r\n" && v[0] != '"' && AtomText(v, 0)
    requires rest == "" || rest[0] in " ()\r\n"
    requires LiteralAt(v + rest) == None
    ensures Next(v + rest) == (Some(AtomToken(v)), rest)
  {
    hide LiteralAt, AtomSplit, AtomText, AtomToken;
    AtomSplitText(v, rest, 0);
    assert (v + rest)[0] == v[0];
  }

  lemma AtomRendered(v: string, style: Style, rest: string)
    requires Proper(Atom(v), style) && (rest == "" || rest[0] in " ()\r\n")
    ensures Next(v + rest) == (Some(Atom(v)), rest)
  {
    hide LiteralAt, Next, AtomToken;
    AtomStart(v, style, rest);
    NextAtom(v, rest);
    AtomTokenExact(v);
  }

  /** Every spelling of NIL reads as nil. */
  lemma NilRendered(v: string, rest: string)
    requires v in NIL_SPELLINGS && (rest == "" || rest[0] in " ()\r\n")
    ensures Next(v + rest) == (Some(Nil), rest)
  {
    hide LiteralAt, Next;
    NilText(v);
    NoHeader(v + rest);
    NextAtom(v, rest);
    AtomTokenExact(v);
  }

  lemma NilText(v: string)
    requires v in NIL_SPELLINGS
    ensures AtomText(v, 0) && v[0] in "Nn"
  {
    assert v == [v[0], v[1], v[2]];
    OneAtom(v[2], "");
    OneAtom(v[1], [v[2]]);
    OneAtom(v[0], [v[1], v[2]]);
  }

  lemma OneAtom(c: char, rest: string)
    requires c in "NnIiLl" && AtomText(rest, 0)
    ensures AtomText([c] + rest, 0)
  {
    assert ([c] + rest)[1..] == rest;
  }

  lemma HeaderBegins(n: nat, style: Style, rest: string)
    ensures var t := Header(n, style) + rest; t[0] == (if style.tilde then '~' else '{')
  {
    hide Decimal;
  }

  /** Reading a rendered token gives the token back and leaves what follows it. */
  lemma {:induction false} NextRendered(tok: Token, rest: string, style: Style)
    requires Proper(tok, style) && Legal(style) && Delimited(tok, rest)
    ensures Next(Render(tok, style) + rest) == (Some(tok), rest)
    decreases tok, 0
  {
    hide LiteralAt, AtomSplit, Items, Quoted, Escape, Decimal, RenderItems;
    match tok {
      case Atom(v) => AtomRendered(v, style, rest);
      case Nil => NilRendered(style.nothing, rest);
      case Str(v, literal) =>
        var t := Render(tok, style) + rest;
        if literal {
          LiteralRendered(v, style, rest);
          HeaderBegins(|v|, style, v + rest);
          assert t == Header(|v|, style) + v + rest == Header(|v|, style) + (v + rest);
        } else {
          QuotedEscape(v, rest);
          assert t[1..] == Escape(v) + "\"" + rest;
        }
      case List(items) =>
        var t := Render(tok, style) + rest;
        ItemsRendered(items, rest, style);
        assert t[1..] == RenderItems(items, style) + ")" + rest;
    }
  }

  lemma {:induction false} ItemsRendered(items: seq<Token>, rest: string, style: Style)
    requires Legal(style) && forall k :: 0 <= k < |items| ==> Proper(items[k], style)
    ensures Items(RenderItems(items, style) + ")" + rest) == (items, rest)
    decreases items, 1
  {
    hide Next, Render, Proper;
    var t := RenderItems(items, style) + ")" + rest;
    if items == [] {
      assert t[1..] == rest;
    } else {
      var more := items[1..];
      var tail := RenderItems(more, style) + ")" + rest;
      var sep := if more == [] then "" else Separator(items[0], items[1], style);
      assert t == Render(items[0], style) + (sep + tail);
      TailDelimits(items, sep + tail, style);
      NextRendered(items[0], sep + tail, style);
      RenderedStart(items[0], style);
      assert t[0] == Render(items[0], style)[0];
      ItemsRendered(more, rest, style);
      ItemsSkip(sep, tail);
      assert [items[0]] + more == items;
    }
  }

  lemma ItemsSkip(sep: string, tail: string)
    requires forall i :: 0 <= i < |sep| ==> sep[i] in " \r\n"
    ensures Items(sep + tail) == Items(tail) && Tokenize(sep + tail) == Tokenize(tail)
  {
    hide Next, SkipSpace;
    GapsSkipped(sep, tail);
    ItemsUnfold(sep + tail);
    ItemsUnfold(tail);
    TokenizeSkip(tail);
    TokenizeSkip(sep + tail);
  }

  lemma {:induction false} GapsSkipped(sep: string, tail: string)
    requires forall i :: 0 <= i < |sep| ==> sep[i] in " \r\n"
    ensures SkipSpace(sep + tail) == SkipSpace(tail)
  {
    if sep == "" {
      assert sep + tail == tail;
    } else {
      assert (sep + tail)[1..] == sep[1..] + tail;
      GapsSkipped(sep[1..], tail);
    }
  }

  /** No wire form begins with a gap or a closing parenthesis. */
  lemma RenderedStart(tok: Token, style: Style)
    requires Proper(tok, style) && Legal(style)
    ensures Render(tok, style) != "" && !IsGap(Render(tok, style)[0]) && Render(tok, style)[0] != ')'
  {
    if tok.Atom? {
      AtomStart(tok.value, style, "");
    }
  }

  lemma TailDelimits(items: seq<Token>, tail: string, style: Style)
    requires items != [] && Legal(style)
    requires |items| > 1 ==> tail != "" && (Separator(items[0], items[1], style) != "" ==> tail[0] in " \r\n")
    requires |items| == 1 ==> tail == "" || tail[0] == ')'
    ensures Delimited(items[0], tail)
  {
    GapsDelimit();
  }

  lemma GapsDelimit()
    ensures forall c: char :: c in " \r\n" || c == ')' ==> c in " ()\r\n"
  {
    var all := " ()\r\n";
    assert all[0] == ' ' && all[2] == ')' && all[3] == '\r' && all[4] == '\n';
  }

  /** The tokenizer inverts the grammar: any sequence of tokens is read back from its wire form. */
  lemma FirstTokenized(tok: Token, rest: string, style: Style)
    requires Proper(tok, style) && Legal(style) && Delimited(tok, rest)
    ensures Tokenize(Render(tok, style) + rest) == [tok] + Tokenize(rest)
  {
    hide Next, Render, Proper, Legal, SkipSpace, Tokenize, Delimited;
    RenderedStart(tok, style);
    NextRendered(tok, rest, style);
    TokenizeUnfold(Render(tok, style) + rest);
  }

  lemma {:induction false} TokenizeRendered(items: seq<Token>, style: Style)
    requires Legal(style) && forall k :: 0 <= k < |items| ==> Proper(items[k], style)
    ensures Tokenize(RenderItems(items, style)) == items
    decreases |items|
  {
    hide Next, Render, Proper, Tokenize, Delimited;
    if items == [] {
      TokenizeUnfold("");
    } else {
      var more := items[1..];
      var tail := RenderItems(more, style);
      var sep := if more == [] then "" else Separator(items[0], items[1], style);
      assert RenderItems(items, style) == Render(items[0], style) + (sep + tail);
      if more != [] {
        RenderedStart(more[0], style);
        assert tail != "";
      }
      TailDelimits(items, sep + tail, style);
      FirstTokenized(items[0], sep + tail, style);
      TokenizeRendered(more, style);
      ItemsSkip(sep, tail);
      assert [items[0]] + more == items;
    }
  }

  // ---- Command arguments -------------------------------------------------------------

  datatype CommandPart = Text(text: string) | Literal(data: string)

  /** Plain 7-bit text is quoted; anything else is sent as a literal of its UTF-8 bytes. */
  function Astring(value: string, utf8: string): CommandPart {
    if exists i :: 0 <= i < |value| && (value[i] as int == 0 || value[i] as int > 0x7F || value[i] == '\r' || value[i] == '\n')
    then Literal(utf8)
    else Text("\"" + Escape(value) + "\"")
  }

  /** What the client puts on the wire for an argument. */
  function Wire(p: CommandPart): string {
    match p
    case Text(t) => t
    case Literal(data) => "{" + Decimal(|data|) + "}\r\n" + data
  }

  /** An argument reads back as its value, or as the UTF-8 bytes of its value. */
  lemma AstringRoundTrip(value: string, utf8: string)
    requires |Decimal(|utf8|)| <= 28
    ensures Tokenize(Wire(Astring(value, utf8)))
            == [if Astring(value, utf8).Text? then Str(value, false) else Str(utf8, true)]
    ensures Astring(value, utf8).Text? <==>
              forall i :: 0 <= i < |value| ==>
                1 <= value[i] as int <= 0x7F && value[i] != '\r' && value[i] != '\n'
  {
    hide Escape, Decimal, Tokenize;
    var tok := if Astring(value, utf8).Text? then Str(value, false) else Str(utf8, true);
    assert [tok][0] == tok;
    assert Wire(Astring(value, utf8)) == Render(tok, PLAIN) == RenderItems([tok], PLAIN);
    TokenizeRendered([tok], PLAIN);
  }
}
