/** The signed body: relaxed canonicalization (src/core/Dkim.ts; RFC 6376, section 3.4.4). */
module Dkim {
  import opened Text
  import SmtpData

  // ---- Canonicalization --------------------------------------------------------------

  /** Length of the line break `s` begins with: CRLF, CR or LF. */
  function AnyBreak(s: string): (n: nat)
    ensures n <= |s|
  {
    if s == "" then 0
    else if s[0] == '\r' && |s| > 1 && s[1] == '\n' then 2
    else if s[0] == '\r' || s[0] == '\n' then 1
    else 0
  }

  function Normalize(s: string): string
    decreases |s|
  {
    if s == "" then ""
    else if AnyBreak(s) > 0 then CRLF + Normalize(s[AnyBreak(s)..])
    else [s[0]] + Normalize(s[1..])
  }

  function SplitCrlf(s: string, cur: string): (ls: seq<string>)
    ensures ls != []
    decreases |s|
  {
    if s == "" then [cur]
    else if AnyBreak(s) == 2 then [cur] + SplitCrlf(s[2..], "")
    else SplitCrlf(s[1..], cur + [s[0]])
  }

  predicate IsWsp(c: char) { c == ' ' || c == '\t' }

  function WspRun(s: string): (n: nat)
    ensures n <= |s|
    ensures s != "" && IsWsp(s[0]) ==> n > 0
  {
    if s != "" && IsWsp(s[0]) then 1 + WspRun(s[1..]) else 0
  }

  function ReduceWsp(s: string): string
    decreases |s|
  {
    if s == "" then ""
    else if IsWsp(s[0]) then " " + ReduceWsp(s[WspRun(s)..])
    else [s[0]] + ReduceWsp(s[1..])
  }

  function DropTrailingWsp(s: string): string {
    if s != "" && IsWsp(s[|s| - 1]) then DropTrailingWsp(s[..|s| - 1]) else s
  }

  function CanonLine(line: string): string {
    DropTrailingWsp(ReduceWsp(line))
  }

  function CanonLines(ls: seq<string>): (r: seq<string>)
    ensures |r| == |ls|
  {
    if ls == [] then [] else [CanonLine(ls[0])] + CanonLines(ls[1..])
  }

  function DropEmpty(ls: seq<string>): seq<string> {
    if ls != [] && ls[|ls| - 1] == "" then DropEmpty(ls[..|ls| - 1]) else ls
  }

  function Canonical(body: string): string {
    Join(DropEmpty(CanonLines(SplitCrlf(Normalize(body), ""))) + [""], CRLF)
  }

  method CanonicalizeBodyRelaxed(body: string) returns (r: string)
    ensures r == Canonical(body)
  {
    var canon := CanonLines(SplitCrlf(Normalize(body), ""));
    ghost var all := canon;
    while |canon| > 0 && canon[|canon| - 1] == ""
      invariant DropEmpty(canon) == DropEmpty(all)
      decreases |canon|
    {
      canon := canon[..|canon| - 1];
    }
    canon := canon + [""];
    return Join(canon, CRLF);
  }

  /** The body that is signed: what follows the first empty line. */
  function BodyOf(msg: string): string {
    var sep := Find(msg, "\r\n\r\n", 0);
    if sep == -1 then "" else msg[sep + 4..]
  }

  // ---- A final line break makes no difference ----------------------------------------

  lemma {:induction false} NormalizeThenBreak(s: string)
    ensures Normalize(s + CRLF) == Normalize(s) + CRLF
    decreases |s|
  {
    if s == "" {
      assert s + CRLF == CRLF && CRLF[2..] == "";
      NothingBefore(CRLF);
    } else {
      var n := AnyBreak(s);
      var k := if n > 0 then n else 1;
      assert (s + CRLF)[k..] == s[k..] + CRLF;
      assert AnyBreak(s + CRLF) == n;
      NormalizeThenBreak(s[k..]);
      Assoc(if n > 0 then CRLF else [s[0]], Normalize(s[k..]), CRLF);
    }
  }

  lemma {:induction false} SplitThenBreak(s: string, cur: string)
    ensures SplitCrlf(s + CRLF, cur) == SplitCrlf(s, cur) + [""]
    decreases |s|
  {
    if s == "" {
      assert s + CRLF == CRLF && CRLF[2..] == "";
    } else {
      assert AnyBreak(s + CRLF) == AnyBreak(s);
      if AnyBreak(s) == 2 {
        assert (s + CRLF)[2..] == s[2..] + CRLF;
        SplitThenBreak(s[2..], "");
        Assoc([cur], SplitCrlf(s[2..], ""), [""]);
      } else {
        assert (s + CRLF)[1..] == s[1..] + CRLF;
        SplitThenBreak(s[1..], cur + [s[0]]);
      }
    }
  }

  lemma {:induction false} CanonLinesPush(ls: seq<string>, l: string)
    ensures CanonLines(ls + [l]) == CanonLines(ls) + [CanonLine(l)]
  {
    hide CanonLine;
    if ls == [] {
      assert ls + [l] == [l] && [l][1..] == [];
    } else {
      assert (ls + [l])[1..] == ls[1..] + [l];
      CanonLinesPush(ls[1..], l);
      Assoc([CanonLine(ls[0])], CanonLines(ls[1..]), [CanonLine(l)]);
    }
  }

  lemma DropEmptyPush(ls: seq<string>)
    ensures DropEmpty(ls + [""]) == DropEmpty(ls)
  {
    assert (ls + [""])[..|ls|] == ls;
  }

  lemma CanonicalThenBreak(body: string)
    ensures Canonical(body + CRLF) == Canonical(body)
  {
    hide Normalize, SplitCrlf, CanonLines, DropEmpty;
    NormalizeThenBreak(body);
    SplitThenBreak(Normalize(body), "");
    CanonLinesPush(SplitCrlf(Normalize(body), ""), "");
    EmptyLine();
    DropEmptyPush(CanonLines(SplitCrlf(Normalize(body), "")));
  }

  lemma EmptyLine()
    ensures CanonLine("") == ""
  {
  }

  // ---- Idempotence -------------------------------------------------------------------

  /** No tab, no two spaces in a row, none at the end, no line break. */
  predicate CanonicalLine(s: string) {
    && (forall i :: 0 <= i < |s| ==> s[i] != '\t' && s[i] != '\r' && s[i] != '\n')
    && (forall i :: 0 <= i < |s| - 1 ==> !(s[i] == ' ' && s[i + 1] == ' '))
    && (s != "" ==> s[|s| - 1] != ' ')
  }

  predicate NoBreak(s: string) { forall i :: 0 <= i < |s| ==> s[i] != '\r' && s[i] != '\n' }

  lemma {:induction false} ReduceWspShape(s: string)
    requires NoBreak(s)
    ensures var r := ReduceWsp(s);
            && NoBreak(r) && (forall i :: 0 <= i < |r| ==> r[i] != '\t')
            && (forall i :: 0 <= i < |r| - 1 ==> !(r[i] == ' ' && r[i + 1] == ' '))
            && (r == "" <==> s == "") && (s != "" && !IsWsp(s[0]) ==> r[0] == s[0])
    decreases |s|
  {
    if s != "" {
      if IsWsp(s[0]) {
        var t := s[WspRun(s)..];
        RunEnds(s);
        ReduceWspShape(t);
      } else {
        ReduceWspShape(s[1..]);
      }
    }
  }

  lemma {:induction false} RunEnds(s: string)
    ensures var t := s[WspRun(s)..]; t == "" || !IsWsp(t[0])
  {
    if s != "" && IsWsp(s[0]) {
      RunEnds(s[1..]);
      assert s[WspRun(s)..] == s[1..][WspRun(s[1..])..];
    }
  }

  lemma {:induction false} DropTrailingShape(s: string)
    requires NoBreak(s) && (forall i :: 0 <= i < |s| ==> s[i] != '\t')
    requires forall i :: 0 <= i < |s| - 1 ==> !(s[i] == ' ' && s[i + 1] == ' ')
    ensures CanonicalLine(DropTrailingWsp(s))
  {
    if s != "" && IsWsp(s[|s| - 1]) {
      DropTrailingShape(s[..|s| - 1]);
    }
  }

  lemma CanonLineShape(line: string)
    requires NoBreak(line)
    ensures CanonicalLine(CanonLine(line))
  {
    hide ReduceWsp, DropTrailingWsp, CanonicalLine;
    ReduceWspShape(line);
    DropTrailingShape(ReduceWsp(line));
  }

  lemma {:induction false} ReduceWspSame(s: string)
    requires forall i :: 0 <= i < |s| ==> s[i] != '\t'
    requires forall i :: 0 <= i < |s| - 1 ==> !(s[i] == ' ' && s[i + 1] == ' ')
    ensures ReduceWsp(s) == s
    decreases |s|
  {
    if s != "" {
      ReduceWspSame(s[1..]);
      if s[0] == ' ' {
        assert s[1..] == "" || !IsWsp(s[1..][0]);
        assert WspRun(s[1..]) == 0;
      }
    }
  }

  lemma CanonLineSame(s: string)
    requires CanonicalLine(s)
    ensures CanonLine(s) == s
  {
    ReduceWspSame(s);
  }

  predicate AllCanonical(ls: seq<string>) { forall i :: 0 <= i < |ls| ==> CanonicalLine(ls[i]) }

  lemma {:induction false} SplitNoBreak(s: string, cur: string)
    requires NoBreak(cur) && Tidy(s)
    ensures forall i :: 0 <= i < |SplitCrlf(s, cur)| ==> NoBreak(SplitCrlf(s, cur)[i])
    decreases |s|
  {
    hide NoBreak;
    if s != "" {
      if AnyBreak(s) == 2 {
        NoBreakNothing();
        SplitNoBreak(s[2..], "");
      } else {
        NoBreakPush(cur, s[0]);
        SplitNoBreak(s[1..], cur + [s[0]]);
      }
    }
  }

  lemma NoBreakNothing()
    ensures NoBreak("")
  {
  }

  lemma NoBreakPush(cur: string, c: char)
    requires NoBreak(cur) && c != '\r' && c != '\n'
    ensures NoBreak(cur + [c])
  {
  }

  /** All line breaks are CRLF. */
  predicate Tidy(s: string)
    decreases |s|
  {
    if s == "" then true
    else if AnyBreak(s) == 2 then Tidy(s[2..])
    else AnyBreak(s) == 0 && Tidy(s[1..])
  }

  lemma {:induction false} NormalizeTidy(s: string)
    ensures Tidy(Normalize(s))
    decreases |s|
  {
    if s != "" {
      if AnyBreak(s) > 0 {
        NormalizeTidy(s[AnyBreak(s)..]);
        assert (CRLF + Normalize(s[AnyBreak(s)..]))[2..] == Normalize(s[AnyBreak(s)..]);
      } else {
        NormalizeTidy(s[1..]);
        assert ([s[0]] + Normalize(s[1..]))[1..] == Normalize(s[1..]);
      }
    }
  }

  lemma {:induction false} CanonLinesShape(ls: seq<string>)
    requires forall i :: 0 <= i < |ls| ==> NoBreak(ls[i])
    ensures AllCanonical(CanonLines(ls))
  {
    hide CanonLine, CanonicalLine, NoBreak;
    if ls != [] {
      CanonLineShape(ls[0]);
      CanonLinesShape(ls[1..]);
    }
  }

  lemma {:induction false} CanonLinesSame(ls: seq<string>)
    requires AllCanonical(ls)
    ensures CanonLines(ls) == ls
  {
    hide CanonLine, CanonicalLine;
    if ls != [] {
      CanonLineSame(ls[0]);
      CanonLinesSame(ls[1..]);
      assert [ls[0]] + ls[1..] == ls;
    }
  }

  lemma {:induction false} DropEmptyShape(ls: seq<string>)
    ensures var r := DropEmpty(ls);
            && |r| <= |ls| && r == ls[..|r|] && (r == [] || r[|r| - 1] != "")
    ensures DropEmpty(DropEmpty(ls)) == DropEmpty(ls)
  {
    if ls != [] && ls[|ls| - 1] == "" {
      DropEmptyShape(ls[..|ls| - 1]);
    }
  }

  lemma {:induction false} SplitAfterLine(x: string, rest: string, cur: string)
    requires NoBreak(x)
    ensures SplitCrlf(x + rest, cur) == SplitCrlf(rest, cur + x)
    ensures Normalize(x + rest) == x + Normalize(rest)
  {
    if x == "" {
      NothingBefore(rest);
      NothingBefore(cur);
      NothingBefore(Normalize(rest));
    } else {
      assert (x + rest)[1..] == x[1..] + rest;
      SplitAfterLine(x[1..], rest, cur + [x[0]]);
      assert cur + [x[0]] + x[1..] == cur + x;
      Assoc([x[0]], x[1..], Normalize(rest));
      assert [x[0]] + x[1..] == x;
    }
  }

  lemma AtBreak(rest: string, cur: string)
    ensures SplitCrlf(CRLF + rest, cur) == [cur] + SplitCrlf(rest, "")
    ensures Normalize(CRLF + rest) == CRLF + Normalize(rest)
    ensures SplitCrlf("", cur) == [cur] && Normalize("") == ""
  {
    assert (CRLF + rest)[2..] == rest;
  }

  /** Joined lines are already normalized, and split where they were joined. */
  lemma {:induction false} SplitJoined(ls: seq<string>)
    requires ls != [] && forall i :: 0 <= i < |ls| ==> NoBreak(ls[i])
    ensures Normalize(Join(ls, CRLF)) == Join(ls, CRLF)
    ensures SplitCrlf(Join(ls, CRLF), "") == ls
    decreases |ls|
  {
    hide NoBreak, Normalize, SplitCrlf;
    NothingBefore(ls[0]);
    AtBreak("", ls[0]);
    if |ls| == 1 {
      SplitAfterLine(ls[0], "", "");
    } else {
      var rest := Join(ls[1..], CRLF);
      SplitJoined(ls[1..]);
      Assoc(ls[0], CRLF, rest);
      AtBreak(rest, ls[0]);
      SplitAfterLine(ls[0], CRLF + rest, "");
      assert [ls[0]] + ls[1..] == ls;
    }
  }

  lemma CanonicalLineNoBreak(ls: seq<string>)
    requires AllCanonical(ls)
    ensures forall i :: 0 <= i < |ls + [""]| ==> NoBreak((ls + [""])[i])
  {
  }

  /** The lines a body has in canonical form. */
  function Kept(body: string): seq<string> {
    DropEmpty(CanonLines(SplitCrlf(Normalize(body), "")))
  }

  lemma KeptShape(body: string)
    ensures AllCanonical(Kept(body)) && DropEmpty(Kept(body)) == Kept(body)
  {
    hide Normalize, SplitCrlf, CanonLines, DropEmpty, CanonicalLine, NoBreak, Tidy;
    NormalizeTidy(body);
    NoBreakNothing();
    SplitNoBreak(Normalize(body), "");
    CanonLinesShape(SplitCrlf(Normalize(body), ""));
    DropEmptyShape(CanonLines(SplitCrlf(Normalize(body), "")));
  }

  /** Canonicalization is idempotent. */
  lemma CanonicalTwice(body: string)
    ensures Canonical(Canonical(body)) == Canonical(body)
  {
    hide Normalize, SplitCrlf, CanonLines, DropEmpty, Join, AllCanonical, NoBreak;
    var ls := Kept(body);
    KeptShape(body);
    CanonicalLineNoBreak(ls);
    SplitJoined(ls + [""]);
    CanonLinesSame(ls);
    CanonLinesPush(ls, "");
    EmptyLine();
    DropEmptyPush(ls);
  }

  // ---- Across SMTP -------------------------------------------------------------------

  /** Completing a message by a CRLF moves no part of the header into the body or back. */
  lemma BodyOfCompleted(raw: string)
    ensures BodyOf(raw + SmtpData.Completion(raw)) == BodyOf(raw) + SmtpData.Completion(raw)
            || BodyOf(raw + SmtpData.Completion(raw)) == BodyOf(raw)
  {
    hide Find;
    var P := "\r\n\r\n";
    var t := raw + SmtpData.Completion(raw);
    if SmtpData.EndsInCrlf(raw) {
      NothingBefore(raw);
    } else {
      forall k ensures At(t, k, P) <==> At(raw, k, P) {
        SeparatorInside(raw, k);
      }
      var sep := Find(raw, P, 0);
      if sep == -1 {
        FindNone(t, P, 0);
      } else {
        FindIs(t, P, 0, sep);
        assert t[sep + 4..] == raw[sep + 4..] + CRLF;
      }
    }
  }

  lemma SeparatorInside(raw: string, k: int)
    requires !SmtpData.EndsInCrlf(raw)
    ensures At(raw + CRLF, k, "\r\n\r\n") <==> At(raw, k, "\r\n\r\n")
  {
    var t := raw + CRLF;
    AtChars(t, k, "\r\n\r\n");
    AtChars(raw, k, "\r\n\r\n");
    var p := "\r\n\r\n";
    assert p[0] == '\r' && p[1] == '\n' && p[2] == '\r' && p[3] == '\n';
    if |raw| >= 2 {
      assert raw[|raw| - 2..] == [raw[|raw| - 2], raw[|raw| - 1]];
    }
  }

  // The body of what the server gets.

  const SEPARATOR := "\r\n\r\n"

  lemma FindCons(s: string, p: string)
    requires s != "" && !At(s, 0, p)
    ensures var i := Find(s[1..], p, 0); Find(s, p, 0) == if i == -1 then -1 else i + 1
  {
    hide Find;
    var t, i := s[1..], Find(s[1..], p, 0);
    forall k: int ensures k > 0 ==> (At(s, k, p) <==> At(t, k - 1, p)) {
      AtChars(s, k, p);
      AtChars(t, k - 1, p);
    }
    if i == -1 {
      forall k: nat | 0 <= k ensures !At(s, k, p) {
        assert k > 0 ==> !At(t, k - 1, p);
      }
      FindNone(s, p, 0);
    } else {
      FindIs(s, p, 0, i + 1);
    }
  }

  lemma BodyCons(c: char, s: string)
    requires !StartsWith([c] + s, SEPARATOR)
    ensures BodyOf([c] + s) == BodyOf(s)
  {
    hide Find;
    var t := [c] + s;
    FindCons(t, SEPARATOR);
    assert t[1..] == s;
    var i := Find(s, SEPARATOR, 0);
    assert i >= 0 ==> t[i + 1 + 4..] == s[i + 4..];
  }

  lemma BodyAfter(s: string)
    requires StartsWith(s, SEPARATOR)
    ensures BodyOf(s) == s[4..]
  {
    hide Find;
    FindIs(s, SEPARATOR, 0, 0);
  }

  lemma SeparatorRedoubled(s: string, sent: bool, bol: bool, cr: bool)
    requires StartsWith(s, SEPARATOR)
    ensures SmtpData.Redoubled(s, sent, bol, cr) == SEPARATOR + SmtpData.Received(s[4..])
  {
    AtChars(s, 0, SEPARATOR);
    assert SEPARATOR[0] == '\r' && SEPARATOR[1] == '\n' && SEPARATOR[2] == '\r' && SEPARATOR[3] == '\n';
    assert s[1..][1..] == s[2..] && s[2..][1..] == s[3..] && s[3..][1..] == s[4..];
    assert SmtpData.Redoubled(s[3..], false, false, true) == "\n" + SmtpData.Received(s[4..]);
    assert SmtpData.Redoubled(s[2..], true, true, false) == "\r" + SmtpData.Redoubled(s[3..], false, false, true);
  }

  /** Dots are doubled in the header and in the body, each for itself. */
  lemma {:induction false} BodyRedoubled(s: string, sent: bool, bol: bool, cr: bool)
    ensures BodyOf(SmtpData.Redoubled(s, sent, bol, cr)) == SmtpData.Received(BodyOf(s))
  {
    hide BodyOf;
    var x := SmtpData.Redoubled(s, sent, bol, cr);
    assert forall i :: 0 <= i < 4 ==> SEPARATOR[i] != '.';
    SmtpData.RedoubledStart(s, sent, bol, cr, SEPARATOR);
    if s == "" {
      BodyOfNothing();
    } else if StartsWith(s, SEPARATOR) {
      SeparatorRedoubled(s, sent, bol, cr);
      BodyAfter(s);
      BodyAfter(x);
      assert x[4..] == SmtpData.Received(s[4..]);
    } else {
      var c, bol' := s[0], cr && s[0] == '\n';
      var more := SmtpData.Redoubled(s[1..], c == '\n', bol', c == '\r');
      BodyRedoubled(s[1..], c == '\n', bol', c == '\r');
      hide SmtpData.Redoubled;
      assert s == [c] + s[1..];
      BodyCons(c, s[1..]);
      if c == '.' && sent && !bol {
        assert x == ['.'] + (['.'] + more);
        DotStarts(more);
        DotStarts(['.'] + more);
        BodyCons('.', more);
        BodyCons('.', ['.'] + more);
      } else {
        BodyCons(c, more);
      }
    }
  }

  lemma BodyOfNothing()
    ensures BodyOf("") == "" && SmtpData.Received("") == ""
  {
  }

  lemma DotStarts(s: string)
    ensures !StartsWith(['.'] + s, SEPARATOR)
  {
    AtChars(['.'] + s, 0, SEPARATOR);
    assert SEPARATOR[0] == '\r';
  }

  // Canonicalization keeps the dots.

  function DotsIn(ls: seq<string>): nat {
    if ls == [] then 0 else SmtpData.Dots(ls[0]) + DotsIn(ls[1..])
  }

  lemma DotsCons(c: char, s: string)
    ensures SmtpData.Dots([c] + s) == (if c == '.' then 1 else 0) + SmtpData.Dots(s)
  {
    SmtpData.OneDot(c);
    SmtpData.DotsConcat([c], s);
  }

  lemma {:induction false} NormalizeDots(s: string)
    ensures SmtpData.Dots(Normalize(s)) == SmtpData.Dots(s)
    decreases |s|
  {
    hide SmtpData.Dots;
    if s == "" {
    } else {
      var n := AnyBreak(s);
      NormalizeDots(s[if n > 0 then n else 1..]);
      BreakDots(s);
      if n > 0 {
        SmtpData.OneDot(' ');
        SmtpData.DotsConcat(CRLF, Normalize(s[n..]));
      } else {
        DotsCons(s[0], s[1..]);
        DotsCons(s[0], Normalize(s[1..]));
        assert s == [s[0]] + s[1..];
      }
    }
  }

  lemma BreakDots(s: string)
    requires s != ""
    ensures AnyBreak(s) > 0 ==> SmtpData.Dots(s[AnyBreak(s)..]) == SmtpData.Dots(s)
  {
    if AnyBreak(s) == 2 {
      assert s[1..][1..] == s[2..];
    }
  }

  lemma {:induction false} SplitDots(s: string, cur: string)
    ensures DotsIn(SplitCrlf(s, cur)) == SmtpData.Dots(cur) + SmtpData.Dots(s)
    decreases |s|
  {
    hide SmtpData.Dots;
    if s == "" {
      assert [cur][1..] == [];
      EmptyDots();
    } else if AnyBreak(s) == 2 {
      BreakDots(s);
      SplitDots(s[2..], "");
      EmptyDots();
      assert ([cur] + SplitCrlf(s[2..], ""))[1..] == SplitCrlf(s[2..], "");
    } else {
      SplitDots(s[1..], cur + [s[0]]);
      SmtpData.DotsConcat(cur, [s[0]]);
      SmtpData.DotsConcat([s[0]], s[1..]);
      assert s == [s[0]] + s[1..];
    }
  }

  lemma EmptyDots()
    ensures SmtpData.Dots("") == 0
  {
  }

  lemma {:induction false} RunDots(s: string)
    ensures SmtpData.Dots(s[WspRun(s)..]) == SmtpData.Dots(s)
  {
    if s != "" && IsWsp(s[0]) {
      RunDots(s[1..]);
      assert s[WspRun(s)..] == s[1..][WspRun(s[1..])..];
    } else {
      assert s[0..] == s;
    }
  }

  lemma {:induction false} ReduceDots(s: string)
    ensures SmtpData.Dots(ReduceWsp(s)) == SmtpData.Dots(s)
    decreases |s|
  {
    hide SmtpData.Dots;
    if s == "" {
    } else if IsWsp(s[0]) {
      RunDots(s);
      ReduceDots(s[WspRun(s)..]);
      DotsCons(' ', ReduceWsp(s[WspRun(s)..]));
    } else {
      ReduceDots(s[1..]);
      DotsCons(s[0], ReduceWsp(s[1..]));
      DotsCons(s[0], s[1..]);
      assert s == [s[0]] + s[1..];
    }
  }

  lemma {:induction false} TrailingDots(s: string)
    ensures SmtpData.Dots(DropTrailingWsp(s)) == SmtpData.Dots(s)
  {
    hide SmtpData.Dots;
    if s != "" && IsWsp(s[|s| - 1]) {
      var t := s[..|s| - 1];
      TrailingDots(t);
      assert s == t + [s[|s| - 1]];
      SmtpData.DotsConcat(t, [s[|s| - 1]]);
      SmtpData.OneDot(s[|s| - 1]);
    }
  }

  lemma {:induction false} LinesDots(ls: seq<string>)
    ensures DotsIn(CanonLines(ls)) == DotsIn(ls)
  {
    hide SmtpData.Dots, ReduceWsp, DropTrailingWsp;
    if ls != [] {
      LinesDots(ls[1..]);
      ReduceDots(ls[0]);
      TrailingDots(ReduceWsp(ls[0]));
      assert CanonLines(ls)[1..] == CanonLines(ls[1..]);
    }
  }

  lemma {:induction false} DotsInPush(ls: seq<string>, l: string)
    ensures DotsIn(ls + [l]) == DotsIn(ls) + SmtpData.Dots(l)
  {
    hide SmtpData.Dots;
    if ls == [] {
      assert ls + [l] == [l] && [l][1..] == [];
    } else {
      assert (ls + [l])[1..] == ls[1..] + [l];
      DotsInPush(ls[1..], l);
    }
  }

  lemma {:induction false} DropDots(ls: seq<string>)
    ensures DotsIn(DropEmpty(ls)) == DotsIn(ls)
  {
    hide SmtpData.Dots;
    if ls != [] && ls[|ls| - 1] == "" {
      DropDots(ls[..|ls| - 1]);
      DotsInPush(ls[..|ls| - 1], "");
      assert ls[..|ls| - 1] + [""] == ls;
      EmptyDots();
    }
  }

  lemma {:induction false} JoinDots(ls: seq<string>)
    ensures SmtpData.Dots(Join(ls, CRLF)) == DotsIn(ls)
  {
    hide SmtpData.Dots;
    EmptyDots();
    SmtpData.OneDot(' ');
    if |ls| > 1 {
      JoinDots(ls[1..]);
      SmtpData.DotsConcat(ls[0] + CRLF, Join(ls[1..], CRLF));
      SmtpData.DotsConcat(ls[0], CRLF);
    } else if |ls| == 1 {
      assert ls[1..] == [];
    }
  }

  lemma CanonicalDots(body: string)
    ensures SmtpData.Dots(Canonical(body)) == SmtpData.Dots(body)
  {
    hide Normalize, SplitCrlf, CanonLines, DropEmpty, Join, SmtpData.Dots, DotsIn;
    NormalizeDots(body);
    SplitDots(Normalize(body), "");
    LinesDots(SplitCrlf(Normalize(body), ""));
    DropDots(CanonLines(SplitCrlf(Normalize(body), "")));
    DotsInPush(Kept(body), "");
    JoinDots(Kept(body) + [""]);
    EmptyDots();
  }

  /** The signed body survives SMTP exactly when no dot follows a bare LF in it, whatever the header holds:
      then the received message has a body with the canonical form that was signed. */
  lemma SignedBodySurvives(raw: string)
    ensures var received := SmtpData.Receive(SmtpData.DotStuff(raw));
            && received.Some?
            && (Canonical(BodyOf(received.value)) == Canonical(BodyOf(raw))
                <==> forall k :: !SmtpData.BareLfDotAt(BodyOf(raw), k))
  {
    hide BodyOf, Canonical, SmtpData.Receive, SmtpData.DotStuff, SmtpData.Redoubled, SmtpData.Dots;
    var body, got := BodyOf(raw), SmtpData.Received(raw);
    SmtpData.ReceivedIs(raw);
    SmtpData.ReceivedEnds(raw);
    BodyOfCompleted(got);
    BodyRedoubled(raw, true, true, false);
    CanonicalThenBreak(BodyOf(got));
    NothingBefore(BodyOf(got));
    assert BodyOf(got) == SmtpData.Received(body);
    SmtpData.ReceivedExact(body);
    CanonicalDots(body);
    CanonicalDots(SmtpData.Received(body));
  }
}
