/** Responses as a server writes them, and what the framer makes of them (src/imap/ImapParser.ts; RFC 3501,
    section 4.3). */
module ImapWire {
  import opened Text
  import opened ImapFraming

  // ---- Where a literal is announced --------------------------------------------------

  /** The line is `x` and then the digits `d` in braces, with or without a plus. */
  predicate Announces(line: string, x: string, d: string) {
    d != "" && AllDigits(d) && (line == x + "{" + d + "}" || line == x + "{" + d + "+}")
  }

  lemma {:induction false} DigitsBackIs(s: string, k: nat, j: nat)
    requires k <= j <= |s| && AllDigits(s[k..j]) && (k > 0 ==> !IsDigit(s[k - 1]))
    ensures DigitsBack(s, j) == k
    decreases j
  {
    if k < j {
      assert s[k..j][j - 1 - k] == s[j - 1];
      var t := s[k..j - 1];
      forall i | 0 <= i < |t| ensures IsDigit(t[i]) {
        assert t[i] == s[k..j][i];
      }
      DigitsBackIs(s, k, j - 1);
    }
  }

  /** An announced literal has the announced length. */
  lemma AnnouncedLength(line: string, x: string, d: string)
    requires Announces(line, x, d)
    ensures LiteralAtEnd(line) == Some(DecimalValue(d))
  {
    hide DecimalValue, DigitsBack;
    var k, j := |x| + 1, |x| + 1 + |d|;
    assert line[k..j] == d;
    assert line[|x|] == '{' && line[j - 1] == d[|d| - 1];
    DigitsBackIs(line, k, j);
  }

  /** Nothing else announces one. */
  lemma LengthIsAnnounced(line: string) returns (x: string, d: string)
    requires LiteralAtEnd(line).Some?
    ensures Announces(line, x, d)
  {
    hide DecimalValue, DigitsBack;
    var n := |line|;
    var j := if n >= 2 && line[n - 2] == '+' then n - 2 else n - 1;
    var k := DigitsBack(line, j);
    x, d := line[..k - 1], line[k..j];
    assert line == x + "{" + d + line[j..];
  }

  /** A line announces a literal exactly when it ends in digits in braces. */
  lemma AnnouncedExact(line: string)
    ensures LiteralAtEnd(line).Some? <==> exists x, d :: Announces(line, x, d)
  {
    hide LiteralAtEnd;
    if LiteralAtEnd(line).Some? {
      var x, d := LengthIsAnnounced(line);
    } else {
      forall x, d ensures !Announces(line, x, d) {
        if Announces(line, x, d) {
          AnnouncedLength(line, x, d);
        }
      }
    }
  }

  // ---- Writing -----------------------------------------------------------------------

  /** A literal, and the text of its line before the length. */
  datatype Section = Section(text: string, plus: bool, data: string)

  /** A response: its literals, and the line that ends it. */
  datatype Reply = Reply(sections: seq<Section>, last: string)

  function Head(s: Section): string {
    s.text + "{" + Decimal(|s.data|) + (if s.plus then "+}" else "}")
  }

  function Body(ss: seq<Section>, last: string): string {
    if ss == [] then last else Head(ss[0]) + CRLF + ss[0].data + Body(ss[1..], last)
  }

  function Wire(rs: seq<Reply>): string {
    if rs == [] then "" else Body(rs[0].sections, rs[0].last) + CRLF + Wire(rs[1..])
  }

  function Bodies(rs: seq<Reply>): (r: seq<string>)
    ensures |r| == |rs|
  {
    if rs == [] then [] else [Body(rs[0].sections, rs[0].last)] + Bodies(rs[1..])
  }

  ghost predicate NoCrlf(line: string) { forall k :: !At(line, k, CRLF) }

  /** The literals may hold any bytes; the text around them has no line breaks, and the last line announces
      no literal. */
  ghost predicate Proper(r: Reply) {
    ProperParts(r.sections, r.last)
  }

  ghost predicate ProperParts(ss: seq<Section>, last: string) {
    && (forall i :: 0 <= i < |ss| ==> NoCrlf(ss[i].text))
    && NoCrlf(last) && forall x, d :: !Announces(last, x, d)
  }

  /** All lines and literals are within the limits, as is the response without its last line; lines may have
      up to `line` bytes. */
  predicate Fits(r: Reply, line: nat, lim: Limits) {
    PartsFit(r.sections, r.last, 0, line, lim)
  }

  predicate PartsFit(ss: seq<Section>, last: string, bytes: nat, line: nat, lim: Limits) {
    && (forall i :: 0 <= i < |ss| ==> |Head(ss[i])| <= line && |ss[i].data| <= lim.maxLiteral)
    && |last| <= line && (ss == [] || bytes + |Body(ss, "")| <= lim.maxResponse)
  }

  // ---- Framing -----------------------------------------------------------------------

  lemma FindLine(line: string, rest: string)
    requires NoCrlf(line)
    ensures var s := line + CRLF + rest;
            Find(s, CRLF, 0) == |line| && s[..|line|] == line && s[|line| + 2..] == rest
  {
    hide Find;
    var s := line + CRLF + rest;
    AtChars(s, |line|, CRLF);
    forall k | 0 <= k < |line| ensures !At(s, k, CRLF) {
      AtChars(s, k, CRLF);
      AtChars(line, k, CRLF);
      assert CRLF[0] == '\r' && CRLF[1] == '\n';
    }
    FindIs(s, CRLF, 0, |line|);
  }

  lemma HeadAnnounces(s: Section)
    ensures LiteralAtEnd(Head(s)) == Some(|s.data|)
  {
    hide LiteralAtEnd, Decimal;
    var d := Decimal(|s.data|);
    DecimalRoundTrip(|s.data|);
    assert Announces(Head(s), s.text, d);
    AnnouncedLength(Head(s), s.text, d);
  }

  lemma HeadUnbroken(s: Section)
    requires NoCrlf(s.text)
    ensures NoCrlf(Head(s))
  {
    hide Decimal;
    forall k ensures !At(Head(s), k, CRLF) {
      AtChars(Head(s), k, CRLF);
      AtChars(s.text, k, CRLF);
      assert CRLF[0] == '\r' && CRLF[1] == '\n';
      assert forall i :: |s.text| <= i < |Head(s)| ==> Head(s)[i] != '\r' && Head(s)[i] != '\n' by { TailPlain(s); }
    }
  }

  lemma TailPlain(s: Section)
    ensures forall i :: |s.text| <= i < |Head(s)| ==> Head(s)[i] != '\r' && Head(s)[i] != '\n'
  {
    hide Decimal;
    var d := Decimal(|s.data|);
    forall i | |s.text| <= i < |Head(s)| ensures Head(s)[i] != '\r' && Head(s)[i] != '\n' {
      if |s.text| < i <= |s.text| + |d| {
        assert Head(s)[i] == d[i - |s.text| - 1];
        assert IsDigit(d[i - |s.text| - 1]);
      }
    }
  }

  /** The framer takes the head of a section and then its literal. */
  lemma SectionSteps(acc: string, bytes: nat, s: Section, rest: string, lim: Limits)
    requires NoCrlf(s.text)
    ensures var st := St(acc, bytes, 0, Head(s) + CRLF + (s.data + rest));
            var size := bytes + |Head(s)| + 2 + |s.data|;
            if |Head(s)| > lim.maxLine || |s.data| > lim.maxLiteral || size > lim.maxResponse then Step(st, lim) == Fail
            else Step(st, lim) == Go([], St(acc + Head(s) + CRLF, size, |s.data|, s.data + rest))
  {
    hide Find, LiteralAtEnd, Head, NonBlank;
    HeadUnbroken(s);
    FindLine(Head(s), s.data + rest);
    HeadAnnounces(s);
  }

  lemma SectionDrained(acc: string, bytes: nat, s: Section, rest: string, lim: Limits)
    requires NoCrlf(s.text)
    ensures var size := bytes + |Head(s)| + 2 + |s.data|;
            Drain(St(acc, bytes, 0, Head(s) + CRLF + (s.data + rest)), lim)
            == if |Head(s)| > lim.maxLine || |s.data| > lim.maxLiteral || size > lim.maxResponse then LimitExceeded
               else Drain(St(acc + Head(s) + CRLF + s.data, size, 0, rest), lim)
  {
    hide Head, Step, Drain, After;
    SectionSteps(acc, bytes, s, rest, lim);
    var size := bytes + |Head(s)| + 2 + |s.data|;
    var st, next := St(acc, bytes, 0, Head(s) + CRLF + (s.data + rest)), St(acc + Head(s) + CRLF, size, |s.data|, s.data + rest);
    DrainUnfold(st, lim);
    DrainUnfold(next, lim);
    AfterNothing(Drain(next, lim));
    LiteralTaken(next, s.data, rest, lim);
    AfterNothing(Drain(St(acc + Head(s) + CRLF + s.data, size, 0, rest), lim));
  }

  lemma LiteralTaken(st: St, data: string, rest: string, lim: Limits)
    requires st.literal == |data| && st.pend == data + rest
    ensures data != "" ==> Step(st, lim) == Go([], St(st.acc + data, st.bytes, 0, rest))
    ensures data == "" ==> st == St(st.acc + data, st.bytes, 0, rest)
  {
    assert st.pend[..|data|] == data && st.pend[|data|..] == rest;
  }

  lemma LastSteps(acc: string, bytes: nat, last: string, rest: string, lim: Limits)
    requires NoCrlf(last) && forall x, d :: !Announces(last, x, d)
    ensures Step(St(acc, bytes, 0, last + CRLF + rest), lim)
            == if |last| > lim.maxLine then Fail else Go(NonBlank([acc + last]), St("", 0, 0, rest))
  {
    hide Find, LiteralAtEnd, NonBlank;
    FindLine(last, rest);
    AnnouncedExact(last);
  }

  lemma BodyCons(ss: seq<Section>, last: string, rest: string)
    requires ss != []
    ensures Body(ss, last) + CRLF + rest
            == Head(ss[0]) + CRLF + (ss[0].data + (Body(ss[1..], last) + CRLF + rest))
    ensures |Body(ss, "")| == |Head(ss[0])| + 2 + |ss[0].data| + |Body(ss[1..], "")|
    ensures forall acc: string :: acc + Body(ss, last) == acc + Head(ss[0]) + CRLF + ss[0].data + Body(ss[1..], last)
  {
    hide Head;
  }

  /** One response: it is reported if everything fits, and nothing is left of it. */
  lemma {:induction false} BodyDrained(acc: string, bytes: nat, ss: seq<Section>, last: string, rest: string, lim: Limits)
    requires ProperParts(ss, last)
    ensures Drain(St(acc, bytes, 0, Body(ss, last) + CRLF + rest), lim)
            == if PartsFit(ss, last, bytes, lim.maxLine, lim)
               then After(NonBlank([acc + Body(ss, last)]), Drain(St("", 0, 0, rest), lim))
               else LimitExceeded
    decreases |ss|
  {
    hide Head, Drain, After, NonBlank, NoCrlf, Announces, Step;
    if ss == [] {
      LastSteps(acc, bytes, last, rest, lim);
      DrainUnfold(St(acc, bytes, 0, last + CRLF + rest), lim);
    } else {
      var s, more, tail := ss[0], ss[1..], Body(ss[1..], last) + CRLF + rest;
      var size := bytes + |Head(s)| + 2 + |s.data|;
      assert forall i :: 0 <= i < |more| ==> more[i] == ss[i + 1];
      BodyCons(ss, last, rest);
      SectionDrained(acc, bytes, s, tail, lim);
      BodyDrained(acc + Head(s) + CRLF + s.data, size, more, last, rest, lim);
      PartsFitCons(ss, last, bytes, lim.maxLine, lim);
    }
  }

  lemma PartsFitCons(ss: seq<Section>, last: string, bytes: nat, line: nat, lim: Limits)
    requires ss != []
    ensures var s := ss[0];
            var size := bytes + |Head(s)| + 2 + |s.data|;
            PartsFit(ss, last, bytes, line, lim)
            <==> |Head(s)| <= line && |s.data| <= lim.maxLiteral && size <= lim.maxResponse
                 && PartsFit(ss[1..], last, size, line, lim)
  {
    hide Head;
    BodyCons(ss, "", "");
    assert forall i :: 0 <= i < |ss| - 1 ==> ss[1..][i] == ss[i + 1];
    assert ss[1..] == [] ==> |Body(ss[1..], "")| == 0;
  }

  /** A whole stream in one piece: the framer reports exactly the responses that were written, whatever bytes
      their literals hold, or throws, exactly when some length is over its limit. */
  lemma {:induction false} WholeStream(rs: seq<Reply>, lim: Limits)
    requires forall i :: 0 <= i < |rs| ==> Proper(rs[i])
    ensures Drain(Append(START, Wire(rs)), lim)
            == if forall i :: 0 <= i < |rs| ==> Fits(rs[i], lim.maxLine, lim) then Done(NonBlank(Bodies(rs)), START)
               else LimitExceeded
    decreases |rs|
  {
    hide Drain, After, NonBlank, Body, ProperParts, PartsFit;
    assert "" + Wire(rs) == Wire(rs);
    if rs == [] {
      NothingDrained(lim);
      NothingBlank();
    } else {
      var r, more := rs[0], rs[1..];
      assert forall i :: 0 <= i < |more| ==> more[i] == rs[i + 1];
      assert Proper(r);
      var body := Body(r.sections, r.last);
      BodyDrained("", 0, r.sections, r.last, Wire(more), lim);
      assert "" + body == body && "" + Wire(more) == Wire(more);
      WholeStream(more, lim);
      AfterBodies([body], Bodies(more));
      AfterFailure(NonBlank([body]));
      assert (forall i :: 0 <= i < |rs| ==> Fits(rs[i], lim.maxLine, lim))
             <==> Fits(r, lim.maxLine, lim) && forall i :: 0 <= i < |more| ==> Fits(more[i], lim.maxLine, lim);
    }
  }

  lemma NothingBlank()
    ensures NonBlank([]) == []
  {
  }

  lemma AfterBodies(a: seq<string>, b: seq<string>)
    ensures After(NonBlank(a), Done(NonBlank(b), START)) == Done(NonBlank(a + b), START)
  {
    NonBlankConcat(a, b);
  }

  /** Whatever the cut: calls that do not throw report exactly the responses that were written and keep
      nothing, and a length over its limit makes one of them throw. */
  lemma AnyCut(rs: seq<Reply>, chunks: seq<string>, lim: Limits)
    requires (forall i :: 0 <= i < |rs| ==> Proper(rs[i])) && Flat(chunks) == Wire(rs)
    ensures DrainAll(START, chunks, lim).Done? ==>
              && DrainAll(START, chunks, lim) == Done(NonBlank(Bodies(rs)), START)
              && forall i :: 0 <= i < |rs| ==> Fits(rs[i], lim.maxLine, lim)
    ensures lim.maxLine > 0 && (forall i :: 0 <= i < |rs| ==> Fits(rs[i], lim.maxLine - 1, lim)) ==>
              DrainAll(START, chunks, lim).Done?
  {
    hide Drain, DrainAll, NonBlank, Fits, Proper, StrictlyWithin;
    if DrainAll(START, chunks, lim).Done? {
      AcceptedCutFrames(chunks, lim);
      WholeStream(rs, lim);
    }
    if lim.maxLine > 0 && (forall i :: 0 <= i < |rs| ==> Fits(rs[i], lim.maxLine - 1, lim)) {
      RepliesWithin(rs, lim);
      AcceptedHoweverCut(Wire(rs), lim);
    }
  }

  predicate Printable(s: string) { exists k :: 0 <= k < |s| && '!' <= s[k] <= '~' }

  /** Only white space is left out of the report: a response with a printable character is in it. */
  lemma {:induction false} PrintableReported(rs: seq<string>)
    requires forall i :: 0 <= i < |rs| ==> Printable(rs[i])
    ensures NonBlank(rs) == rs
  {
    if rs != [] {
      assert Printable(rs[0]);
      var k :| 0 <= k < |rs[0]| && '!' <= rs[0][k] <= '~';
      assert !IsSpace(rs[0][k]);
      PrintableReported(rs[1..]);
      assert rs == [rs[0]] + rs[1..];
    }
  }

  lemma {:induction false} BlankDropped(rs: seq<string>)
    requires forall i, k :: 0 <= i < |rs| && 0 <= k < |rs[i]| ==> rs[i][k] in " \t\r\n"
    ensures NonBlank(rs) == []
  {
    if rs != [] {
      assert forall k :: 0 <= k < |rs[0]| ==> IsSpace(rs[0][k]);
      BlankDropped(rs[1..]);
    }
  }

  /** Whatever the cut: calls that do not throw report every written response that holds a printable
      character, literals included. */
  lemma AllReported(rs: seq<Reply>, chunks: seq<string>, lim: Limits)
    requires (forall i :: 0 <= i < |rs| ==> Proper(rs[i])) && Flat(chunks) == Wire(rs)
    requires forall i :: 0 <= i < |rs| ==> Printable(Bodies(rs)[i])
    ensures DrainAll(START, chunks, lim).Done? ==> DrainAll(START, chunks, lim).out == Bodies(rs)
  {
    hide DrainAll, NonBlank, Fits, Proper, Bodies, Wire, Printable;
    AnyCut(rs, chunks, lim);
    PrintableReported(Bodies(rs));
  }

  lemma {:induction false} BodyWithin(acc: string, bytes: nat, ss: seq<Section>, last: string, rest: string, lim: Limits)
    requires ProperParts(ss, last) && lim.maxLine > 0 && PartsFit(ss, last, bytes, lim.maxLine - 1, lim)
    requires StrictlyWithin(St("", 0, 0, rest), lim)
    ensures StrictlyWithin(St(acc, bytes, 0, Body(ss, last) + CRLF + rest), lim)
    decreases |ss|
  {
    hide Head, NonBlank, NoCrlf, Announces, Step, StrictStep, StrictlyWithin;
    if ss == [] {
      LastSteps(acc, bytes, last, rest, lim);
      FindLine(last, rest);
      StrictNow(St(acc, bytes, 0, last + CRLF + rest), |last|, lim);
    } else {
      var s, more, tail := ss[0], ss[1..], Body(ss[1..], last) + CRLF + rest;
      var size := bytes + |Head(s)| + 2 + |s.data|;
      assert forall i :: 0 <= i < |more| ==> more[i] == ss[i + 1];
      BodyCons(ss, last, rest);
      PartsFitCons(ss, last, bytes, lim.maxLine - 1, lim);
      BodyWithin(acc + Head(s) + CRLF + s.data, size, more, last, rest, lim);
      var st, next := St(acc, bytes, 0, Head(s) + CRLF + (s.data + tail)), St(acc + Head(s) + CRLF, size, |s.data|, s.data + tail);
      SectionSteps(acc, bytes, s, tail, lim);
      LiteralTaken(next, s.data, tail, lim);
      if s.data != "" { StrictNow(next, 0, lim); }
      HeadUnbroken(s);
      FindLine(Head(s), s.data + tail);
      StrictNow(st, |Head(s)|, lim);
    }
  }

  lemma StrictNow(st: St, i: nat, lim: Limits)
    requires Step(st, lim).Go? && StrictlyWithin(Step(st, lim).next, lim)
    requires st.literal > 0 || (Find(st.pend, CRLF, 0) == i && i < lim.maxLine)
    ensures StrictlyWithin(st, lim)
  {
    hide Find, Step;
  }

  lemma {:induction false} RepliesWithin(rs: seq<Reply>, lim: Limits)
    requires lim.maxLine > 0
    requires forall i :: 0 <= i < |rs| ==> Proper(rs[i]) && Fits(rs[i], lim.maxLine - 1, lim)
    ensures StrictlyWithin(Append(START, Wire(rs)), lim)
    decreases |rs|
  {
    hide Body, ProperParts, PartsFit, StrictlyWithin;
    assert "" + Wire(rs) == Wire(rs);
    if rs == [] {
      NothingWithin(lim);
    } else {
      var r, more := rs[0], rs[1..];
      assert Proper(r) && Fits(r, lim.maxLine - 1, lim);
      assert forall i :: 0 <= i < |more| ==> more[i] == rs[i + 1];
      RepliesWithin(more, lim);
      assert "" + Wire(more) == Wire(more);
      BodyWithin("", 0, r.sections, r.last, Wire(more), lim);
    }
  }

  lemma NothingWithin(lim: Limits)
    ensures StrictlyWithin(START, lim)
  {
  }

  lemma TailAfter(head: string, data: string, tail: string)
    ensures (head + CRLF + (data + tail))[|head| + 2 + |data|..] == tail
  {
  }

  /** The end of a written response is found, whatever its literals look like. */
  lemma {:induction false} BodyEnds(ss: seq<Section>, last: string, rest: string)
    requires ProperParts(ss, last)
    ensures ResponseEnd(Body(ss, last) + CRLF + rest) == Some(|Body(ss, last)| + 2)
    decreases |ss|
  {
    hide Find, LiteralAtEnd, Head, ResponseEnd, Announces, NoCrlf;
    if ss == [] {
      FindLine(last, rest);
      AnnouncedExact(last);
      EndsHere(last + CRLF + rest);
    } else {
      var s, more := ss[0], ss[1..];
      var tail := Body(more, last) + CRLF + rest;
      var all := Head(s) + CRLF + (s.data + tail);
      assert forall i :: 0 <= i < |more| ==> more[i] == ss[i + 1];
      BodyCons(ss, last, rest);
      HeadUnbroken(s);
      FindLine(Head(s), s.data + tail);
      HeadAnnounces(s);
      var i, n := |Head(s)|, |s.data|;
      TailAfter(Head(s), s.data, tail);
      ResponseEndAfterLiteral(all, i, n);
      BodyEnds(more, last, rest);
    }
  }

  lemma EndsHere(s: string)
    requires Find(s, CRLF, 0) >= 0 && LiteralAtEnd(s[..Find(s, CRLF, 0)]).None?
    ensures ResponseEnd(s) == Some(Find(s, CRLF, 0) + 2)
  {
    hide Find, LiteralAtEnd;
  }

  /** The one-shot framing of what was written is what was written. */
  lemma {:induction false} FramesWritten(rs: seq<Reply>)
    requires forall i :: 0 <= i < |rs| ==> Proper(rs[i])
    ensures Frames(Wire(rs)) == Bodies(rs)
    decreases |rs|
  {
    hide ResponseEnd, Body, ProperParts, Find;
    if rs == [] {
      NothingFramed();
    } else {
      var r, more := rs[0], rs[1..];
      assert Proper(r) && forall i :: 0 <= i < |more| ==> more[i] == rs[i + 1];
      BodyEnds(r.sections, r.last, Wire(more));
      FramesWritten(more);
      var body := Body(r.sections, r.last);
      assert Wire(rs)[..|body|] == body && Wire(rs)[|body| + 2..] == Wire(more);
    }
  }

  lemma NothingFramed()
    ensures Frames("") == []
  {
    assert Find("", CRLF, 0) == -1;
  }
}
