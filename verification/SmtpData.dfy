/** SMTP transparency (src/smtp/SmtpCommand.ts; RFC 5321, section 4.5.2). */
module SmtpData {
  import opened Text

  // ---- Sending -----------------------------------------------------------------------

  /** Every LF-dot gets a second dot. */
  function DoubleDots(s: string): string {
    if s == "" then ""
    else if s[0] == '\n' && |s| > 1 && s[1] == '.' then "\n.." + DoubleDots(s[2..])
    else [s[0]] + DoubleDots(s[1..])
  }

  predicate EndsInCrlf(s: string) { |s| >= 2 && s[|s| - 2..] == CRLF }

  function Stuffed(raw: string): string {
    DoubleDots(if StartsWith(raw, ".") then "." + raw else raw)
  }

  /** The complete DATA payload. */
  function DotStuff(raw: string): string {
    var str := Stuffed(raw);
    str + (if EndsInCrlf(str) then ".\r\n" else "\r\n.\r\n")
  }

  // ---- Receiving ---------------------------------------------------------------------

  const END_OF_DATA := "\r\n.\r\n"

  /** Where the text of the message ends: before the first line that is a lone dot. The line break before
      the first line is the one that ends the DATA command. */
  function EndOfText(payload: string): int {
    Find(CRLF + payload, END_OF_DATA, 0)
  }

  /** The dot at the beginning of a line is dropped; lines begin after CRLF. `bol` tells that a line
      begins here, `cr` that the last character was a CR. */
  function Unstuff(s: string, bol: bool, cr: bool): string {
    if s == "" then ""
    else if bol && s[0] == '.' then Unstuff(s[1..], false, false)
    else [s[0]] + Unstuff(s[1..], cr && s[0] == '\n', s[0] == '\r')
  }

  /** What the server makes of a payload. */
  function Receive(payload: string): Option<string> {
    var e := EndOfText(payload);
    if 0 <= e <= |payload| then Some(Unstuff(payload[..e], true, false)) else None
  }

  // ---- One pass form of the stuffing -------------------------------------------------

  /** Stuffing in one pass; `bol` tells that the last character was an LF, or that this is the start. */
  function Stuff(s: string, bol: bool): string {
    if s == "" then ""
    else if bol && s[0] == '.' then ".." + Stuff(s[1..], false)
    else [s[0]] + Stuff(s[1..], s[0] == '\n')
  }

  lemma {:induction false} DoubleDotsIsStuff(s: string)
    ensures DoubleDots(s) == Stuff(s, false)
    decreases |s|
  {
    if s != "" {
      if s[0] == '\n' && |s| > 1 && s[1] == '.' {
        DoubleDotsIsStuff(s[2..]);
        assert s[1..][1..] == s[2..];
        assert ['\n'] + (".." + Stuff(s[2..], false)) == "\n.." + Stuff(s[2..], false);
      } else {
        DoubleDotsIsStuff(s[1..]);
        if s[0] == '\n' { StuffFirst(s[1..]); }
      }
    }
  }

  lemma StuffFirst(s: string)
    requires s == "" || s[0] != '.'
    ensures Stuff(s, true) == Stuff(s, false)
  {
  }

  lemma StuffedIsStuff(raw: string)
    ensures Stuffed(raw) == Stuff(raw, true)
  {
    AtChars(raw, 0, ".");
    assert "."[0] == '.';
    if StartsWith(raw, ".") {
      var t := "." + raw;
      DoubleDotsIsStuff(t);
      assert t[1..] == raw;
      assert ['.'] + (['.'] + Stuff(raw[1..], false)) == ".." + Stuff(raw[1..], false);
    } else {
      DoubleDotsIsStuff(raw);
      StuffFirst(raw);
    }
  }

  // ---- The end-of-data marker --------------------------------------------------------

  /** Every dot after an LF is followed by another dot. */
  predicate Doubled(x: string, bol: bool)
    decreases |x|
  {
    if x == "" then true
    else if bol && x[0] == '.' then |x| > 1 && x[1] == '.' && Doubled(x[2..], false)
    else Doubled(x[1..], x[0] == '\n')
  }

  lemma {:induction false} StuffDoubled(s: string, bol: bool, t: string)
    requires t == "" || t == CRLF
    ensures Doubled(Stuff(s, bol) + t, bol)
  {
    if s == "" {
      NothingBefore(t);
      if t == CRLF {
        assert t[1..] == "\n" && t[1..][1..] == "";
      }
    } else if bol && s[0] == '.' {
      StuffDoubled(s[1..], false, t);
      assert (".." + Stuff(s[1..], false) + t)[2..] == Stuff(s[1..], false) + t;
    } else {
      StuffDoubled(s[1..], s[0] == '\n', t);
      assert ([s[0]] + Stuff(s[1..], s[0] == '\n') + t)[1..] == Stuff(s[1..], s[0] == '\n') + t;
    }
  }

  lemma {:induction false} DoubledAt(x: string, bol: bool, i: nat)
    requires Doubled(x, bol) && i < |x| && x[i] == '.' && (if i == 0 then bol else x[i - 1] == '\n')
    ensures i + 1 < |x| && x[i + 1] == '.'
    decreases |x|
  {
    if bol && x[0] == '.' {
      if i > 1 {
        assert x[2..][i - 2] == x[i];
        assert i > 2 ==> x[2..][i - 3] == x[i - 1];
        DoubledAt(x[2..], false, i - 2);
        assert x[2..][i - 1] == x[i + 1];
      }
    } else {
      assert x[1..][i - 1] == x[i];
      assert i > 1 ==> x[1..][i - 2] == x[i - 1];
      DoubledAt(x[1..], x[0] == '\n', i - 1);
      assert x[1..][i] == x[i + 1];
    }
  }

  /** The text that is sent before the final dot line. */
  function Sent(raw: string): string {
    Stuffed(raw) + Completion(raw)
  }

  /** The CRLF that is added to a message that does not end in one. */
  function Completion(raw: string): string {
    if EndsInCrlf(raw) then "" else CRLF
  }

  lemma EndsAlike(raw: string)
    ensures EndsInCrlf(Stuffed(raw)) <==> EndsInCrlf(raw)
  {
    hide Stuffed, Stuff, EndsInCrlf;
    StuffedIsStuff(raw);
    StuffEnd(raw, true);
    LastTwo(raw);
    LastTwo(Stuff(raw, true));
  }

  lemma LastTwo(s: string)
    ensures EndsInCrlf(s) <==> |s| >= 2 && s[|s| - 2] == '\r' && s[|s| - 1] == '\n'
  {
    if |s| >= 2 {
      assert s[|s| - 2..] == [s[|s| - 2], s[|s| - 1]];
    }
  }

  lemma {:induction false} StuffEnd(s: string, bol: bool)
    ensures s != "" ==> |Stuff(s, bol)| >= |s| && Stuff(s, bol)[|Stuff(s, bol)| - 1] == s[|s| - 1]
    ensures s == "" ==> Stuff(s, bol) == ""
    ensures |s| >= 2 && s[|s| - 1] == '\n' ==> Stuff(s, bol)[|Stuff(s, bol)| - 2] == s[|s| - 2]
    ensures |s| == 1 && s[0] == '\n' ==> |Stuff(s, bol)| == 1
  {
    if s != "" {
      var b := if bol && s[0] == '.' then false else s[0] == '\n';
      StuffEnd(s[1..], b);
    }
  }

  lemma DotStuffIs(raw: string)
    ensures DotStuff(raw) == Sent(raw) + ".\r\n"
    ensures |Sent(raw)| >= 2 && Sent(raw)[|Sent(raw)| - 2..] == CRLF
  {
    EndsAlike(raw);
    var str := Stuffed(raw);
    assert "\r\n.\r\n" == CRLF + ".\r\n";
    Assoc(str, CRLF, ".\r\n");
    NothingBefore(str);
  }

  /** The end-of-data marker occurs only at the end of the payload, for every message whatsoever. */
  lemma MarkerOnlyAtEnd(raw: string)
    ensures EndOfText(DotStuff(raw)) == |DotStuff(raw)| - 3 == |Sent(raw)|
  {
    hide Find, Doubled, Stuffed;
    DotStuffIs(raw);
    StuffedIsStuff(raw);
    var x := Sent(raw);
    var all := CRLF + DotStuff(raw);
    StuffDoubled(raw, true, Completion(raw));
    assert all == CRLF + (x + ".\r\n");
    forall k | 0 <= k < |x| ensures !At(all, k, END_OF_DATA) {
      NoMarker(x, k);
    }
    LastMarker(x);
    FindIs(all, END_OF_DATA, 0, |x|);
  }

  lemma NoMarker(x: string, k: nat)
    requires Doubled(x, true) && k < |x|
    ensures !At(CRLF + (x + ".\r\n"), k, END_OF_DATA)
  {
    hide Doubled;
    var all := CRLF + (x + ".\r\n");
    AtChars(all, k, END_OF_DATA);
    assert END_OF_DATA[1] == '\n' && END_OF_DATA[2] == '.' && END_OF_DATA[3] == '\r';
    assert all[k + 2] == x[k];
    assert k > 0 ==> all[k + 1] == x[k - 1];
    if x[k] == '.' && (k > 0 ==> x[k - 1] == '\n') {
      DoubledAt(x, true, k);
      assert all[k + 3] == x[k + 1];
    }
  }

  lemma LastMarker(x: string)
    requires |x| >= 2 && x[|x| - 2..] == CRLF
    ensures At(CRLF + (x + ".\r\n"), |x|, END_OF_DATA)
  {
    var all := CRLF + (x + ".\r\n");
    assert x[|x| - 2] == x[|x| - 2..][0] && x[|x| - 1] == x[|x| - 2..][1];
    AtChars(all, |x|, END_OF_DATA);
  }

  // ---- Removing the stuffing ---------------------------------------------------------

  /** Sender and receiver agree on where lines begin, wherever a dot follows. */
  predicate Agrees(s: string, sent: bool, bol: bool, cr: bool) {
    if s == "" then true
    else
      (s[0] == '.' && sent ==> bol)
      && Agrees(s[1..], s[0] == '\n', cr && s[0] == '\n', s[0] == '\r')
  }

  lemma UnstuffEnd(t: string, bol: bool, cr: bool)
    requires t == "" || t == CRLF
    ensures Unstuff(Stuff("", false) + t, bol, cr) == t && Stuff("", true) == Stuff("", false)
  {
    NothingBefore(t);
    UnstuffCons('\r', "\n", bol, cr);
    UnstuffCons('\n', "", false, true);
    assert CRLF == ['\r'] + "\n" && "\n" == ['\n'] + "";
  }

  lemma UnstuffStep(s: string, sent: bool, bol: bool, cr: bool, t: string)
    requires s != "" && (bol ==> sent)
    ensures var dot := sent && s[0] == '.';
            var u := Stuff(s[1..], !dot && s[0] == '\n') + t;
            var r := Unstuff(u, !dot && cr && s[0] == '\n', !dot && s[0] == '\r');
            Unstuff(Stuff(s, sent) + t, bol, cr) == if dot && !bol then [s[0]] + ([s[0]] + r) else [s[0]] + r
  {
    hide Unstuff;
    var rest := Stuff(s[1..], !(sent && s[0] == '.') && s[0] == '\n');
    if sent && s[0] == '.' {
      assert Stuff(s, sent) == ".." + rest;
      UnstuffCons('.', "." + rest + t, bol, cr);
      UnstuffCons('.', rest + t, false, false);
      assert ".." + rest + t == ['.'] + ("." + rest + t);
      assert "." + rest + t == ['.'] + (rest + t);
    } else {
      UnstuffCons(s[0], rest + t, bol, cr);
      Assoc([s[0]], rest, t);
    }
  }

  lemma UnstuffCons(c: char, u: string, bol: bool, cr: bool)
    ensures Unstuff([c] + u, bol, cr) ==
              if bol && c == '.' then Unstuff(u, false, false)
              else [c] + Unstuff(u, cr && c == '\n', c == '\r')
  {
    assert ([c] + u)[1..] == u;
  }

  /** A dot at `i` stands after an LF that no CR precedes. */
  predicate BareLfDotAt(raw: string, i: int) {
    0 < i < |raw| && raw[i] == '.' && raw[i - 1] == '\n' && !(i >= 2 && raw[i - 2] == '\r')
  }

  lemma {:induction false} AgreesFrom(raw: string, i: nat)
    requires i <= |raw|
    ensures Agrees(raw[i..], i == 0 || raw[i - 1] == '\n',
                   i == 0 || (i >= 2 && raw[i - 1] == '\n' && raw[i - 2] == '\r'), i > 0 && raw[i - 1] == '\r')
            <==> forall k :: i <= k ==> !BareLfDotAt(raw, k)
    decreases |raw| - i
  {
    if i < |raw| {
      AgreesFrom(raw, i + 1);
      assert raw[i..][1..] == raw[i + 1..];
      assert BareLfDotAt(raw, i) <==> i > 0 && raw[i] == '.' && raw[i - 1] == '\n' && !(i >= 2 && raw[i - 2] == '\r');
    } else {
      assert raw[i..] == "";
    }
  }

  // ---- What the server gets ----------------------------------------------------------

  /** The message with a second dot after each bare LF that a dot follows. */
  function Redoubled(s: string, sent: bool, bol: bool, cr: bool): string {
    if s == "" then ""
    else
      (if s[0] == '.' && sent && !bol then ".." else [s[0]])
      + Redoubled(s[1..], s[0] == '\n', cr && s[0] == '\n', s[0] == '\r')
  }

  lemma RedoubledUnfold(s: string, sent: bool, bol: bool, cr: bool)
    ensures s == "" ==> Redoubled(s, sent, bol, cr) == ""
    ensures s != "" ==>
              Redoubled(s, sent, bol, cr)
              == (if s[0] == '.' && sent && !bol then ".." else [s[0]])
                 + Redoubled(s[1..], s[0] == '\n', cr && s[0] == '\n', s[0] == '\r')
  {
  }

  lemma {:induction false} UnstuffIsRedoubled(s: string, sent: bool, bol: bool, cr: bool, t: string)
    requires (bol ==> sent) && (t == "" || t == CRLF)
    ensures Unstuff(Stuff(s, sent) + t, bol, cr) == Redoubled(s, sent, bol, cr) + t
  {
    hide Unstuff, Stuff, Redoubled;
    RedoubledUnfold(s, sent, bol, cr);
    if s == "" {
      UnstuffEnd(t, bol, cr);
      NothingBefore(t);
    } else {
      var c, rest := s[0], s[1..];
      var more := Redoubled(rest, c == '\n', cr && c == '\n', c == '\r');
      UnstuffIsRedoubled(rest, c == '\n', cr && c == '\n', c == '\r', t);
      UnstuffStep(s, sent, bol, cr, t);
      if c == '.' && sent && !bol {
        assert [c] + ([c] + (more + t)) == ".." + more + t;
      } else {
        Assoc([c], more, t);
      }
    }
  }

  /** What the server gets of any message. */
  function Received(raw: string): string { Redoubled(raw, true, true, false) }

  lemma ReceivedIs(raw: string)
    ensures Receive(DotStuff(raw)) == Some(Received(raw) + Completion(raw))
  {
    hide Unstuff, Stuff, Stuffed, EndOfText, Redoubled;
    MarkerOnlyAtEnd(raw);
    DotStuffIs(raw);
    StuffedIsStuff(raw);
    UnstuffIsRedoubled(raw, true, true, false, Completion(raw));
    assert DotStuff(raw)[..|Sent(raw)|] == Sent(raw);
  }

  function Dots(s: string): nat {
    if s == "" then 0 else (if s[0] == '.' then 1 else 0) + Dots(s[1..])
  }

  lemma {:induction false} DotsConcat(a: string, b: string)
    ensures Dots(a + b) == Dots(a) + Dots(b)
  {
    if a == "" {
      NothingBefore(b);
    } else {
      assert (a + b)[1..] == a[1..] + b;
      DotsConcat(a[1..], b);
    }
  }

  lemma OneDot(c: char)
    ensures Dots([c]) == (if c == '.' then 1 else 0) && Dots("..") == 2 && Dots(CRLF) == 0
  {
    assert [c][1..] == "" && ".."[1..] == "." && "."[1..] == "" && CRLF[1..] == "\n" && "\n"[1..] == "";
  }

  /** It is the message itself, or has more dots. */
  lemma {:induction false} RedoubledExact(s: string, sent: bool, bol: bool, cr: bool)
    ensures Dots(Redoubled(s, sent, bol, cr)) >= Dots(s)
    ensures Agrees(s, sent, bol, cr) ==> Redoubled(s, sent, bol, cr) == s
    ensures !Agrees(s, sent, bol, cr) ==> Dots(Redoubled(s, sent, bol, cr)) > Dots(s)
  {
    if s != "" {
      var c := s[0];
      var more := Redoubled(s[1..], c == '\n', cr && c == '\n', c == '\r');
      RedoubledExact(s[1..], c == '\n', cr && c == '\n', c == '\r');
      OneDot(c);
      DotsConcat(if c == '.' && sent && !bol then ".." else [c], more);
      hide Redoubled, Dots;
      assert s == [c] + s[1..];
      DotsConcat([c], s[1..]);
    }
  }

  /** The message comes through unchanged, or with more dots. */
  lemma ReceivedExact(raw: string)
    ensures (forall k :: !BareLfDotAt(raw, k)) ==> Received(raw) == raw
    ensures !(forall k :: !BareLfDotAt(raw, k)) ==> Dots(Received(raw)) > Dots(raw)
  {
    hide Redoubled, Agrees, Dots;
    AgreesFrom(raw, 0);
    assert raw[0..] == raw;
    RedoubledExact(raw, true, true, false);
  }

  /** Text without dots is found in the same places. */
  lemma {:induction false} RedoubledStart(s: string, sent: bool, bol: bool, cr: bool, p: string)
    requires forall i :: 0 <= i < |p| ==> p[i] != '.'
    ensures StartsWith(Redoubled(s, sent, bol, cr), p) <==> StartsWith(s, p)
    decreases |p|
  {
    var x := Redoubled(s, sent, bol, cr);
    if p == "" {
      assert x[0..0] == "" && s[0..0] == "";
    } else if s != "" && s[0] != '.' {
      var more := Redoubled(s[1..], s[0] == '\n', cr && s[0] == '\n', s[0] == '\r');
      RedoubledStart(s[1..], s[0] == '\n', cr && s[0] == '\n', s[0] == '\r', p[1..]);
      hide Redoubled;
      StartTail(s, p);
      StartTail(x, p);
      assert x[1..] == more;
    } else {
      StartTail(s, p);
      StartTail(x, p);
    }
  }

  lemma StartTail(s: string, p: string)
    requires p != ""
    ensures StartsWith(s, p) <==> s != "" && s[0] == p[0] && StartsWith(s[1..], p[1..])
  {
    if |p| <= |s| {
      assert s[0..|p|] == [s[0]] + s[1..][0..|p| - 1];
      assert p == [p[0]] + p[1..];
    }
  }

  lemma ReceivedEnds(raw: string)
    ensures EndsInCrlf(Received(raw)) <==> EndsInCrlf(raw)
  {
    hide Redoubled, EndsInCrlf;
    RedoubledEnd(raw, true, true, false);
    LastTwo(raw);
    LastTwo(Received(raw));
  }

  lemma {:induction false} RedoubledEnd(s: string, sent: bool, bol: bool, cr: bool)
    ensures var x := Redoubled(s, sent, bol, cr);
            && |x| >= |s| && (s == "" ==> x == "") && (s != "" ==> x[|x| - 1] == s[|s| - 1])
            && (|s| >= 2 && s[|s| - 1] == '\n' ==> x[|x| - 2] == s[|s| - 2]) && (|s| == 1 && s[0] == '\n' ==> |x| == 1)
  {
    if s != "" {
      RedoubledEnd(s[1..], s[0] == '\n', cr && s[0] == '\n', s[0] == '\r');
    }
  }

  /** The server gets the message back, completed by a CRLF if it did not end in one, exactly when no dot
      follows a bare LF. */
  lemma TransparencyExact(raw: string)
    ensures Receive(DotStuff(raw)) == Some(raw + Completion(raw)) <==> forall k :: !BareLfDotAt(raw, k)
    ensures Receive(DotStuff(raw)).Some?
  {
    hide Receive, DotStuff, Received, Dots;
    ReceivedIs(raw);
    ReceivedExact(raw);
    if Received(raw) + Completion(raw) == raw + Completion(raw) {
      assert Received(raw) == (raw + Completion(raw))[..|Received(raw)|];
    }
  }

  /** The dot of such a message comes twice. */
  lemma BareLfDotIsDoubled()
    ensures Receive(DotStuff("a\n.b")) == Some("a\n..b" + CRLF)
  {
    hide Receive, DotStuff;
    var s := "a\n.b";
    ReceivedIs(s);
    assert s[1..] == "\n.b" && s[1..][1..] == ".b" && s[1..][1..][1..] == "b" && s[1..][1..][1..][1..] == "";
    assert Redoubled("b", false, false, false) == "b";
    assert Redoubled(".b", true, false, false) == "..b";
    assert Redoubled("\n.b", false, false, false) == "\n..b";
    assert Received(s) == "a\n..b";
    LastTwo(s);
  }
}
