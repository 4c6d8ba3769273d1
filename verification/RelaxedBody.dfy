/** What the relaxed canonical form of a body is, line by line and word by word (src/core/Dkim.ts; RFC 6376,
    section 3.4.4). */
module RelaxedBody {
  import opened Text
  import opened Dkim

  // ---- Bodies as they are written ----------------------------------------------------

  /** A line: blanks, then words with the blanks that follow each of them, then the line break. */
  datatype Row = Row(lead: string, words: seq<string>, gaps: seq<string>, ending: string)

  function Spread(words: seq<string>, gaps: seq<string>): string
    requires |words| == |gaps|
  {
    if words == [] then "" else words[0] + gaps[0] + Spread(words[1..], gaps[1..])
  }

  predicate Blanks(s: string) { forall i :: 0 <= i < |s| ==> s[i] == ' ' || s[i] == '\t' }

  predicate Word(s: string) {
    s != "" && forall i :: 0 <= i < |s| ==> s[i] !in " \t\r\n"
  }

  /** Only the last word of a line may have no blanks after it. */
  predicate WellSpaced(words: seq<string>, gaps: seq<string>) {
    && |words| == |gaps|
    && (forall i :: 0 <= i < |words| ==> Word(words[i]) && Blanks(gaps[i]))
    && (forall i :: 0 <= i < |words| - 1 ==> gaps[i] != "")
  }

  predicate Spaced(r: Row) {
    Blanks(r.lead) && WellSpaced(r.words, r.gaps)
  }

  function LineText(r: Row): string
    requires Spaced(r)
  {
    r.lead + Spread(r.words, r.gaps)
  }

  /** Every line but the last ends in CRLF, CR or LF, where CR and LF in a row are always CRLF. */
  predicate WellBroken(rows: seq<Row>) {
    && rows != []
    && (forall i :: 0 <= i < |rows| - 1 ==> rows[i].ending in {"\r\n", "\r", "\n"})
    && rows[|rows| - 1].ending == ""
    && (forall i :: 0 <= i < |rows| - 1 ==> !(rows[i].ending == "\r" && rows[i + 1] == Row("", [], [], "\n")))
  }

  predicate Proper(rows: seq<Row>) {
    WellBroken(rows) && forall i :: 0 <= i < |rows| ==> Spaced(rows[i])
  }

  function Raw(rows: seq<Row>): string
    requires forall i :: 0 <= i < |rows| ==> Spaced(rows[i])
  {
    if rows == [] then "" else LineText(rows[0]) + (rows[0].ending + Raw(rows[1..]))
  }

  /** The words of a line with one space between them, and one before them if the line began with blanks. */
  function Shown(r: Row): string {
    (if r.lead != "" && r.words != [] then " " else "") + Join(r.words, " ")
  }

  function ShownLines(rows: seq<Row>): string {
    if rows == [] then "" else Shown(rows[0]) + (CRLF + ShownLines(rows[1..]))
  }

  /** The number of lines up to the last one that has a word. */
  predicate Ends(rows: seq<Row>, n: nat) {
    && n <= |rows| && (n > 0 ==> rows[n - 1].words != [])
    && forall i :: n <= i < |rows| ==> rows[i].words == []
  }

  // ---- One line ----------------------------------------------------------------------

  lemma {:induction false} RunIs(b: string, rest: string)
    requires Blanks(b) && (rest != "" ==> !IsWsp(rest[0]))
    ensures WspRun(b + rest) == |b|
  {
    if b == "" {
      NothingBefore(rest);
    } else {
      assert (b + rest)[1..] == b[1..] + rest;
      RunIs(b[1..], rest);
    }
  }

  lemma ReduceBlanks(b: string, rest: string)
    requires Blanks(b) && (rest != "" ==> !IsWsp(rest[0]))
    ensures ReduceWsp(b + rest) == (if b == "" then "" else " ") + ReduceWsp(rest)
  {
    hide WspRun;
    RunIs(b, rest);
    if b == "" {
      NothingBefore(rest);
      NothingBefore(ReduceWsp(rest));
    } else {
      assert (b + rest)[|b|..] == rest;
    }
  }

  lemma {:induction false} ReduceWord(w: string, rest: string)
    requires forall i :: 0 <= i < |w| ==> !IsWsp(w[i])
    ensures ReduceWsp(w + rest) == w + ReduceWsp(rest)
  {
    if w == "" {
      NothingBefore(rest);
      NothingBefore(ReduceWsp(rest));
    } else {
      assert (w + rest)[1..] == w[1..] + rest;
      ReduceWord(w[1..], rest);
      Assoc([w[0]], w[1..], ReduceWsp(rest));
      assert [w[0]] + w[1..] == w;
    }
  }

  /** Runs of blanks become single spaces. */
  lemma {:induction false} ReduceSpread(words: seq<string>, gaps: seq<string>)
    requires WellSpaced(words, gaps) && words != []
    ensures ReduceWsp(Spread(words, gaps)) == Join(words, " ") + if gaps[|gaps| - 1] == "" then "" else " "
    ensures Spread(words, gaps) != "" && !IsWsp(Spread(words, gaps)[0])
    decreases |words|
  {
    hide ReduceWsp;
    var w, g, more := words[0], gaps[0], Spread(words[1..], gaps[1..]);
    assert Word(w);
    Assoc(w, g, more);
    ReduceWord(w, g + more);
    if |words| == 1 {
      ReduceBlanks(g, more);
      ReduceNothing();
    } else {
      Later(words, gaps);
      ReduceSpread(words[1..], gaps[1..]);
      ReduceBlanks(g, more);
      var tail := if gaps[|gaps| - 1] == "" then "" else " ";
      assert gaps[1..][|gaps| - 2] == gaps[|gaps| - 1];
      assert w + (" " + (Join(words[1..], " ") + tail)) == w + " " + Join(words[1..], " ") + tail;
    }
  }

  lemma ReduceNothing()
    ensures ReduceWsp("") == ""
  {
  }

  lemma Later(words: seq<string>, gaps: seq<string>)
    requires WellSpaced(words, gaps) && words != []
    ensures WellSpaced(words[1..], gaps[1..])
  {
    forall i | 0 <= i < |words| - 1 ensures words[1..][i] == words[i + 1] && gaps[1..][i] == gaps[i + 1] {}
  }

  lemma {:induction false} WordsEnd(words: seq<string>)
    requires words != [] && forall i :: 0 <= i < |words| ==> Word(words[i])
    ensures var t := Join(words, " "); t != "" && !IsWsp(t[0]) && !IsWsp(t[|t| - 1])
    decreases |words|
  {
    assert Word(words[0]);
    if |words| > 1 {
      assert forall i :: 0 <= i < |words| - 1 ==> words[1..][i] == words[i + 1];
      WordsEnd(words[1..]);
    }
  }

  lemma DropOne(x: string, blank: string)
    requires (x != "" ==> !IsWsp(x[|x| - 1])) && (blank == "" || blank == " ")
    ensures DropTrailingWsp(x + blank) == x
  {
    if blank == "" {
      NothingBefore(x);
    } else {
      assert (x + blank)[..|x|] == x;
    }
  }

  /** Every run of blanks becomes one space, and none is left at the end. */
  lemma CanonLineIs(r: Row)
    requires Spaced(r)
    ensures CanonLine(LineText(r)) == Shown(r)
    ensures Shown(r) == "" <==> r.words == []
  {
    hide ReduceWsp, DropTrailingWsp;
    var head := if r.lead == "" then "" else " ";
    if r.words == [] {
      ReduceBlanks(r.lead, "");
      ReduceNothing();
      NothingBefore(head);
      NothingBefore(r.lead);
      DropOne("", head);
    } else {
      var tail := if r.gaps[|r.gaps| - 1] == "" then "" else " ";
      var text := Join(r.words, " ");
      ReduceSpread(r.words, r.gaps);
      ReduceBlanks(r.lead, Spread(r.words, r.gaps));
      WordsEnd(r.words);
      Assoc(head, text, tail);
      DropOne(head + text, tail);
    }
  }

  // ---- The lines of a body -----------------------------------------------------------

  function LineTexts(rows: seq<Row>): (ls: seq<string>)
    requires forall i :: 0 <= i < |rows| ==> Spaced(rows[i])
    ensures |ls| == |rows|
  {
    if rows == [] then [] else [LineText(rows[0])] + LineTexts(rows[1..])
  }

  function AllShown(rows: seq<Row>): (ls: seq<string>)
    ensures |ls| == |rows| && forall i :: 0 <= i < |ls| ==> ls[i] == Shown(rows[i])
  {
    if rows == [] then [] else [Shown(rows[0])] + AllShown(rows[1..])
  }

  lemma {:induction false} SpreadUnbroken(words: seq<string>, gaps: seq<string>)
    requires WellSpaced(words, gaps)
    ensures NoBreak(Spread(words, gaps))
    decreases |words|
  {
    if words != [] {
      Later(words, gaps);
      SpreadUnbroken(words[1..], gaps[1..]);
      assert Word(words[0]) && Blanks(gaps[0]);
    }
  }

  lemma LineUnbroken(r: Row)
    requires Spaced(r)
    ensures NoBreak(LineText(r))
  {
    SpreadUnbroken(r.words, r.gaps);
  }

  lemma BreakIs(ending: string, rest: string)
    requires ending in {"\r\n", "\r", "\n"} && !(ending == "\r" && rest != "" && rest[0] == '\n')
    ensures Normalize(ending + rest) == CRLF + Normalize(rest)
  {
    assert (ending + rest)[|ending|..] == rest;
  }

  lemma NoLfAfterCr(rows: seq<Row>)
    requires Proper(rows) && |rows| > 1 && rows[0].ending == "\r"
    ensures var rest := Raw(rows[1..]); !(rest != "" && rest[0] == '\n')
  {
    hide Spaced, LineText, NoBreak;
    var r, rest := rows[1], Raw(rows[1..]);
    assert r == rows[1..][0] && rows[1..][1..] == rows[2..];
    assert Spaced(r);
    StartsPlain(r);
    if LineText(r) == "" && |rows| > 2 {
      assert r.ending in {"\r\n", "\r", "\n"};
    }
  }

  lemma StartsPlain(r: Row)
    requires Spaced(r)
    ensures LineText(r) == "" ==> r == Row("", [], [], r.ending)
    ensures LineText(r) != "" ==> LineText(r)[0] != '\n'
  {
    LineUnbroken(r);
    if r.words != [] { assert Word(r.words[0]); }
  }

  lemma ProperRest(rows: seq<Row>)
    requires Proper(rows) && |rows| > 1
    ensures Proper(rows[1..])
  {
    var more := rows[1..];
    assert forall i :: 0 <= i < |more| ==> more[i] == rows[i + 1];
  }

  /** The body is cut at its line breaks, of whatever kind. */
  lemma {:induction false} LinesOf(rows: seq<Row>)
    requires Proper(rows)
    ensures SplitCrlf(Normalize(Raw(rows)), "") == LineTexts(rows)
    decreases |rows|
  {
    hide LineText, Normalize, SplitCrlf, Spaced, NoBreak;
    assert Spaced(rows[0]);
    var line, rest := LineText(rows[0]), Raw(rows[1..]);
    LineUnbroken(rows[0]);
    SplitAfterLine(line, rows[0].ending + rest, "");
    NothingBefore(line);
    AtBreak("", line);
    if |rows| == 1 {
      assert "" + rest == "";
      SplitAfterLine(line, "", "");
    } else {
      ProperRest(rows);
      if rows[0].ending == "\r" { NoLfAfterCr(rows); }
      BreakIs(rows[0].ending, rest);
      SplitAfterLine(line, CRLF + Normalize(rest), "");
      AtBreak(Normalize(rest), line);
      LinesOf(rows[1..]);
    }
  }

  lemma {:induction false} CanonLinesAre(rows: seq<Row>)
    requires forall i :: 0 <= i < |rows| ==> Spaced(rows[i])
    ensures CanonLines(LineTexts(rows)) == AllShown(rows)
    decreases |rows|
  {
    hide LineText, CanonLine, Shown;
    if rows != [] {
      CanonLineIs(rows[0]);
      CanonLinesAre(rows[1..]);
      assert LineTexts(rows)[1..] == LineTexts(rows[1..]);
    }
  }

  lemma {:induction false} WordlessDropped(rows: seq<Row>, n: nat)
    requires Ends(rows, n) && forall i :: 0 <= i < |rows| ==> Spaced(rows[i])
    ensures DropEmpty(AllShown(rows)) == AllShown(rows[..n])
    decreases |rows|
  {
    hide Shown, Spaced;
    var ls := AllShown(rows);
    if n < |rows| {
      var most := rows[..|rows| - 1];
      CanonLineIs(rows[|rows| - 1]);
      assert ls[..|rows| - 1] == AllShown(most);
      assert most[..n] == rows[..n];
      WordlessDropped(most, n);
    } else {
      assert rows[..n] == rows;
      if n > 0 { CanonLineIs(rows[n - 1]); }
    }
  }

  lemma {:induction false} JoinShown(rows: seq<Row>)
    ensures Join(AllShown(rows) + [""], CRLF) == ShownLines(rows)
    decreases |rows|
  {
    hide Shown;
    var ls := AllShown(rows) + [""];
    if rows == [] {
      JoinOne("", CRLF);
    } else {
      assert ls[1..] == AllShown(rows[1..]) + [""];
      JoinShown(rows[1..]);
      Assoc(Shown(rows[0]), CRLF, ShownLines(rows[1..]));
    }
  }

  lemma CountFits(rows: seq<Row>, n: nat)
    requires Ends(rows, n)
    ensures n <= |rows|
  {
  }

  /** The canonical form of a body: its lines up to the last one that has a word, each with its words single
      spaced and ended by CRLF. */
  lemma CanonicalIs(rows: seq<Row>, n: nat)
    requires Proper(rows) && Ends(rows, n)
    ensures Canonical(Raw(rows)) == ShownLines(rows[..n])
  {
    hide Normalize, SplitCrlf, CanonLines, DropEmpty, Join, Raw, Spaced, Ends, LineTexts, AllShown, ShownLines;
    CountFits(rows, n);
    LinesOf(rows);
    CanonLinesAre(rows);
    WordlessDropped(rows, n);
    JoinShown(rows[..n]);
  }

  // ---- Every body is written so ------------------------------------------------------

  /** The line with one more character before it. */
  function Before(c: char, r: Row): Row {
    if IsWsp(c) then r.(lead := [c] + r.lead)
    else if r.lead == "" && r.words != [] then r.(words := [[c] + r.words[0]] + r.words[1..])
    else Row("", [[c]] + r.words, [r.lead] + r.gaps, r.ending)
  }

  lemma WspIs(c: char)
    ensures IsWsp(c) <==> c == ' ' || c == '\t'
  {
  }

  lemma BeforeSpaced(c: char, r: Row)
    requires Spaced(r) && c != '\r' && c != '\n'
    ensures Spaced(Before(c, r)) && LineText(Before(c, r)) == [c] + LineText(r)
    ensures Before(c, r).ending == r.ending && Before(c, r) != Row("", [], [], "\n")
  {
    hide IsWsp;
    var b := Before(c, r);
    WspIs(c);
    if IsWsp(c) {
      assert [c] + r.lead + Spread(r.words, r.gaps) == [c] + (r.lead + Spread(r.words, r.gaps));
    } else if r.lead == "" && r.words != [] {
      assert Word(r.words[0]);
      assert b.words[1..] == r.words[1..];
      var more := Spread(r.words[1..], r.gaps[1..]);
      assert [c] + r.words[0] + r.gaps[0] + more == [c] + (r.words[0] + r.gaps[0] + more);
    } else {
      assert b.words[1..] == r.words && b.gaps[1..] == r.gaps;
      assert [c] + r.lead + Spread(r.words, r.gaps) == [c] + (r.lead + Spread(r.words, r.gaps));
      assert Word([c]);
      forall i | 0 <= i < |b.words| - 1 ensures b.gaps[i] != "" {
        if i > 0 { assert b.gaps[i] == r.gaps[i - 1]; }
      }
    }
  }

  lemma {:induction false} EveryBody(body: string) returns (rows: seq<Row>)
    ensures Proper(rows) && Raw(rows) == body
    decreases |body|
  {
    hide Spread, LineText, WellSpaced;
    if body == "" {
      rows := [Row("", [], [], "")];
      NothingSpaced("");
    } else if AnyBreak(body) > 0 {
      var n := AnyBreak(body);
      var more := EveryBody(body[n..]);
      var r := Row("", [], [], body[..n]);
      NothingSpaced(body[..n]);
      rows := [r] + more;
      assert rows[1..] == more;
      assert body[..n] + body[n..] == body;
      NothingSpaced("\n");
      assert more[0] == Row("", [], [], "\n") ==> Raw(more)[0] == '\n';
      assert body[..n] in {"\r\n", "\r", "\n"} by { BreakText(body); }
    } else {
      var more := EveryBody(body[1..]);
      assert Spaced(more[0]);
      BeforeSpaced(body[0], more[0]);
      rows := [Before(body[0], more[0])] + more[1..];
      assert rows[1..] == more[1..];
      assert body == [body[0]] + Raw(more);
      Assoc([body[0]], LineText(more[0]), more[0].ending + Raw(more[1..]));
    }
  }

  lemma NothingSpaced(ending: string)
    ensures Spaced(Row("", [], [], ending)) && LineText(Row("", [], [], ending)) == ""
  {
  }

  lemma BreakText(body: string)
    requires AnyBreak(body) > 0
    ensures body[..AnyBreak(body)] in {"\r\n", "\r", "\n"}
  {
    var n := AnyBreak(body);
    if n == 2 {
      assert body[..2] == "\r\n";
    } else {
      assert body[..1] == [body[0]];
    }
  }

  // ---- When two bodies have the same canonical form ----------------------------------

  /** The same words in the same lines, and blanks before them in the same lines. */
  predicate SameWords(a: seq<Row>, n: nat, b: seq<Row>, m: nat)
    requires n <= |a| && m <= |b|
  {
    n == m && forall i :: 0 <= i < n ==>
      a[i].words == b[i].words && (a[i].words != [] ==> (a[i].lead == "" <==> b[i].lead == ""))
  }

  function FirstSpace(s: string): nat {
    if s == "" || s[0] == ' ' then 0 else 1 + FirstSpace(s[1..])
  }

  lemma {:induction false} FirstSpaceIs(x: string, s: string)
    requires (forall i :: 0 <= i < |x| ==> x[i] != ' ') && (s != "" ==> s[0] == ' ')
    ensures FirstSpace(x + s) == |x|
  {
    if x == "" {
      NothingBefore(s);
    } else {
      assert (x + s)[1..] == x[1..] + s;
      FirstSpaceIs(x[1..], s);
    }
  }

  lemma FirstWord(x: string, y: string, s: string, t: string)
    requires x + s == y + t
    requires (forall i :: 0 <= i < |x| ==> x[i] != ' ') && (forall i :: 0 <= i < |y| ==> y[i] != ' ')
    requires (s != "" ==> s[0] == ' ') && (t != "" ==> t[0] == ' ')
    ensures x == y && s == t
  {
    FirstSpaceIs(x, s);
    FirstSpaceIs(y, t);
    assert x == (x + s)[..|x|] && y == (y + t)[..|y|];
    assert s == (x + s)[|x|..] && t == (y + t)[|y|..];
  }

  function MoreWords(words: seq<string>): string
    requires words != []
  {
    if |words| == 1 then "" else " " + Join(words[1..], " ")
  }

  lemma JoinFirst(words: seq<string>)
    requires words != []
    ensures Join(words, " ") == words[0] + MoreWords(words)
  {
    NothingBefore(words[0]);
    if |words| > 1 { Assoc(words[0], " ", Join(words[1..], " ")); }
  }

  lemma {:induction false} WordsKnown(a: seq<string>, b: seq<string>)
    requires forall i :: 0 <= i < |a| ==> Word(a[i])
    requires forall i :: 0 <= i < |b| ==> Word(b[i])
    requires Join(a, " ") == Join(b, " ")
    ensures a == b
    decreases |a|
  {
    hide Join, Word;
    if a != [] { WordsEnd(a); }
    if b != [] { WordsEnd(b); }
    JoinNothing();
    if a != [] && b != [] {
      JoinFirst(a);
      JoinFirst(b);
      WordPlain(a[0]);
      WordPlain(b[0]);
      FirstWord(a[0], b[0], MoreWords(a), MoreWords(b));
      assert a == [a[0]] + a[1..] && b == [b[0]] + b[1..];
      assert forall i :: 0 <= i < |a| - 1 ==> a[1..][i] == a[i + 1];
      assert forall i :: 0 <= i < |b| - 1 ==> b[1..][i] == b[i + 1];
      if |a| > 1 && |b| > 1 {
        assert MoreWords(a)[1..] == Join(a[1..], " ") && MoreWords(b)[1..] == Join(b[1..], " ");
        WordsKnown(a[1..], b[1..]);
      }
    }
  }

  lemma WordPlain(w: string)
    requires Word(w)
    ensures forall i :: 0 <= i < |w| ==> w[i] != ' '
  {
  }

  lemma JoinNothing()
    ensures Join([], " ") == ""
  {
  }

  lemma ShownKnown(a: Row, b: Row)
    requires Spaced(a) && Spaced(b)
    ensures Shown(a) == Shown(b) <==> a.words == b.words && (a.words != [] ==> (a.lead == "" <==> b.lead == ""))
  {
    hide Join;
    CanonLineIs(a);
    CanonLineIs(b);
    if Shown(a) == Shown(b) && a.words != [] {
      WordsEnd(a.words);
      WordsEnd(b.words);
      assert Word(a.words[0]) && Word(b.words[0]);
      assert a.lead == "" <==> Shown(a)[0] != ' ';
      assert b.lead == "" <==> Shown(b)[0] != ' ';
      var k := if a.lead == "" then 0 else 1;
      assert Join(a.words, " ") == Shown(a)[k..] && Join(b.words, " ") == Shown(b)[k..];
      WordsKnown(a.words, b.words);
    }
  }

  lemma ShownUnbroken(r: Row)
    requires Spaced(r)
    ensures NoBreak(Shown(r))
  {
    hide Shown, LineText, CanonLine;
    CanonLineIs(r);
    LineUnbroken(r);
    CanonLineShape(LineText(r));
  }

  /** The lines of a canonical form can be told from it. */
  lemma ShownLinesKnown(a: seq<Row>, b: seq<Row>)
    requires forall i :: 0 <= i < |a| ==> Spaced(a[i])
    requires forall i :: 0 <= i < |b| ==> Spaced(b[i])
    ensures ShownLines(a) == ShownLines(b) <==> AllShown(a) == AllShown(b)
  {
    hide Shown, Spaced, NoBreak;
    JoinShown(a);
    JoinShown(b);
    var x, y := AllShown(a) + [""], AllShown(b) + [""];
    if ShownLines(a) == ShownLines(b) {
      NoBreakNothing();
      forall i | 0 <= i < |a| ensures NoBreak(x[i]) { ShownUnbroken(a[i]); }
      forall i | 0 <= i < |b| ensures NoBreak(y[i]) { ShownUnbroken(b[i]); }
      SplitJoined(x);
      SplitJoined(y);
      assert x[..|a|] == AllShown(a) && y[..|b|] == AllShown(b);
    }
  }

  /** Two bodies have the same canonical form exactly when they have the same words in the same lines, and
      the same lines begin with blanks, up to the last line that has a word. */
  lemma SameCanonical(a: seq<Row>, n: nat, b: seq<Row>, m: nat)
    requires Proper(a) && Ends(a, n) && Proper(b) && Ends(b, m)
    ensures Canonical(Raw(a)) == Canonical(Raw(b)) <==> SameWords(a, n, b, m)
  {
    hide Canonical, Raw, ShownLines, Shown, Spaced, WellBroken;
    CanonicalIs(a, n);
    CanonicalIs(b, m);
    var x, y := a[..n], b[..m];
    ShownLinesKnown(x, y);
    forall i | 0 <= i < n && i < m
      ensures Shown(a[i]) == Shown(b[i])
              <==> a[i].words == b[i].words && (a[i].words != [] ==> (a[i].lead == "" <==> b[i].lead == ""))
    {
      ShownKnown(a[i], b[i]);
    }
  }
}
