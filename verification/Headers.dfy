/** Header lines: folding (src/core/Headers.ts), serialising (src/core/Message.ts) and reading them back
    (the MimeHeaders class of src/core/MimeParser.ts). */
module Headers {
  import opened Text
  import opened Params

  datatype Header = Header(name: string, value: string)

  // ---- Folding -----------------------------------------------------------------------

  function SpaceRun(s: string): (n: nat)
    ensures n <= |s|
    ensures s != "" && s[0] == ' ' ==> n > 0
  {
    if s != "" && s[0] == ' ' then 1 + SpaceRun(s[1..]) else 0
  }

  /** The words between runs of spaces; `cur` has been read of the first one. */
  function Words(s: string, cur: string): (ws: seq<string>)
    ensures ws != []
    decreases |s|
  {
    if s == "" then [cur]
    else if s[0] == ' ' then [cur] + Words(s[SpaceRun(s)..], "")
    else Words(s[1..], cur + [s[0]])
  }

  const FOLD := "\r\n "

  /** A fold is a line break and a space. */
  lemma FoldIs(w: string, rest: string)
    ensures FOLD + w + rest == CRLF + (" " + w + rest)
  {
    assert FOLD == CRLF + " ";
    Assoc(CRLF, " ", w);
    Assoc(CRLF, " " + w, rest);
  }

  predicate Wraps(col: nat, word: string) { col + 1 + |word| > 78 }

  /** The words after the first one, each after a space or a fold. */
  function FoldRest(words: seq<string>, col: nat): string
    decreases |words|
  {
    if words == [] then ""
    else
      var w := words[0];
      if Wraps(col, w) then FOLD + w + FoldRest(words[1..], 1 + |w|)
      else " " + w + FoldRest(words[1..], col + 1 + |w|)
  }

  function FoldHeader(h: Header): string {
    var first := h.name + ": ";
    if |first| + |h.value| <= 78 then first + h.value
    else
      var ws := Words(h.value, "");
      first + ws[0] + FoldRest(ws[1..], |first| + |ws[0]|)
  }

  lemma FoldRestUnfold(words: seq<string>, col: nat)
    ensures words == [] ==> FoldRest(words, col) == ""
    ensures words != [] ==>
              FoldRest(words, col) ==
                if Wraps(col, words[0]) then FOLD + words[0] + FoldRest(words[1..], 1 + |words[0]|)
                else " " + words[0] + FoldRest(words[1..], col + 1 + |words[0]|)
  {
  }

  /** What is still to come before word `i`: the first word has nothing before it. */
  function Left(words: seq<string>, i: nat, col: nat): string
    requires i <= |words|
  {
    if i == 0 && words != [] then words[0] + FoldRest(words[1..], col + |words[0]|) else FoldRest(words[i..], col)
  }

  function Separator(i: nat, col: nat, word: string): string {
    if i == 0 then "" else if Wraps(col, word) then FOLD else " "
  }

  function ColumnAfter(i: nat, col: nat, word: string): nat {
    (if i == 0 then col else if Wraps(col, word) then 1 else col + 1) + |word|
  }

  /** One more word. */
  lemma LeftStep(words: seq<string>, i: nat, col: nat, out: string)
    requires i < |words|
    ensures out + Left(words, i, col)
            == out + Separator(i, col, words[i]) + words[i] + Left(words, i + 1, ColumnAfter(i, col, words[i]))
  {
    hide Wraps, FoldRest;
    var rest, w := words[i..], words[i];
    assert rest[0] == w && rest[1..] == words[i + 1..];
    FoldRestUnfold(rest, col);
    AfterSeparator(out, Separator(i, col, w), w, FoldRest(rest[1..], ColumnAfter(i, col, w)));
    NothingBefore(w);
  }

  /** With `out` written and word `i` next, the header comes out. */
  predicate OnTrack(h: Header, out: string, words: seq<string>, i: nat, col: nat) {
    i <= |words| && FoldHeader(h) == out + Left(words, i, col)
  }

  lemma TrackStep(h: Header, out: string, words: seq<string>, i: nat, col: nat)
    requires OnTrack(h, out, words, i, col) && i < |words|
    ensures OnTrack(h, out + Separator(i, col, words[i]) + words[i], words, i + 1, ColumnAfter(i, col, words[i]))
  {
    hide FoldHeader, Left, Separator, ColumnAfter;
    LeftStep(words, i, col, out);
  }

  lemma TrackEnds(h: Header, out: string, words: seq<string>, col: nat)
    requires OnTrack(h, out, words, |words|, col) && words != []
    ensures out == FoldHeader(h)
  {
    hide FoldHeader;
    assert words[|words|..] == [];
    NothingBefore(out);
  }

  lemma StepIs(i: nat, col: nat, word: string)
    ensures Separator(i, col, word) == if i == 0 then "" else if col + 1 + |word| > 78 then FOLD else " "
    ensures ColumnAfter(i, col, word) == (if i == 0 then col else if col + 1 + |word| > 78 then 1 else col + 1) + |word|
  {
  }

  lemma AfterSeparator(out: string, sep: string, tok: string, rest: string)
    ensures out + (sep + tok + rest) == out + sep + tok + rest
  {
    Assoc(out, sep + tok, rest);
    Assoc(out, sep, tok);
  }

  lemma TrackBegins(h: Header)
    ensures var first, words := h.name + ": ", Words(h.value, "");
            if |first| + |h.value| <= 78 then FoldHeader(h) == first + h.value else OnTrack(h, first, words, 0, |first|)
  {
    hide Words, FoldRest;
    var first, words := h.name + ": ", Words(h.value, "");
    Assoc(first, words[0], FoldRest(words[1..], |first| + |words[0]|));
  }

  method Fold(h: Header) returns (out: string)
    ensures out == FoldHeader(h)
  {
    hide Words, FoldHeader, OnTrack, Separator, ColumnAfter;
    TrackBegins(h);
    var first := h.name + ": ";
    if |first| + |h.value| <= 78 { return first + h.value; }
    var words := Words(h.value, "");
    out := first;
    var col: nat := |first|;
    for i := 0 to |words|
      invariant OnTrack(h, out, words, i, col)
    {
      var tok := words[i];
      TrackStep(h, out, words, i, col);
      StepIs(i, col, tok);
      NothingBefore(out);
      if i > 0 {
        if col + 1 + |tok| > 78 {
          out := out + FOLD;
          col := 1;
        } else {
          out := out + " ";
          col := col + 1;
        }
      }
      out := out + tok;
      col := col + |tok|;
    }
    TrackEnds(h, out, words, col);
  }

  /** Line breaks before a space or a tab are removed. */
  function Unfold(s: string): string
    decreases |s|
  {
    if s == "" then ""
    else
      var n := Break(s);
      if n > 0 && n < |s| && (s[n] == ' ' || s[n] == '\t') then Unfold(s[n..])
      else [s[0]] + Unfold(s[1..])
  }

  /** Every run of spaces becomes one space. */
  function Collapse(s: string): string
    decreases |s|
  {
    if s == "" then ""
    else if s[0] == ' ' then " " + Collapse(s[SpaceRun(s)..])
    else [s[0]] + Collapse(s[1..])
  }

  function SpaceJoin(words: seq<string>): string {
    if words == [] then "" else " " + words[0] + SpaceJoin(words[1..])
  }

  lemma {:induction false} WordsJoin(s: string, cur: string)
    ensures var ws := Words(s, cur); ws[0] + SpaceJoin(ws[1..]) == cur + Collapse(s)
    decreases |s|
  {
    if s == "" {
    } else if s[0] == ' ' {
      var rest := s[SpaceRun(s)..];
      WordsJoin(rest, "");
      var ws := Words(rest, "");
      assert Words(s, cur)[1..] == ws;
      assert " " + ws[0] + SpaceJoin(ws[1..]) == " " + (ws[0] + SpaceJoin(ws[1..]));
      assert "" + Collapse(rest) == Collapse(rest);
    } else {
      WordsJoin(s[1..], cur + [s[0]]);
      assert cur + [s[0]] + Collapse(s[1..]) == cur + ([s[0]] + Collapse(s[1..]));
    }
  }

  lemma StartsTwoSpaces(s: string)
    ensures StartsWith(s, "  ") <==> |s| >= 2 && s[0] == ' ' && s[1] == ' '
  {
    if |s| >= 2 {
      assert s[0..2] == [s[0], s[1]];
    }
  }

  lemma {:induction false} CollapseExact(s: string)
    ensures |Collapse(s)| <= |s|
    ensures Contains(s, "  ") ==> |Collapse(s)| < |s|
    ensures !Contains(s, "  ") ==> Collapse(s) == s
    decreases |s|
  {
    if s == "" {
      assert !Contains(s, "  ");
    } else {
      ContainsTail(s, "  ");
      StartsTwoSpaces(s);
      if s[0] == ' ' {
        var n := SpaceRun(s);
        CollapseExact(s[n..]);
        if !StartsWith(s, "  ") {
          assert s[1..] == "" || s[1..][0] != ' ';
          assert SpaceRun(s[1..]) == 0;
          assert " " + s[1..] == s;
        }
      } else {
        CollapseExact(s[1..]);
      }
    }
  }

  lemma {:induction false} UnfoldAfterLine(x: string, rest: string)
    requires OneLine(x)
    ensures Unfold(x + rest) == x + Unfold(rest)
  {
    if x == "" {
      assert x + rest == rest;
    } else {
      assert (x + rest)[1..] == x[1..] + rest;
      UnfoldAfterLine(x[1..], rest);
      assert [x[0]] + (x[1..] + Unfold(rest)) == x + Unfold(rest);
    }
  }

  lemma UnfoldFold(rest: string)
    ensures Unfold(FOLD + rest) == " " + Unfold(rest)
  {
    var s := FOLD + rest;
    assert s[2..] == " " + rest;
    UnfoldAfterLine(" ", rest);
  }

  predicate WordsOneLine(words: seq<string>) { forall i :: 0 <= i < |words| ==> OneLine(words[i]) }

  lemma {:induction false} WordsAreLines(s: string, cur: string)
    requires OneLine(s) && OneLine(cur)
    ensures WordsOneLine(Words(s, cur))
    decreases |s|
  {
    if s != "" {
      if s[0] == ' ' {
        WordsAreLines(s[SpaceRun(s)..], "");
      } else {
        WordsAreLines(s[1..], cur + [s[0]]);
      }
    }
  }

  lemma {:induction false} UnfoldRest(words: seq<string>, col: nat, rest: string)
    requires WordsOneLine(words)
    ensures Unfold(FoldRest(words, col) + rest) == SpaceJoin(words) + Unfold(rest)
    decreases |words|
  {
    hide Unfold, OneLine;
    if words == [] {
      NothingBefore(rest);
      NothingBefore(Unfold(rest));
    } else {
      var w := words[0];
      var next := FoldRest(words[1..], if Wraps(col, w) then 1 + |w| else col + 1 + |w|);
      UnfoldRest(words[1..], if Wraps(col, w) then 1 + |w| else col + 1 + |w|, rest);
      UnfoldAfterLine(w, next + rest);
      SpaceIsLine();
      UnfoldAfterLine(" ", w + (next + rest));
      UnfoldFold(w + (next + rest));
      var sep := if Wraps(col, w) then FOLD else " ";
      Assoc(sep, w, next + rest);
      Assoc(sep + w, next, rest);
      var joined := SpaceJoin(words[1..]);
      Assoc(" ", w, joined + Unfold(rest));
      Assoc(" " + w, joined, Unfold(rest));
    }
  }

  lemma SpaceIsLine()
    ensures OneLine(" ")
  {
  }

  predicate Short(h: Header) { |h.name| + 2 + |h.value| <= 78 }

  // Where a header is folded.

  predicate NoSpace(s: string) { forall i :: 0 <= i < |s| ==> s[i] != ' ' }

  /** The number of characters before the first space. */
  function FirstWord(s: string): (n: nat)
    ensures n <= |s|
  {
    if s == "" || s[0] == ' ' then 0 else 1 + FirstWord(s[1..])
  }

  lemma {:induction false} FirstWordIs(w: string, rest: string)
    requires NoSpace(w) && (rest != "" ==> rest[0] == ' ')
    ensures FirstWord(w + rest) == |w|
  {
    if w == "" {
      NothingBefore(rest);
    } else {
      assert (w + rest)[1..] == w[1..] + rest;
      FirstWordIs(w[1..], rest);
    }
  }

  lemma {:induction false} WordsHaveNoSpace(s: string, cur: string)
    requires NoSpace(cur)
    ensures forall i :: 0 <= i < |Words(s, cur)| ==> NoSpace(Words(s, cur)[i])
    decreases |s|
  {
    if s != "" {
      if s[0] == ' ' {
        WordsHaveNoSpace(s[SpaceRun(s)..], "");
      } else {
        WordsHaveNoSpace(s[1..], cur + [s[0]]);
      }
    }
  }

  /** A line after a fold: at most 78 characters, or a single word. */
  predicate FoldedLine(l: string) {
    l != "" && l[0] == ' ' && (|l| <= 78 || NoSpace(l[1..]))
  }

  /** The first word of the next line would not have fitted after `len` characters. */
  predicate Full(len: nat, next: string) {
    next != "" && len + 1 + FirstWord(next[1..]) > 78
  }

  /** Each line is as long as it can be. */
  predicate Greedy(len: nat, lines: seq<string>) {
    && (lines != [] ==> Full(len, lines[0]))
    && (forall i :: 0 <= i < |lines| ==> FoldedLine(lines[i]))
    && (forall i :: 0 < i < |lines| ==> Full(|lines[i - 1]|, lines[i]))
  }

  function Below(lines: seq<string>): string {
    if lines == [] then "" else CRLF + Join(lines, CRLF)
  }

  lemma BelowCons(l: string, lines: seq<string>)
    ensures Below([l] + lines) == CRLF + l + Below(lines)
  {
    assert ([l] + lines)[1..] == lines;
    if lines == [] {
      JoinOne(l, CRLF);
      NothingBefore(CRLF + l);
    } else {
      assert CRLF + (l + CRLF + Join(lines, CRLF)) == CRLF + l + (CRLF + Join(lines, CRLF));
    }
  }

  lemma GreedyCons(len: nat, l: string, lines: seq<string>)
    requires Full(len, l) && FoldedLine(l) && Greedy(|l|, lines)
    ensures Greedy(len, [l] + lines)
  {
    hide Full, FoldedLine;
    var all := [l] + lines;
    forall i | 0 < i < |all| ensures Full(|all[i - 1]|, all[i]) {
      assert all[i] == lines[i - 1];
      if i > 1 { assert all[i - 1] == lines[i - 2]; }
    }
  }

  lemma LineAfterFold(w: string, more: string, col: nat)
    requires NoSpace(w) && Wraps(col, w) && (more != "" ==> more[0] == ' ' && 1 + |w| + |more| <= 78)
    ensures var l := " " + w + more; FoldedLine(l) && Full(col, l) && |l| == 1 + |w| + |more|
  {
    var l := " " + w + more;
    assert l[1..] == w + more;
    FirstWordIs(w, more);
    if more == "" { NothingBefore(w); }
  }

  lemma FoldText(w: string, more: string, below: string)
    ensures FOLD + w + (more + below) == "" + (CRLF + (" " + w + more) + below)
  {
  }

  lemma {:induction false} RestLines(words: seq<string>, col: nat) returns (tail: string, lines: seq<string>)
    requires forall i :: 0 <= i < |words| ==> NoSpace(words[i])
    ensures FoldRest(words, col) == tail + Below(lines)
    ensures (tail != "" ==> tail[0] == ' ' && col + |tail| <= 78) && Greedy(col + |tail|, lines)
    decreases |words|
  {
    hide Greedy, NoSpace, Join, Below, FoldedLine, Full, FoldRest;
    FoldRestUnfold(words, col);
    if words == [] {
      tail, lines := "", [];
      NothingGreedy(col);
    } else {
      var w := words[0];
      assert NoSpace(w);
      assert forall i :: 0 <= i < |words| - 1 ==> words[1..][i] == words[i + 1];
      if Wraps(col, w) {
        var more, below := RestLines(words[1..], 1 + |w|);
        var l := " " + w + more;
        tail, lines := "", [l] + below;
        LineAfterFold(w, more, col);
        GreedyCons(col, l, below);
        BelowCons(l, below);
        FoldText(w, more, Below(below));
      } else {
        var more, below := RestLines(words[1..], col + 1 + |w|);
        tail, lines := " " + w + more, below;
        Assoc(" " + w, more, Below(below));
      }
    }
  }

  lemma NothingGreedy(col: nat)
    ensures Greedy(col, []) && Below([]) == ""
  {
  }

  /** A header is folded only where it must be: no line is longer than 78 characters unless it is a single word
      (the first one with the name before it), and at each fold the next word would not have fitted. */
  lemma FoldLines(h: Header) returns (first: string, lines: seq<string>)
    ensures FoldHeader(h) == first + Below(lines) && Greedy(|first|, lines)
    ensures |first| <= 78 || first == h.name + ": " + Words(h.value, "")[0]
    ensures Short(h) ==> lines == []
  {
    hide Words, FoldRest, Greedy, Below;
    var start := h.name + ": ";
    if |start| + |h.value| <= 78 {
      first, lines := start + h.value, [];
      NothingGreedy(|first|);
      NothingBefore(first);
    } else {
      var ws := Words(h.value, "");
      WordsHaveNoSpace(h.value, "");
      assert forall i :: 0 <= i < |ws| - 1 ==> ws[1..][i] == ws[i + 1];
      var tail, below := RestLines(ws[1..], |start| + |ws[0]|);
      first, lines := start + ws[0] + tail, below;
      if tail == "" { NothingBefore(start + ws[0]); }
      Assoc(start + ws[0], tail, Below(below));
    }
  }

  /** Unfolding a folded header leaves each run of spaces in a long value as one space. */
  lemma UnfoldHeader(h: Header, rest: string)
    requires OneLine(h.name) && OneLine(h.value)
    ensures Unfold(FoldHeader(h) + rest)
            == h.name + ": " + (if Short(h) then h.value else Collapse(h.value)) + Unfold(rest)
  {
    hide Unfold, Words, FoldRest, SpaceJoin, Collapse;
    var first := h.name + ": ";
    if Short(h) {
      UnfoldAfterLine(first + h.value, rest);
    } else {
      var ws := Words(h.value, "");
      WordsAreLines(h.value, "");
      WordsJoin(h.value, "");
      NothingBefore(Collapse(h.value));
      var tail := FoldRest(ws[1..], |first| + |ws[0]|);
      UnfoldRest(ws[1..], |first| + |ws[0]|, rest);
      UnfoldAfterLine(first + ws[0], tail + rest);
      Assoc(first + ws[0], tail, rest);
      Assoc(first + ws[0], SpaceJoin(ws[1..]), Unfold(rest));
      Assoc(first, ws[0], SpaceJoin(ws[1..]));
    }
  }

  /** Folding loses nothing exactly when the header fits on one line or has no two spaces in a row. */
  lemma FoldExact(h: Header)
    requires OneLine(h.name) && OneLine(h.value)
    ensures Unfold(FoldHeader(h)) == h.name + ": " + h.value <==> Short(h) || !Contains(h.value, "  ")
  {
    UnfoldHeader(h, "");
    UnfoldNothing();
    NothingBefore(FoldHeader(h));
    var v := if Short(h) then h.value else Collapse(h.value);
    NothingBefore(h.name + ": " + v);
    CollapseExact(h.value);
    assert v != h.value && |v| < |h.value| ==> |h.name + ": " + v| < |h.name + ": " + h.value|;
  }

  /** A long value with two spaces in a row does not come back. */
  lemma TwoSpacesLost()
    ensures var h := Header("Subject", seq(80, i => 'x') + "  x"); Unfold(FoldHeader(h)) != h.name + ": " + h.value
  {
    hide Unfold, FoldHeader;
    var h := Header("Subject", seq(80, i => 'x') + "  x");
    assert h.value[80] == ' ' && h.value[81] == ' ';
    AtChars(h.value, 80, "  ");
    FoldExact(h);
  }

  lemma UnfoldNothing()
    ensures Unfold("") == ""
  {
  }

  // ---- Header blocks -----------------------------------------------------------------

  function FoldAll(hs: seq<Header>): (r: seq<string>)
    ensures |r| == |hs|
  {
    if hs == [] then [] else [FoldHeader(hs[0])] + FoldAll(hs[1..])
  }

  /** serializeHeaders: every line ends in CRLF. */
  function SerializeHeaders(hs: seq<Header>): string {
    Join(FoldAll(hs), CRLF) + CRLF
  }

  function Lines(s: string, cur: string): (ls: seq<string>)
    ensures ls != []
    decreases |s|
  {
    if s == "" then [cur]
    else if Break(s) > 0 then [cur] + Lines(s[Break(s)..], "")
    else Lines(s[1..], cur + [s[0]])
  }

  /** The header of one unfolded line; none without a name before a colon. */
  function LineHeader(line: string): seq<Header> {
    var colon := Find(line, ":", 0);
    if colon <= 0 then [] else [Header(Trim(line[..colon]), Trim(line[colon + 1..]))]
  }

  function LineHeaders(lines: seq<string>): seq<Header> {
    if lines == [] then [] else LineHeader(lines[0]) + LineHeaders(lines[1..])
  }

  function ParseHeaders(block: string): seq<Header> {
    LineHeaders(Lines(Unfold(block), ""))
  }

  /** The values of a header, looked up without regard to case. */
  function ValuesOf(hs: seq<Header>, name: string): seq<string> {
    if hs == [] then []
    else (if Lower(hs[0].name) == Lower(name) then [hs[0].value] else []) + ValuesOf(hs[1..], name)
  }

  function Raw(hs: seq<Header>, name: string): Option<string> {
    var vs := ValuesOf(hs, name);
    if vs == [] then None else Some(vs[0])
  }

  function Lookup(byName: map<string, seq<string>>, name: string): seq<string> {
    if Lower(name) in byName then byName[Lower(name)] else []
  }

  /** The index holds every header's values, in order. */
  ghost predicate Indexed(hs: seq<Header>, byName: map<string, seq<string>>) {
    forall name :: Lookup(byName, name) == ValuesOf(hs, name)
  }

  lemma IndexedPush(hs: seq<Header>, byName: map<string, seq<string>>, h: Header)
    requires Indexed(hs, byName)
    ensures Indexed(hs + [h], byName[Lower(h.name) := Lookup(byName, h.name) + [h.value]])
  {
    hide Lower, ValuesOf;
    var next := byName[Lower(h.name) := Lookup(byName, h.name) + [h.value]];
    forall name ensures Lookup(next, name) == ValuesOf(hs + [h], name) {
      ValuesOfPush(hs, h, name);
      assert Lookup(byName, name) == ValuesOf(hs, name);
      assert Lookup(byName, h.name) == ValuesOf(hs, h.name);
      NothingBefore(ValuesOf(hs, name));
    }
  }

  class MimeHeaders {
    var lines: seq<Header>
    var byName: map<string, seq<string>>

    constructor (block: string)
      ensures lines == ParseHeaders(block) && Indexed(lines, byName)
    {
      lines, byName := [], map[];
      new;
      hide Unfold, Lines, LineHeader, Lower, ValuesOf;
      var unfolded := Lines(Unfold(block), "");
      assert unfolded[0..] == unfolded;
      NothingBefore(LineHeaders(unfolded));
      NothingIndexed();
      for i := 0 to |unfolded|
        invariant LineHeaders(unfolded) == lines + LineHeaders(unfolded[i..])
        invariant Indexed(lines, byName)
      {
        hide Indexed;
        assert unfolded[i..][1..] == unfolded[i + 1..];
        var h := LineHeader(unfolded[i]);
        Assoc(lines, h, LineHeaders(unfolded[i + 1..]));
        AtMostOne(unfolded[i]);
        if h == [] {
          NothingBefore(lines);
          continue;
        }
        var key := Lower(h[0].name);
        IndexedPush(lines, byName, h[0]);
        assert h == [h[0]];
        byName := byName[key := (if key in byName then byName[key] else []) + [h[0].value]];
        lines := lines + [h[0]];
      }
      NothingBefore(lines);
    }

    method RawValue(name: string) returns (v: Option<string>)
      requires Indexed(lines, byName)
      ensures v == Raw(lines, name)
    {
      assert Lookup(byName, name) == ValuesOf(lines, name);
      if Lower(name) in byName && byName[Lower(name)] != [] { return Some(byName[Lower(name)][0]); }
      return None;
    }
  }

  lemma NothingIndexed()
    ensures Indexed([], map[])
  {
  }

  lemma AtMostOne(line: string)
    ensures |LineHeader(line)| <= 1
  {
  }

  lemma {:induction false} ValuesOfPush(hs: seq<Header>, h: Header, name: string)
    ensures ValuesOf(hs + [h], name) == ValuesOf(hs, name) + (if Lower(h.name) == Lower(name) then [h.value] else [])
  {
    hide Lower;
    if hs == [] {
      assert hs + [h] == [h];
      assert [h][1..] == [];
      NothingBefore(ValuesOf([h], name));
    } else {
      assert (hs + [h])[1..] == hs[1..] + [h];
      ValuesOfPush(hs[1..], h, name);
      var a := if Lower(hs[0].name) == Lower(name) then [hs[0].value] else [];
      Assoc(a, ValuesOf(hs[1..], name), if Lower(h.name) == Lower(name) then [h.value] else []);
    }
  }

  // ---- Round trip --------------------------------------------------------------------

  /** A header as the builder makes them: a name without separators, a trimmed one-line value that
      folding does not alter. */
  ghost predicate ProperHeader(h: Header) {
    && h.name != "" && (forall i :: 0 <= i < |h.name| ==> '!' <= h.name[i] <= '~' && h.name[i] != ':')
    && OneLine(h.value) && Trimmed(h.value)
    && (Short(h) || !Contains(h.value, "  "))
  }

  ghost predicate ProperHeaders(hs: seq<Header>) { forall i :: 0 <= i < |hs| ==> ProperHeader(hs[i]) }

  function PlainLine(h: Header): string {
    h.name + ": " + h.value
  }

  function PlainLines(hs: seq<Header>): (r: seq<string>)
    ensures |r| == |hs|
  {
    if hs == [] then [] else [PlainLine(hs[0])] + PlainLines(hs[1..])
  }

  lemma UnfoldProper(h: Header, rest: string)
    requires ProperHeader(h)
    ensures Unfold(FoldHeader(h) + rest) == PlainLine(h) + Unfold(rest)
  {
    hide Unfold, FoldHeader;
    UnfoldHeader(h, rest);
    CollapseExact(h.value);
  }

  /** A line break that no blank follows stays. */
  lemma UnfoldFirst(c: char, rest: string)
    requires var s := [c] + rest; Break(s) > 0 && Break(s) < |s| ==> s[Break(s)] != ' ' && s[Break(s)] != '\t'
    ensures Unfold([c] + rest) == [c] + Unfold(rest)
  {
    hide Break;
    assert ([c] + rest)[1..] == rest;
  }

  lemma UnfoldCrlf(rest: string)
    requires rest != "" && rest[0] != ' ' && rest[0] != '\t'
    ensures Unfold(CRLF + rest) == CRLF + Unfold(rest)
  {
    hide Unfold;
    UnfoldFirst('\r', "\n" + rest);
    UnfoldFirst('\n', rest);
    assert ['\r'] + ("\n" + rest) == CRLF + rest;
    assert ['\r'] + (['\n'] + Unfold(rest)) == CRLF + Unfold(rest);
  }

  lemma {:induction false} UnfoldBlock(hs: seq<Header>)
    requires hs != [] && ProperHeaders(hs)
    ensures Unfold(Join(FoldAll(hs), CRLF)) == Join(PlainLines(hs), CRLF)
    ensures Join(FoldAll(hs), CRLF)[0..1] == hs[0].name[0..1]
    decreases |hs|
  {
    hide Unfold, FoldHeader, ProperHeader, PlainLine;
    FoldStart(hs[0]);
    if |hs| == 1 {
      assert FoldAll(hs) == [FoldHeader(hs[0])] && PlainLines(hs) == [PlainLine(hs[0])];
      UnfoldProper(hs[0], "");
      UnfoldNothing();
      NothingBefore(FoldHeader(hs[0]));
      NothingBefore(PlainLine(hs[0]));
    } else {
      var block := Join(FoldAll(hs[1..]), CRLF);
      UnfoldBlock(hs[1..]);
      FoldStart(hs[1]);
      assert FoldAll(hs)[1..] == FoldAll(hs[1..]) && PlainLines(hs)[1..] == PlainLines(hs[1..]);
      assert block[0] == block[0..1][0] == hs[1].name[0];
      UnfoldCrlf(block);
      UnfoldProper(hs[0], CRLF + block);
      Assoc(FoldHeader(hs[0]), CRLF, block);
      Assoc(PlainLine(hs[0]), CRLF, Join(PlainLines(hs[1..]), CRLF));
    }
  }

  lemma FoldStart(h: Header)
    requires ProperHeader(h)
    ensures FoldHeader(h) != "" && h.name != "" && FoldHeader(h)[0] == h.name[0]
    ensures h.name[0] != ' ' && h.name[0] != '\t' && h.name[0] != '\n' && h.name[0] != '\r'
  {
  }

  lemma {:induction false} LinesAfterLine(x: string, rest: string, cur: string)
    requires OneLine(x)
    ensures Lines(x + rest, cur) == Lines(rest, cur + x)
  {
    if x == "" {
      NothingBefore(rest);
      NothingBefore(cur);
    } else {
      assert (x + rest)[1..] == x[1..] + rest;
      LinesAfterLine(x[1..], rest, cur + [x[0]]);
      assert cur + [x[0]] + x[1..] == cur + x;
    }
  }

  lemma LinesNothing(cur: string)
    ensures Lines("", cur) == [cur]
  {
  }

  lemma LinesAtBreak(ending: string, rest: string, cur: string)
    requires ending == "\r\n" || ending == "\n"
    ensures Lines(ending + rest, cur) == [cur] + Lines(rest, "")
  {
    assert (ending + rest)[|ending|..] == rest;
  }

  /** A block is cut into its lines with either line break. */
  lemma {:induction false} AnyLines(ls: seq<string>, ending: string)
    requires ls != [] && (forall i :: 0 <= i < |ls| ==> OneLine(ls[i])) && (ending == "\r\n" || ending == "\n")
    ensures Lines(Join(ls, ending), "") == ls
    decreases |ls|
  {
    hide Lines, OneLine;
    NothingBefore(ls[0]);
    if |ls| == 1 {
      LinesAfterLine(ls[0], "", "");
      LinesNothing(ls[0]);
    } else {
      var rest := Join(ls[1..], ending);
      assert forall i :: 0 <= i < |ls| - 1 ==> ls[1..][i] == ls[i + 1];
      AnyLines(ls[1..], ending);
      Assoc(ls[0], ending, rest);
      LinesAfterLine(ls[0], ending + rest, "");
      LinesAtBreak(ending, rest, ls[0]);
      assert [ls[0]] + ls[1..] == ls;
    }
  }

  lemma FindColon(h: Header)
    requires ProperHeader(h)
    ensures Find(PlainLine(h), ":", 0) == |h.name| && Trimmed(h.name) && OneLine(PlainLine(h))
  {
    hide Find, Contains;
    var s, n := PlainLine(h), |h.name|;
    assert s[n..n + 1] == ":";
    forall k | 0 <= k < n ensures !At(s, k, ":") {
      assert s[k..k + 1] == [h.name[k]];
    }
    FindIs(s, ":", 0, n);
  }

  lemma LineHeaderPlain(h: Header)
    requires ProperHeader(h)
    ensures LineHeader(PlainLine(h)) == [h] && OneLine(PlainLine(h))
  {
    hide Find, Contains, Trim, OneLine;
    FindColon(h);
    var s, n := PlainLine(h), |h.name|;
    assert s[..n] == h.name && s[n + 1..] == " " + h.value;
    TrimTrimmed(h.name);
    TrimSpaced(h.value);
  }

  lemma TrimSpaced(v: string)
    requires Trimmed(v)
    ensures Trim(" " + v) == v
  {
    assert (" " + v)[1..] == v;
    TrimTrimmed(v);
    assert TrimStart(v) == v;
    assert TrimStart(" " + v) == v;
  }

  lemma {:induction false} LineHeadersPlain(hs: seq<Header>)
    requires ProperHeaders(hs)
    ensures LineHeaders(PlainLines(hs)) == hs && WordsOneLine(PlainLines(hs))
  {
    hide LineHeader, PlainLine, ProperHeader, OneLine;
    if hs != [] {
      LineHeaderPlain(hs[0]);
      LineHeadersPlain(hs[1..]);
      assert PlainLines(hs)[1..] == PlainLines(hs[1..]);
      assert [hs[0]] + hs[1..] == hs;
    }
  }

  /** A serialised header block reads back as the same headers in the same order. */
  lemma HeadersRoundTrip(hs: seq<Header>)
    requires hs != [] && ProperHeaders(hs)
    ensures ParseHeaders(Join(FoldAll(hs), CRLF)) == hs
  {
    hide Unfold, Lines, LineHeaders, ProperHeader, OneLine;
    UnfoldBlock(hs);
    LineHeadersPlain(hs);
    AnyLines(PlainLines(hs), CRLF);
  }

  lemma {:induction false} FoldAllConcat(a: seq<Header>, b: seq<Header>)
    ensures FoldAll(a + b) == FoldAll(a) + FoldAll(b)
  {
    hide FoldHeader;
    if a == [] {
      NothingBefore(b);
      NothingBefore(FoldAll(b));
    } else {
      assert (a + b)[1..] == a[1..] + b;
      FoldAllConcat(a[1..], b);
      Assoc([FoldHeader(a[0])], FoldAll(a[1..]), FoldAll(b));
    }
  }

  /** Two blocks one after the other are the block of all the headers. */
  lemma SerializeConcat(a: seq<Header>, b: seq<Header>)
    requires a != [] && b != []
    ensures SerializeHeaders(a) + SerializeHeaders(b) == SerializeHeaders(a + b)
  {
    hide FoldAll, Join;
    FoldAllConcat(a, b);
    JoinConcat(FoldAll(a), FoldAll(b), CRLF);
  }

  // ---- Bare line feeds ---------------------------------------------------------------

  /** A fold may use a bare LF and a tab as well. */
  lemma AnyFold(ending: string, blank: char, rest: string)
    requires (ending == "\r\n" || ending == "\n") && (blank == ' ' || blank == '\t')
    ensures Unfold(ending + ([blank] + rest)) == [blank] + Unfold(rest)
  {
    var s := ending + ([blank] + rest);
    assert s[|ending|..] == [blank] + rest && ([blank] + rest)[1..] == rest;
    assert Break(s) == |ending|;
  }
}
