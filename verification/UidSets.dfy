/** Compression of UIDs into IMAP sequence sets (src/imap/ImapTokenizer.ts; RFC 3501, section 9). */
module UidSets {
  import opened Text

  /** `lo:hi`, or one number when both are the same. */
  datatype Range = Range(lo: nat, hi: nat)

  // ---- Sorting and filtering ---------------------------------------------------------

  /** A JavaScript number up to the largest safe integer, beyond which adding one and printing are not exact;
      IMAP numbers have 32 bits. */
  type Number = x: real | x <= 9007199254740991.0

  /** Only positive integers are UIDs. */
  predicate IsUid(x: Number) { x == x.Floor as real && x > 0.0 }

  predicate Increasing(s: seq<nat>) { forall i, j :: 0 <= i < j < |s| ==> s[i] < s[j] }

  function Insert(n: nat, s: seq<nat>): (r: seq<nat>)
    requires Increasing(s)
    ensures Increasing(r) && forall x :: x in r <==> x == n || x in s
  {
    if s == [] || n < s[0] then [n] + s
    else if n == s[0] then s
    else
      var t := Insert(n, s[1..]);
      assert forall x :: x in s <==> x == s[0] || x in s[1..];
      assert forall i :: 0 <= i < |t| ==> t[i] in t;
      [s[0]] + t
  }

  /** The distinct positive integers among `uids`, in increasing order. */
  function SortedUids(uids: seq<Number>): (r: seq<nat>)
    ensures Increasing(r)
  {
    if uids == [] then []
    else if IsUid(uids[0]) then Insert(uids[0].Floor, SortedUids(uids[1..]))
    else SortedUids(uids[1..])
  }

  /** The set of UIDs a caller means. */
  ghost predicate Given(uids: seq<Number>, n: nat) {
    n > 0 && exists i :: 0 <= i < |uids| && uids[i] == n as real
  }

  lemma {:induction false} SortedUidsExact(uids: seq<Number>, n: nat)
    ensures n in SortedUids(uids) <==> Given(uids, n)
  {
    if uids != [] {
      SortedUidsExact(uids[1..], n);
      assert Given(uids, n) <==> (n > 0 && uids[0] == n as real) || Given(uids[1..], n) by {
        if i :| 0 <= i < |uids| && uids[i] == n as real { assert i > 0 ==> uids[1..][i - 1] == n as real; }
        if i :| 0 <= i < |uids| - 1 && uids[1..][i] == n as real { assert uids[i + 1] == n as real; }
      }
    }
  }

  // ---- Ranges ------------------------------------------------------------------------

  /** Length of the run of consecutive numbers `s` starts with. */
  function RunLength(s: seq<nat>): (n: nat)
    requires s != []
    ensures 1 <= n <= |s| && forall i :: 0 <= i < n ==> s[i] == s[0] + i
    ensures n < |s| ==> s[n] != s[0] + n
  {
    if |s| > 1 && s[1] == s[0] + 1 then
      var n := RunLength(s[1..]);
      assert forall i :: 0 < i < 1 + n ==> s[i] == s[1..][i - 1];
      assert 1 + n < |s| ==> s[1 + n] == s[1..][n];
      1 + n
    else 1
  }

  function Ranges(s: seq<nat>): seq<Range>
    decreases |s|
  {
    if s == [] then []
    else
      var n := RunLength(s);
      [Range(s[0], s[n - 1])] + Ranges(s[n..])
  }

  predicate InRange(r: Range, n: nat) { r.lo <= n <= r.hi }

  /** In order, and neither overlapping nor adjacent: no two ranges could be written as one. */
  predicate Apart(rs: seq<Range>) {
    && (forall i :: 0 <= i < |rs| ==> rs[i].lo <= rs[i].hi)
    && (forall i, j :: 0 <= i < j < |rs| ==> rs[i].hi + 1 < rs[j].lo)
  }

  /** Some range contains `n`. */
  predicate Covered(rs: seq<Range>, n: nat) {
    exists i :: 0 <= i < |rs| && InRange(rs[i], n)
  }

  lemma CoveredCons(r: Range, rs: seq<Range>, n: nat)
    ensures Covered([r] + rs, n) <==> InRange(r, n) || Covered(rs, n)
  {
    var all := [r] + rs;
    if i :| 0 <= i < |rs| && InRange(rs[i], n) {
      assert InRange(all[i + 1], n);
    }
    if i :| 0 <= i < |all| && InRange(all[i], n) {
      assert i > 0 ==> InRange(rs[i - 1], n);
    }
    assert all[0] == r;
  }

  lemma {:induction false} RangesCover(s: seq<nat>, n: nat)
    ensures n in s <==> Covered(Ranges(s), n)
    decreases |s|
  {
    hide Covered, Ranges, InRange, RunLength;
    RangesUnfold(s);
    if s == [] {
      NothingCovered(n);
    } else {
      var k := RunLength(s);
      var r := Range(s[0], s[k - 1]);
      RangesCover(s[k..], n);
      CoveredCons(r, Ranges(s[k..]), n);
      InRun(s, k, n);
      assert InRange(r, n) <==> r.lo <= n <= r.hi by { InRangeIs(r, n); }
      assert s == s[..k] + s[k..];
    }
  }

  lemma NothingCovered(n: nat)
    ensures !Covered([], n)
  {
  }

  lemma InRangeIs(r: Range, n: nat)
    ensures InRange(r, n) <==> r.lo <= n <= r.hi
  {
  }

  lemma InRun(s: seq<nat>, k: nat, n: nat)
    requires s != [] && k == RunLength(s)
    ensures n in s[..k] <==> s[0] <= n <= s[k - 1]
  {
    hide RunLength;
    var run := s[..k];
    assert forall i :: 0 <= i < k ==> run[i] == s[0] + i;
    if s[0] <= n <= s[k - 1] {
      assert run[n - s[0]] == n;
    }
  }

  /** All ranges lie between `lo` and `hi`. */
  predicate Between(rs: seq<Range>, lo: nat, hi: nat) {
    forall i :: 0 <= i < |rs| ==> lo <= rs[i].lo && rs[i].hi <= hi
  }

  lemma ApartCons(r: Range, rs: seq<Range>, lo: nat, hi: nat)
    requires r.lo <= r.hi && Apart(rs)
    requires rs != [] ==> r.hi + 1 < lo && Between(rs, lo, hi) && r.hi <= hi
    ensures Apart([r] + rs) && (rs != [] ==> Between([r] + rs, r.lo, hi))
  {
    var all := [r] + rs;
    assert forall i :: 0 < i < |all| ==> all[i] == rs[i - 1];
  }

  lemma {:induction false} RangesApart(s: seq<nat>)
    requires Increasing(s)
    ensures Apart(Ranges(s))
    ensures s != [] ==> Between(Ranges(s), s[0], s[|s| - 1])
    decreases |s|
  {
    hide Apart, Between, Ranges, RunLength;
    RangesNothing();
    if s != [] {
      var k := RunLength(s);
      var t, r := s[k..], Range(s[0], s[k - 1]);
      RangesUnfold(s);
      RangesUnfold(t);
      RangesApart(t);
      if k == |s| {
        assert t == [];
        ApartCons(r, [], 0, 0);
        BetweenOne(r);
      } else {
        assert t[0] == s[k] && t[|t| - 1] == s[|s| - 1];
        ApartCons(r, Ranges(t), t[0], t[|t| - 1]);
      }
    }
  }

  lemma RangesNothing()
    ensures Ranges([]) == [] && Apart([])
  {
  }

  lemma BetweenOne(r: Range)
    ensures Between([r] + [], r.lo, r.hi)
  {
  }

  lemma RangesUnfold(s: seq<nat>)
    ensures s == [] ==> Ranges(s) == []
    ensures s != [] ==> Ranges(s) == [Range(s[0], s[RunLength(s) - 1])] + Ranges(s[RunLength(s)..])
  {
    hide RunLength;
  }

  // ---- Text --------------------------------------------------------------------------

  function Show(r: Range): (s: string)
    ensures s != ""
  {
    if r.lo == r.hi then Decimal(r.lo) else Decimal(r.lo) + ":" + Decimal(r.hi)
  }

  function ShowAll(rs: seq<Range>): (r: seq<string>)
    ensures |r| == |rs| && forall i :: 0 <= i < |rs| ==> r[i] == Show(rs[i])
  {
    seq(|rs|, i requires 0 <= i < |rs| => Show(rs[i]))
  }

  /** The chunks, `cur` being the one under construction. */
  function Chunks(ranges: seq<string>, cur: string, maxLen: int): seq<string>
    decreases |ranges|
  {
    if ranges == [] then
      if cur != "" then [cur] else []
    else
      var r := ranges[0];
      if cur != "" && |cur| + 1 + |r| > maxLen then [cur] + Chunks(ranges[1..], r, maxLen)
      else Chunks(ranges[1..], if cur != "" then cur + "," + r else r, maxLen)
  }

  /** Each run of consecutive UIDs as a range. */
  method ShowRanges(sorted: seq<nat>) returns (ranges: seq<string>)
    ensures ranges == ShowAll(Ranges(sorted))
  {
    hide Decimal, Ranges, RunLength, ShowAll;
    ranges := [];
    var i := 0;
    assert sorted[0..] == sorted;
    NothingBefore(ShowAll(Ranges(sorted)));
    while i < |sorted|
      invariant i <= |sorted|
      invariant ShowAll(Ranges(sorted)) == ranges + ShowAll(Ranges(sorted[i..]))
    {
      var j := i;
      while j + 1 < |sorted| && sorted[j + 1] == sorted[j] + 1
        invariant i <= j < |sorted| && forall k :: i <= k <= j ==> sorted[k] == sorted[i] + (k - i)
      {
        j := j + 1;
      }
      RunLengthIs(sorted[i..], j + 1 - i);
      RangesUnfold(sorted[i..]);
      var shown := if i == j then Decimal(sorted[i]) else Decimal(sorted[i]) + ":" + Decimal(sorted[j]);
      assert sorted[i..][j + 1 - i..] == sorted[j + 1..];
      ShowNext(Range(sorted[i], sorted[j]), Ranges(sorted[j + 1..]));
      Assoc(ranges, [shown], ShowAll(Ranges(sorted[j + 1..])));
      ranges := ranges + [shown];
      i := j + 1;
    }
    assert sorted[i..] == [];
    RangesUnfold([]);
    ShowNothing();
    NothingBefore(ranges);
  }

  /** The ranges, joined into chunks. */
  method JoinRanges(ranges: seq<string>, maxLen: int) returns (out: seq<string>)
    ensures out == Chunks(ranges, "", maxLen)
  {
    hide Chunks;
    out := [];
    var cur := "";
    NothingBefore(Chunks(ranges, "", maxLen));
    assert ranges[0..] == ranges;
    for k := 0 to |ranges|
      invariant Chunks(ranges, "", maxLen) == out + Chunks(ranges[k..], cur, maxLen)
    {
      var r := ranges[k];
      ChunksUnfold(ranges[k..], cur, maxLen);
      assert ranges[k..][1..] == ranges[k + 1..];
      if cur != "" && |cur| + 1 + |r| > maxLen {
        Assoc(out, [cur], Chunks(ranges[k + 1..], r, maxLen));
        out := out + [cur];
        cur := "";
      }
      cur := if cur != "" then cur + "," + r else r;
    }
    NothingBefore(out);
    assert ranges[|ranges|..] == [];
    ChunksUnfold([], cur, maxLen);
    if cur != "" { out := out + [cur]; }
  }

  method UidSetChunks(uids: seq<Number>, maxLen: int) returns (out: seq<string>)
    ensures out == Chunks(ShowAll(Ranges(SortedUids(uids))), "", maxLen)
  {
    hide SortedUids, Ranges, ShowAll, Chunks;
    var ranges := ShowRanges(SortedUids(uids));
    out := JoinRanges(ranges, maxLen);
  }

  lemma RunLengthIs(s: seq<nat>, n: nat)
    requires 1 <= n <= |s| && (forall i :: 0 <= i < n ==> s[i] == s[0] + i)
    requires n < |s| ==> s[n] != s[n - 1] + 1
    ensures RunLength(s) == n
  {
    var k := RunLength(s);
    if k < n {
      assert false;
    }
  }

  lemma ChunksUnfold(ranges: seq<string>, cur: string, maxLen: int)
    ensures ranges == [] ==> Chunks(ranges, cur, maxLen) == if cur != "" then [cur] else []
    ensures ranges != [] ==>
              Chunks(ranges, cur, maxLen) ==
                if cur != "" && |cur| + 1 + |ranges[0]| > maxLen then [cur] + Chunks(ranges[1..], ranges[0], maxLen)
                else Chunks(ranges[1..], if cur != "" then cur + "," + ranges[0] else ranges[0], maxLen)
  {
  }

  lemma ShowNothing()
    ensures ShowAll([]) == []
  {
  }

  lemma ShowNext(r: Range, rs: seq<Range>)
    ensures ShowAll([r] + rs) == [Show(r)] + ShowAll(rs)
  {
  }

  // ---- Reading sequence sets ---------------------------------------------------------

  /** The parts of `s` between commas. */
  function SplitCommas(s: string, cur: string): (r: seq<string>)
    ensures r != []
    decreases |s|
  {
    if s == "" then [cur]
    else if s[0] == ',' then [cur] + SplitCommas(s[1..], "")
    else SplitCommas(s[1..], cur + [s[0]])
  }

  predicate IsNumber(s: string) { s == "*" || (s != "" && AllDigits(s)) }

  /** One element of a sequence set: a number or `*`, or two of them with a colon between. */
  predicate IsElement(s: string) {
    var c := Find(s, ":", 0);
    if c < 0 then IsNumber(s) else IsNumber(s[..c]) && IsNumber(s[c + 1..])
  }

  /** The grammar checkSeqSet enforces. */
  predicate IsSeqSet(s: string) {
    forall i :: 0 <= i < |SplitCommas(s, "")| ==> IsElement(SplitCommas(s, "")[i])
  }

  /** The range an element denotes; None for `*`, which names no particular number. */
  function ReadElement(s: string): Option<Range> {
    var c := Find(s, ":", 0);
    if c < 0 then
      if s != "" && AllDigits(s) then Some(Range(DecimalValue(s), DecimalValue(s))) else None
    else if c > 0 && c + 1 < |s| && AllDigits(s[..c]) && AllDigits(s[c + 1..]) then
      Some(Range(DecimalValue(s[..c]), DecimalValue(s[c + 1..])))
    else None
  }

  function ReadElements(es: seq<string>): seq<Option<Range>> {
    seq(|es|, i requires 0 <= i < |es| => ReadElement(es[i]))
  }

  /** All elements of all chunks, in order. */
  function Elements(chunks: seq<string>): seq<string> {
    if chunks == [] then [] else SplitCommas(chunks[0], "") + Elements(chunks[1..])
  }

  lemma NoColon(s: string)
    requires AllDigits(s)
    ensures Find(s, ":", 0) == -1
  {
    forall k ensures !At(s, k, ":") {
      AtChars(s, k, ":");
      assert ":"[0] == ':';
    }
    FindNone(s, ":", 0);
  }

  lemma ColonAt(a: string, b: string)
    requires AllDigits(a)
    ensures Find(a + ":" + b, ":", 0) == |a|
  {
    var s := a + ":" + b;
    assert s[|a|..|a| + 1] == ":";
    forall k | 0 <= k < |a| ensures !At(s, k, ":") {
      AtChars(s, k, ":");
      assert ":"[0] == ':' && s[k + 0] == a[k];
    }
    FindIs(s, ":", 0, |a|);
  }

  /** A rendered range is in the grammar, has no comma, and reads back. */
  lemma ShowReads(r: Range)
    ensures IsElement(Show(r)) && ReadElement(Show(r)) == Some(r)
    ensures forall i :: 0 <= i < |Show(r)| ==> Show(r)[i] != ','
  {
    hide Find, Decimal, DecimalValue;
    var lo, hi := Decimal(r.lo), Decimal(r.hi);
    DecimalRoundTrip(r.lo);
    DecimalRoundTrip(r.hi);
    if r.lo == r.hi {
      NoColon(lo);
    } else {
      ColonAt(lo, hi);
      var s := Show(r);
      assert s[..|lo|] == lo && s[|lo| + 1..] == hi;
    }
  }

  predicate NoComma(s: string) { forall i :: 0 <= i < |s| ==> s[i] != ',' }

  lemma {:induction false} SplitPlain(s: string, rest: string, cur: string)
    requires NoComma(s)
    ensures SplitCommas(s + rest, cur) == SplitCommas(rest, cur + s)
  {
    if s == "" {
      NothingBefore(rest);
      NothingBefore(cur);
    } else {
      assert (s + rest)[1..] == s[1..] + rest;
      SplitPlain(s[1..], rest, cur + [s[0]]);
      assert cur + [s[0]] + s[1..] == cur + s;
    }
  }

  /** Appending an element to a set text appends it to the elements. */
  lemma {:induction false} SplitAppend(s: string, r: string, cur: string)
    requires NoComma(r)
    ensures SplitCommas(s + "," + r, cur) == SplitCommas(s, cur) + [r]
    decreases |s|
  {
    if s == "" {
      assert s + "," + r == "," + r && ("," + r)[1..] == r;
      SplitPlain(r, "", "");
      NothingBefore(r);
    } else {
      assert (s + "," + r)[1..] == s[1..] + "," + r;
      if s[0] == ',' {
        SplitAppend(s[1..], r, "");
        Assoc([cur], SplitCommas(s[1..], ""), [r]);
      } else {
        SplitAppend(s[1..], r, cur + [s[0]]);
      }
    }
  }

  lemma SplitSingle(r: string)
    requires NoComma(r)
    ensures SplitCommas(r, "") == [r]
  {
    SplitPlain(r, "", "");
    NothingBefore(r);
  }

  predicate Plain(ranges: seq<string>) {
    forall i :: 0 <= i < |ranges| ==> ranges[i] != "" && NoComma(ranges[i])
  }

  /** The chunks hold exactly the ranges, each once and in order. */
  lemma {:induction false} ChunksKeep(ranges: seq<string>, cur: string, maxLen: int)
    requires Plain(ranges)
    ensures Elements(Chunks(ranges, cur, maxLen))
            == (if cur == "" then [] else SplitCommas(cur, "")) + ranges
    decreases |ranges|
  {
    hide SplitCommas, NoComma;
    if ranges == [] {
      ElementsOne(cur);
      NothingBefore(if cur == "" then [] else SplitCommas(cur, ""));
    } else {
      var r, more := ranges[0], ranges[1..];
      assert [r] + more == ranges;
      SplitSingle(r);
      if cur != "" && |cur| + 1 + |r| > maxLen {
        ChunksKeep(more, r, maxLen);
        ElementsCons(cur, Chunks(more, r, maxLen));
      } else if cur != "" {
        ChunksKeep(more, cur + "," + r, maxLen);
        SplitAppend(cur, r, "");
        Assoc(SplitCommas(cur, ""), [r], more);
      } else {
        ChunksKeep(more, r, maxLen);
        NothingBefore(ranges);
      }
    }
  }

  lemma ElementsOne(cur: string)
    ensures Elements([]) == [] && Elements([cur]) == SplitCommas(cur, "")
  {
    assert [cur][1..] == [];
    NothingBefore(SplitCommas(cur, ""));
  }

  lemma ElementsCons(c: string, chunks: seq<string>)
    ensures Elements([c] + chunks) == SplitCommas(c, "") + Elements(chunks)
  {
    assert ([c] + chunks)[1..] == chunks;
  }

  lemma {:induction false} ChunksFit(ranges: seq<string>, cur: string, maxLen: int)
    requires |cur| <= maxLen && forall i :: 0 <= i < |ranges| ==> |ranges[i]| <= maxLen
    ensures forall i :: 0 <= i < |Chunks(ranges, cur, maxLen)| ==> |Chunks(ranges, cur, maxLen)[i]| <= maxLen
    decreases |ranges|
  {
    if ranges != [] {
      var r := ranges[0];
      ChunksFit(ranges[1..], if cur != "" && |cur| + 1 + |r| <= maxLen then cur + "," + r else r, maxLen);
    }
  }

  lemma {:induction false} ElementsInGrammar(chunks: seq<string>)
    requires forall i :: 0 <= i < |Elements(chunks)| ==> IsElement(Elements(chunks)[i])
    ensures forall i :: 0 <= i < |chunks| ==> IsSeqSet(chunks[i])
  {
    hide SplitCommas, IsElement;
    if chunks != [] {
      var a, b := SplitCommas(chunks[0], ""), Elements(chunks[1..]);
      assert forall i :: 0 <= i < |a| ==> Elements(chunks)[i] == a[i];
      assert forall i :: 0 <= i < |b| ==> Elements(chunks)[|a| + i] == b[i];
      ElementsInGrammar(chunks[1..]);
    }
  }

  function Out(uids: seq<Number>, maxLen: int): seq<string> {
    Chunks(ShowAll(Ranges(SortedUids(uids))), "", maxLen)
  }

  /** The ranges the chunks denote, read back from their text. */
  function Denoted(chunks: seq<string>): seq<Option<Range>> {
    ReadElements(Elements(chunks))
  }

  /** Lossless: read back, the chunks are in the grammar, denote exactly the given positive UIDs, each in
      one range only, and no two ranges could have been merged. */
  lemma UidSetsLossless(uids: seq<Number>, maxLen: int) returns (rs: seq<Range>)
    ensures forall i :: 0 <= i < |Out(uids, maxLen)| ==> IsSeqSet(Out(uids, maxLen)[i])
    ensures Denoted(Out(uids, maxLen)) == Somes(rs) && Apart(rs)
    ensures forall n: nat :: Given(uids, n) <==> Covered(rs, n)
  {
    hide SortedUids, Ranges, Chunks, Show, SplitCommas, Elements, IsElement, ReadElement, Given, Covered, IsSeqSet, Apart;
    var s := SortedUids(uids);
    rs := Ranges(s);
    var texts := ShowAll(rs);
    RangesApart(s);
    forall n: nat ensures Given(uids, n) <==> Covered(rs, n) {
      SortedUidsExact(uids, n);
      RangesCover(s, n);
    }
    forall i | 0 <= i < |rs| ensures IsElement(texts[i]) && ReadElement(texts[i]) == Some(rs[i]) && NoComma(texts[i]) {
      ShowReads(rs[i]);
    }
    ChunksKeep(texts, "", maxLen);
    NothingBefore(texts);
    ElementsInGrammar(Out(uids, maxLen));
  }

  function Somes(rs: seq<Range>): seq<Option<Range>> {
    seq(|rs|, i requires 0 <= i < |rs| => Some(rs[i]))
  }

  /** No UID is denoted twice. */
  lemma EachOnce(rs: seq<Range>, n: nat, i: nat, j: nat)
    requires Apart(rs) && i < |rs| && j < |rs| && InRange(rs[i], n) && InRange(rs[j], n)
    ensures i == j
  {
  }

  /** Every chunk fits whenever each range does. */
  lemma UidSetsFit(uids: seq<Number>, maxLen: int)
    requires maxLen >= 0
    requires forall i :: 0 <= i < |Ranges(SortedUids(uids))| ==> |Show(Ranges(SortedUids(uids))[i])| <= maxLen
    ensures forall i :: 0 <= i < |Out(uids, maxLen)| ==> |Out(uids, maxLen)[i]| <= maxLen
  {
    hide SortedUids, Ranges, Chunks, Show;
    ChunksFit(ShowAll(Ranges(SortedUids(uids))), "", maxLen);
  }

  // ---- The grammar -------------------------------------------------------------------

  /** A number as it is written, or `*`. */
  predicate WrittenNumber(s: string) {
    s == "*" || (s != "" && forall i :: 0 <= i < |s| ==> s[i] in "0123456789")
  }

  ghost predicate Written(s: string) {
    WrittenNumber(s) || exists a, b :: WrittenNumber(a) && WrittenNumber(b) && s == a + ":" + b
  }

  lemma NumberExact(s: string)
    ensures WrittenNumber(s) <==> IsNumber(s)
    ensures WrittenNumber(s) ==> NoComma(s) && forall k :: !At(s, k, ":")
  {
    forall k ensures WrittenNumber(s) ==> !At(s, k, ":") {
      AtChars(s, k, ":");
      assert ":"[0] == ':';
    }
  }

  lemma WrittenExact(s: string)
    ensures Written(s) <==> IsElement(s)
    ensures Written(s) ==> NoComma(s)
  {
    var c := Find(s, ":", 0);
    NumberExact(s);
    if IsElement(s) && c >= 0 {
      NumberExact(s[..c]);
      NumberExact(s[c + 1..]);
      assert s == s[..c] + ":" + s[c + 1..];
    }
    if WrittenNumber(s) { FindNone(s, ":", 0); }
    if a, b :| WrittenNumber(a) && WrittenNumber(b) && s == a + ":" + b {
      PairIs(a, b);
    }
  }

  lemma PairIs(a: string, b: string)
    requires WrittenNumber(a) && WrittenNumber(b)
    ensures IsElement(a + ":" + b) && NoComma(a + ":" + b)
  {
    hide WrittenNumber, IsNumber, Find;
    var s := a + ":" + b;
    NumberExact(a);
    NumberExact(b);
    AtChars(s, |a|, ":");
    forall k | 0 <= k < |a| ensures !At(s, k, ":") {
      AtChars(s, k, ":");
      AtChars(a, k, ":");
      assert ":"[0] == ':';
    }
    FindIs(s, ":", 0, |a|);
    assert s[..|a|] == a && s[|a| + 1..] == b;
  }

  lemma {:induction false} JoinSplit(s: string, cur: string)
    ensures Join(SplitCommas(s, cur), ",") == cur + s
    decreases |s|
  {
    if s == "" {
      NothingBefore(cur);
      JoinOne(cur, ",");
    } else if s[0] == ',' {
      JoinSplit(s[1..], "");
      assert s == "," + s[1..];
      assert "" + s[1..] == s[1..];
      var more := SplitCommas(s[1..], "");
      assert ([cur] + more)[1..] == more;
      Assoc(cur, ",", s[1..]);
    } else {
      JoinSplit(s[1..], cur + [s[0]]);
      Assoc(cur, [s[0]], s[1..]);
      assert [s[0]] + s[1..] == s;
    }
  }

  lemma {:induction false} SplitJoin(es: seq<string>)
    requires es != [] && forall i :: 0 <= i < |es| ==> NoComma(es[i])
    ensures SplitCommas(Join(es, ","), "") == es
    decreases |es|
  {
    hide NoComma;
    NothingBefore(es[0]);
    if |es| == 1 {
      SplitPlain(es[0], "", "");
    } else {
      var more := Join(es[1..], ",");
      assert forall i :: 0 <= i < |es| - 1 ==> es[1..][i] == es[i + 1];
      SplitJoin(es[1..]);
      Assoc(es[0], ",", more);
      SplitPlain(es[0], "," + more, "");
      assert ("," + more)[1..] == more;
      assert [es[0]] + es[1..] == es;
    }
  }

  /** checkSeqSet accepts exactly the elements of RFC 3501 with commas between them. */
  lemma SeqSetExact(s: string)
    ensures IsSeqSet(s) <==>
            exists es: seq<string> :: es != [] && (forall i :: 0 <= i < |es| ==> Written(es[i])) && s == Join(es, ",")
  {
    hide Written, IsElement, SplitCommas, NoComma;
    var parts := SplitCommas(s, "");
    JoinSplit(s, "");
    assert "" + s == s;
    if IsSeqSet(s) {
      forall i | 0 <= i < |parts| ensures Written(parts[i]) { WrittenExact(parts[i]); }
    }
    forall es: seq<string> | es != [] && (forall i :: 0 <= i < |es| ==> Written(es[i])) && s == Join(es, ",") ensures IsSeqSet(s) {
      forall i | 0 <= i < |es| ensures NoComma(es[i]) && IsElement(es[i]) { WrittenExact(es[i]); }
      SplitJoin(es);
    }
  }
}
