/** Framing of the IMAP server byte stream into responses (src/imap/ImapParser.ts). */
module ImapFraming {
  import opened Text

  /** Size limits of one connection, in bytes. */
  datatype Limits = Limits(maxLiteral: nat, maxResponse: nat, maxLine: nat)

  /** Start of the run of digits that ends just before `j`. */
  function DigitsBack(s: string, j: nat): (k: nat)
    requires j <= |s|
    ensures k <= j && AllDigits(s[k..j])
  {
    if j > 0 && IsDigit(s[j - 1]) then
      var k := DigitsBack(s, j - 1);
      assert s[k..j] == s[k..j - 1] + [s[j - 1]];
      k
    else j
  }

  /** The literal announced at the end of a line: `{N}`, `{N+}`, `~{N}` or `~{N+}`. */
  function LiteralAtEnd(line: string): Option<nat> {
    var n := |line|;
    if n == 0 || line[n - 1] != '}' then None
    else
      var j := if n >= 2 && line[n - 2] == '+' then n - 2 else n - 1;
      var k := DigitsBack(line, j);
      if 0 < k < j && line[k - 1] == '{' then Some(DecimalValue(line[k..j])) else None
  }

  // ---- One-shot reference framing ----------------------------------------------------

  /** Length of the first complete response in `s`, its final CRLF included. */
  function ResponseEnd(s: string): (r: Option<nat>)
    ensures r.Some? ==> 2 <= r.value <= |s|
    decreases |s|
  {
    var i := Find(s, CRLF, 0);
    if i < 0 then None
    else match LiteralAtEnd(s[..i])
      case None => Some(i + 2)
      case Some(n) =>
        if |s| < i + 2 + n then None
        else match ResponseEnd(s[i + 2 + n..])
          case None => None
          case Some(k) => Some(i + 2 + n + k)
  }

  /** The complete responses of a whole stream: consecutive slices of it, without their final CRLF. */
  function Frames(s: string): seq<string>
    decreases |s|
  {
    match ResponseEnd(s)
    case None => []
    case Some(k) => [s[..k - 2]] + Frames(s[k..])
  }

  predicate Blank(s: string) { forall i :: 0 <= i < |s| ==> IsSpace(s[i]) }

  /** Blank responses are not reported. */
  function NonBlank(rs: seq<string>): seq<string> {
    if rs == [] then []
    else (if Blank(rs[0]) then [] else [rs[0]]) + NonBlank(rs[1..])
  }

  // ---- Incremental framing -----------------------------------------------------------

  /** What the framer holds: the response being assembled, its announced size, the literal bytes still
      owed, and the unconsumed input. */
  datatype St = St(acc: string, bytes: nat, literal: nat, pend: string)

  const START := St("", 0, 0, "")

  datatype Outcome = Done(out: seq<string>, st: St) | LimitExceeded

  /** `o` with `out` reported before it. */
  function After(out: seq<string>, o: Outcome): Outcome {
    match o
    case LimitExceeded => LimitExceeded
    case Done(out', st) => Done(out + out', st)
  }

  datatype Move = Stop | Fail | Go(out: seq<string>, next: St)

  /** One step of the framer: take a whole literal, or one line. */
  function Step(st: St, lim: Limits): (m: Move)
    ensures m.Go? ==> |m.next.pend| < |st.pend| || (m.next.pend == st.pend && m.next.literal < st.literal)
  {
    if st.literal > 0 then
      if |st.pend| < st.literal then Stop
      else Go([], St(st.acc + st.pend[..st.literal], st.bytes, 0, st.pend[st.literal..]))
    else
      var i := Find(st.pend, CRLF, 0);
      if i < 0 then
        if |st.pend| > lim.maxLine then Fail else Stop
      else if i > lim.maxLine then Fail
      else
        var line, rest := st.pend[..i], st.pend[i + 2..];
        match LiteralAtEnd(line)
        case Some(n) =>
          if n > lim.maxLiteral || st.bytes + i + 2 + n > lim.maxResponse then Fail
          else Go([], St(st.acc + line + CRLF, st.bytes + i + 2 + n, n, rest))
        case None => Go(NonBlank([st.acc + line]), St("", 0, 0, rest))
  }

  /** Everything that can be completed from the bytes at hand. */
  function Drain(st: St, lim: Limits): Outcome
    decreases |st.pend|, st.literal
  {
    match Step(st, lim)
    case Stop => Done([], st)
    case Fail => LimitExceeded
    case Go(out, next) => After(out, Drain(next, lim))
  }

  function Append(st: St, chunk: string): St {
    st.(pend := st.pend + chunk)
  }

  /** One call after another, for a stream that arrives in chunks. */
  function DrainAll(st: St, chunks: seq<string>, lim: Limits): Outcome
    decreases |chunks|
  {
    if chunks == [] then Done([], st)
    else match Drain(Append(st, chunks[0]), lim)
      case LimitExceeded => LimitExceeded
      case Done(out, st') => After(out, DrainAll(st', chunks[1..], lim))
  }

  /** The next line is shorter than maxLine, or, while its CRLF is missing, no longer than it; a literal
      it announces is allowed. */
  predicate StrictStep(st: St, lim: Limits) {
    st.literal > 0
    || var i := Find(st.pend, CRLF, 0);
       if i < 0 then |st.pend| <= lim.maxLine else i < lim.maxLine && !Step(st, lim).Fail?
  }

  /** The limits hold with room to spare, all along the stream. */
  predicate StrictlyWithin(st: St, lim: Limits)
    decreases |st.pend|, st.literal
  {
    StrictStep(st, lim)
    && (Step(st, lim).Go? ==> StrictlyWithin(Step(st, lim).next, lim))
  }

  // ---- Chunk independence ------------------------------------------------------------

  lemma FindInPrefix(a: string, b: string)
    ensures Find(a, CRLF, 0) >= 0 ==> Find(a + b, CRLF, 0) == Find(a, CRLF, 0)
    ensures Find(a, CRLF, 0) < 0 && Find(a + b, CRLF, 0) >= 0 ==> |a| - 1 <= Find(a + b, CRLF, 0)
  {
    var i, j := Find(a, CRLF, 0), Find(a + b, CRLF, 0);
    if i >= 0 {
      assert (a + b)[i..i + 2] == a[i..i + 2];
      forall k | 0 <= k < i ensures !At(a + b, k, CRLF) {
        assert (a + b)[k..k + 2] == a[k..k + 2];
        assert !At(a, k, CRLF);
      }
      FindIs(a + b, CRLF, 0, i);
    } else if 0 <= j < |a| - 1 {
      assert (a + b)[j..j + 2] == a[j..j + 2];
      assert At(a, j, CRLF);
    }
  }

  /** A step that is possible without `b` is the same step with `b`. */
  lemma StepMore(st: St, b: string, lim: Limits)
    ensures Step(st, lim).Go? ==>
              Step(Append(st, b), lim) == Go(Step(st, lim).out, Append(Step(st, lim).next, b))
  {
    hide Find, LiteralAtEnd;
    var s, t := st.pend, st.pend + b;
    if st.literal > 0 {
      if |s| >= st.literal {
        assert t[..st.literal] == s[..st.literal] && t[st.literal..] == s[st.literal..] + b;
      }
    } else {
      var i := Find(s, CRLF, 0);
      FindInPrefix(s, b);
      if i >= 0 {
        assert t[..i] == s[..i] && t[i + 2..] == s[i + 2..] + b;
      }
    }
  }

  /** Within the limits, a step taken without `b` does not fail because the end of a line has not come yet. */
  lemma StepCut(st: St, b: string, lim: Limits)
    requires StrictStep(Append(st, b), lim)
    ensures !Step(st, lim).Fail?
    ensures Step(st, lim).Go? ==>
              Step(Append(st, b), lim) == Go(Step(st, lim).out, Append(Step(st, lim).next, b))
  {
    hide Find, LiteralAtEnd;
    StepMore(st, b, lim);
    if st.literal == 0 {
      var i := Find(st.pend, CRLF, 0);
      FindInPrefix(st.pend, b);
      if i >= 0 {
        assert (st.pend + b)[..i] == st.pend[..i];
      }
    }
  }

  lemma DrainUnfold(st: St, lim: Limits)
    ensures Step(st, lim).Stop? ==> Drain(st, lim) == Done([], st)
    ensures Step(st, lim).Fail? ==> Drain(st, lim) == LimitExceeded
    ensures Step(st, lim).Go? ==> Drain(st, lim) == After(Step(st, lim).out, Drain(Step(st, lim).next, lim))
  {
  }

  lemma {:induction false} DrainWithin(st: St, lim: Limits)
    requires StrictlyWithin(st, lim)
    ensures Drain(st, lim).Done?
    decreases |st.pend|, st.literal
  {
    hide Find, LiteralAtEnd;
    if Step(st, lim).Go? {
      DrainWithin(Step(st, lim).next, lim);
    }
  }

  /** Stopping after `st` and going on with `b` is the same as having had `b` from the beginning. */
  lemma {:induction false} DrainCut(st: St, b: string, lim: Limits)
    requires StrictlyWithin(Append(st, b), lim)
    ensures Drain(st, lim).Done?
    ensures StrictlyWithin(Append(Drain(st, lim).st, b), lim)
    ensures Drain(Append(st, b), lim) == After(Drain(st, lim).out, Drain(Append(Drain(st, lim).st, b), lim))
    decreases |st.pend|, st.literal
  {
    hide Step, StrictStep, Append;
    StepCut(st, b, lim);
    match Step(st, lim)
    case Stop =>
      AfterNothing(Drain(Append(st, b), lim));
    case Go(out, next) =>
      DrainCut(next, b, lim);
      AfterAfter(out, Drain(next, lim).out, Drain(Append(Drain(next, lim).st, b), lim));
  }

  lemma AfterNothing(o: Outcome)
    ensures After([], o) == o
  {
    if o.Done? {
      assert [] + o.out == o.out;
    }
  }

  lemma AfterFailure(out: seq<string>)
    ensures After(out, LimitExceeded) == LimitExceeded
  {
  }

  lemma AfterDone(out: seq<string>, st: St)
    ensures After(out, Done([], st)) == Done(out, st)
  {
    assert out + [] == out;
  }

  lemma AfterAfter(a: seq<string>, b: seq<string>, o: Outcome)
    ensures After(a, After(b, o)) == After(a + b, o)
  {
    if o.Done? {
      assert a + (b + o.out) == a + b + o.out;
    }
  }

  /** Nothing more can be completed once a call has returned. */
  lemma {:induction false} DrainQuiet(st: St, lim: Limits)
    requires Drain(st, lim).Done?
    ensures var st' := Drain(st, lim).st; Drain(st', lim) == Done([], st')
    decreases |st.pend|, st.literal
  {
    hide Step;
    if Step(st, lim).Go? {
      DrainQuiet(Step(st, lim).next, lim);
    }
  }

  /** However a stream is cut, the calls together do what one call on the whole stream does. */
  lemma {:induction false} ChunksAgree(st: St, chunks: seq<string>, lim: Limits)
    requires StrictlyWithin(Append(st, Flat(chunks)), lim)
    requires Drain(st, lim) == Done([], st)
    ensures DrainAll(st, chunks, lim) == Drain(Append(st, Flat(chunks)), lim)
    decreases |chunks|
  {
    hide Drain, StrictlyWithin;
    if chunks == [] {
      assert st.pend + "" == st.pend;
    } else {
      var c, rest := chunks[0], Flat(chunks[1..]);
      assert st.pend + (c + rest) == st.pend + c + rest;
      assert Append(Append(st, c), rest) == Append(st, Flat(chunks));
      DrainCut(Append(st, c), rest, lim);
      DrainQuiet(Append(st, c), lim);
      ChunksAgree(Drain(Append(st, c), lim).st, chunks[1..], lim);
    }
  }

  /** What a call reports is the one-shot framing of the bytes it has. */
  lemma {:induction false} DrainFrames(st: St, lim: Limits)
    requires Drain(st, lim).Done?
    ensures Drain(st, lim).out == NonBlank(FramesOf(st))
    decreases |st.pend|, st.literal
  {
    hide Find, LiteralAtEnd, ResponseEnd, Frames, FramesFrom;
    StepFrames(st, lim);
    if Step(st, lim).Go? {
      hide Step, FramesOf, NonBlank;
      DrainFrames(Step(st, lim).next, lim);
    }
  }

  /** Reference framing from a state in the middle of a response. */
  function FramesOf(st: St): seq<string> {
    if st.literal > |st.pend| then []
    else FramesFrom(st.acc + st.pend[..st.literal], st.pend[st.literal..])
  }

  /** One step reports what the reference framing has and the state after the step no longer has. */
  lemma StepFrames(st: St, lim: Limits)
    ensures match Step(st, lim)
            case Stop => FramesOf(st) == []
            case Fail => true
            case Go(out, next) => NonBlank(FramesOf(st)) == out + NonBlank(FramesOf(next))
  {
    hide Find, LiteralAtEnd, ResponseEnd, Frames, FramesFrom;
    if st.literal == 0 {
      assert st.acc + st.pend[..0] == st.acc && st.pend[0..] == st.pend;
      var i := Find(st.pend, CRLF, 0);
      FramesUnfold(st.acc, st.pend);
      if i >= 0 {
        var line, rest := st.pend[..i], st.pend[i + 2..];
        match LiteralAtEnd(line)
        case Some(n) =>
          if n <= |rest| {
            FramesAfter(st.acc, st.pend, i, n);
          }
        case None =>
          assert "" + rest[..0] == "" && rest[0..] == rest;
          FramesFromNothing(rest);
          NonBlankConcat([st.acc + line], Frames(rest));
      }
    } else if st.literal <= |st.pend| {
      var acc, rest := st.acc + st.pend[..st.literal], st.pend[st.literal..];
      assert acc + rest[..0] == acc && rest[0..] == rest;
    }
  }

  /** Frames of `acc + s` when `acc` is the already scanned beginning of the first response. */
  function FramesFrom(acc: string, s: string): seq<string> {
    match ResponseEnd(s)
    case None => []
    case Some(k) => [acc + s[..k - 2]] + Frames(s[k..])
  }

  lemma FramesFromNothing(s: string)
    ensures FramesFrom("", s) == Frames(s)
  {
    match ResponseEnd(s)
    case None =>
    case Some(k) => assert "" + s[..k - 2] == s[..k - 2];
  }

  lemma FramesUnfold(acc: string, s: string)
    ensures var i := Find(s, CRLF, 0);
            && (i < 0 ==> FramesFrom(acc, s) == [])
            && (i >= 0 && LiteralAtEnd(s[..i]).None? ==>
                  FramesFrom(acc, s) == [acc + s[..i]] + Frames(s[i + 2..]))
            && (i >= 0 && LiteralAtEnd(s[..i]).Some? && LiteralAtEnd(s[..i]).value > |s[i + 2..]| ==>
                  FramesFrom(acc, s) == [])
  {
    hide Find, LiteralAtEnd;
  }

  lemma ResponseEndAfterLiteral(s: string, i: nat, n: nat)
    requires i == Find(s, CRLF, 0) && LiteralAtEnd(s[..i]) == Some(n) && i + 2 + n <= |s|
    ensures ResponseEnd(s) == match ResponseEnd(s[i + 2 + n..])
                              case None => None
                              case Some(k) => Some(i + 2 + n + k)
  {
    hide Find, LiteralAtEnd, ResponseEnd;
    ResponseEndUnfold(s);
  }

  lemma ResponseEndUnfold(s: string)
    ensures var i := Find(s, CRLF, 0);
            i >= 0 && LiteralAtEnd(s[..i]).Some? ==>
              var m := i + 2 + LiteralAtEnd(s[..i]).value;
              m <= |s| ==>
                && (ResponseEnd(s[m..]).None? ==> ResponseEnd(s) == None)
                && (ResponseEnd(s[m..]).Some? ==> ResponseEnd(s) == Some(m + ResponseEnd(s[m..]).value))
  {
    hide Find, LiteralAtEnd;
  }

  /** A literal and the line before it belong to the response that goes on after them. */
  lemma FramesAfter(acc: string, s: string, i: nat, n: nat)
    requires i == Find(s, CRLF, 0) && LiteralAtEnd(s[..i]) == Some(n) && i + 2 + n <= |s|
    ensures var rest := s[i + 2..];
            FramesFrom(acc, s) == FramesFrom(acc + s[..i] + CRLF + rest[..n], rest[n..])
  {
    hide Find, LiteralAtEnd, ResponseEnd, Frames, FramesFrom;
    var rest, m := s[i + 2..], i + 2 + n;
    ResponseEndAfterLiteral(s, i, n);
    assert s[m..] == rest[n..];
    FramesFromIs(acc, s);
    FramesFromIs(acc + s[..i] + CRLF + rest[..n], rest[n..]);
    if ResponseEnd(rest[n..]).Some? {
      SlicesMeet(acc, s, i, n, ResponseEnd(rest[n..]).value);
    }
  }

  lemma FramesFromIs(acc: string, s: string)
    ensures ResponseEnd(s).None? ==> FramesFrom(acc, s) == []
    ensures ResponseEnd(s).Some? ==>
              var k := ResponseEnd(s).value;
              2 <= k <= |s| && FramesFrom(acc, s) == [acc + s[..k - 2]] + Frames(s[k..])
  {
    hide ResponseEnd, Frames;
  }

  lemma SlicesMeet(acc: string, s: string, i: nat, n: nat, k: nat)
    requires i + 2 + n <= |s| && s[i..i + 2] == CRLF && 2 <= k && i + 2 + n + k <= |s|
    ensures var rest, m := s[i + 2..], i + 2 + n;
            && acc + s[..m + k - 2] == acc + s[..i] + CRLF + rest[..n] + rest[n..][..k - 2]
            && s[m + k..] == rest[n..][k..]
  {
    var rest, m := s[i + 2..], i + 2 + n;
    assert s[..m + k - 2] == s[..i] + CRLF + rest[..n] + rest[n..][..k - 2];
    assert acc + (s[..i] + CRLF + rest[..n] + rest[n..][..k - 2])
        == acc + s[..i] + CRLF + rest[..n] + rest[n..][..k - 2];
  }

  lemma NonBlankConcat(a: seq<string>, b: seq<string>)
    ensures NonBlank(a + b) == NonBlank(a) + NonBlank(b)
  {
    if a == [] {
      assert a + b == b;
    } else {
      assert (a + b)[1..] == a[1..] + b;
      NonBlankConcat(a[1..], b);
    }
  }

  /** Some cut of a stream that is not strictly within the limits makes a call throw. */
  lemma {:induction false} BadCut(st: St, lim: Limits) returns (k: nat)
    requires !StrictlyWithin(st, lim)
    ensures k <= |st.pend| && Drain(st.(pend := st.pend[..k]), lim).LimitExceeded?
    decreases |st.pend|, st.literal
  {
    hide Step, StrictStep;
    if StrictStep(st, lim) {
      var next := Step(st, lim).next;
      var j := BadCut(next, lim);
      k := |st.pend| - |next.pend| + j;
      StepOfCut(st, j, lim);
    } else {
      k := BadStep(st, lim);
    }
  }

  lemma BadStep(st: St, lim: Limits) returns (k: nat)
    requires !StrictStep(st, lim)
    ensures k <= |st.pend| && Step(st.(pend := st.pend[..k]), lim).Fail?
  {
    hide Find, LiteralAtEnd, NonBlank;
    if Step(st, lim).Fail? {
      k := |st.pend|;
      assert st.(pend := st.pend[..k]) == st;
    } else {
      k := lim.maxLine + 1;
      NoLineBeforeItsEnd(st.pend, k);
    }
  }

  lemma NoLineBeforeItsEnd(s: string, k: nat)
    requires 0 < k <= |s| && Find(s, CRLF, 0) == k - 1
    ensures Find(s[..k], CRLF, 0) < 0
  {
    hide Find;
    assert s[..k] + s[k..] == s;
    FindInPrefix(s[..k], s[k..]);
  }

  /** A step taken with only a part of the input that follows it. */
  lemma StepOfCut(st: St, j: nat, lim: Limits)
    requires Step(st, lim).Go? && j <= |Step(st, lim).next.pend|
    ensures var m := Step(st, lim);
            var k := |st.pend| - |m.next.pend| + j;
            && 0 <= k <= |st.pend|
            && Step(st.(pend := st.pend[..k]), lim) == Go(m.out, m.next.(pend := m.next.pend[..j]))
  {
    hide Find, LiteralAtEnd;
    var m := Step(st, lim);
    var k := |st.pend| - |m.next.pend| + j;
    if st.literal > 0 {
      assert st.pend[..k][..st.literal] == st.pend[..st.literal];
      assert st.pend[..k][st.literal..] == st.pend[st.literal..][..j];
    } else {
      var i := Find(st.pend, CRLF, 0);
      FindCut(st.pend, i, k);
      assert st.pend[..k][..i] == st.pend[..i];
      assert st.pend[..k][i + 2..] == st.pend[i + 2..][..j];
    }
  }

  lemma FindCut(s: string, i: nat, k: nat)
    requires Find(s, CRLF, 0) == i && i + 2 <= k <= |s|
    ensures Find(s[..k], CRLF, 0) == i
  {
    assert s[..k][i..i + 2] == s[i..i + 2];
    forall j | 0 <= j < i ensures !At(s[..k], j, CRLF) {
      assert s[..k][j..j + 2] == s[j..j + 2];
      assert !At(s, j, CRLF);
    }
    FindIs(s[..k], CRLF, 0, i);
  }

  /** Chunk independence: the reports of all calls are the one-shot framing of the stream. */
  lemma ChunkIndependence(chunks: seq<string>, lim: Limits)
    requires StrictlyWithin(Append(START, Flat(chunks)), lim)
    ensures DrainAll(START, chunks, lim).Done?
    ensures DrainAll(START, chunks, lim).out == NonBlank(Frames(Flat(chunks)))
  {
    var s := Flat(chunks);
    ChunksAgree(START, chunks, lim);
    DrainWithin(Append(START, s), lim);
    DrainFrames(Append(START, s), lim);
    assert "" + s == s;
    FramesFromNothing(s);
  }

  /** Calls that did not throw can be put together, within the limits or not. */
  lemma {:induction false} DrainMore(st: St, b: string, lim: Limits)
    requires Drain(st, lim).Done?
    ensures Drain(Append(st, b), lim) == After(Drain(st, lim).out, Drain(Append(Drain(st, lim).st, b), lim))
    decreases |st.pend|, st.literal
  {
    hide Step, Append;
    StepMore(st, b, lim);
    DrainUnfold(Append(st, b), lim);
    if Step(st, lim).Go? {
      var next := Step(st, lim).next;
      DrainMore(next, b, lim);
      AfterAfter(Step(st, lim).out, Drain(next, lim).out, Drain(Append(Drain(next, lim).st, b), lim));
    } else {
      AfterNothing(Drain(Append(st, b), lim));
    }
  }

  lemma {:induction false} ChunksMore(st: St, chunks: seq<string>, lim: Limits)
    requires Drain(st, lim) == Done([], st) && DrainAll(st, chunks, lim).Done?
    ensures Drain(Append(st, Flat(chunks)), lim) == DrainAll(st, chunks, lim)
    decreases |chunks|
  {
    hide Drain;
    if chunks == [] {
      assert st.pend + "" == st.pend;
    } else {
      var c, rest := chunks[0], Flat(chunks[1..]);
      assert st.pend + (c + rest) == st.pend + c + rest;
      assert Append(Append(st, c), rest) == Append(st, Flat(chunks));
      DrainMore(Append(st, c), rest, lim);
      DrainQuiet(Append(st, c), lim);
      ChunksMore(Drain(Append(st, c), lim).st, chunks[1..], lim);
    }
  }

  /** Whatever the cut, calls that do not throw report the one-shot framing of the stream. */
  lemma AcceptedCutFrames(chunks: seq<string>, lim: Limits)
    requires DrainAll(START, chunks, lim).Done?
    ensures DrainAll(START, chunks, lim) == Drain(Append(START, Flat(chunks)), lim)
    ensures DrainAll(START, chunks, lim).out == NonBlank(Frames(Flat(chunks)))
  {
    var s := Flat(chunks);
    NothingDrained(lim);
    ChunksMore(START, chunks, lim);
    DrainFrames(Append(START, s), lim);
    assert "" + s == s;
    FramesFromNothing(s);
  }

  lemma NothingDrained(lim: Limits)
    ensures Drain(START, lim) == Done([], START)
  {
  }

  /** The condition is exact: it holds precisely of the streams that are accepted however they are cut. */
  lemma AcceptedHoweverCut(s: string, lim: Limits)
    ensures StrictlyWithin(Append(START, s), lim)
            <==> forall chunks :: Flat(chunks) == s ==> DrainAll(START, chunks, lim).Done?
  {
    hide StrictlyWithin, DrainAll, Flat;
    if StrictlyWithin(Append(START, s), lim) {
      forall chunks | Flat(chunks) == s ensures DrainAll(START, chunks, lim).Done? {
        ChunkIndependence(chunks, lim);
      }
    } else {
      var chunks := RefusedCut(s, lim);
    }
  }

  lemma RefusedCut(s: string, lim: Limits) returns (chunks: seq<string>)
    requires !StrictlyWithin(Append(START, s), lim)
    ensures Flat(chunks) == s && DrainAll(START, chunks, lim).LimitExceeded?
  {
    hide StrictlyWithin, Drain;
    var k := BadCut(Append(START, s), lim);
    assert "" + s == s && "" + s[..k] == s[..k];
    chunks := [s[..k], s[k..]];
    assert chunks[1..] == [s[k..]] && chunks[1..][1..] == [];
    assert Flat(chunks[1..]) == s[k..] + Flat(chunks[1..][1..]);
    assert Flat(chunks) == s[..k] + s[k..] == s;
  }

  /** A line of exactly maxLine bytes is the borderline case: fine in one piece, refused when a chunk
      ends between its CR and its LF. */
  lemma LineOfExactlyMaxLine()
    ensures var lim := Limits(0, 9, 2);
            && DrainAll(START, ["OK\r\n"], lim).Done?
            && DrainAll(START, ["OK\r", "\n"], lim).LimitExceeded?
  {
    WholeLineAccepted();
    CutLineRefused();
  }

  lemma LineEndsAt()
    ensures Find("OK\r\n", CRLF, 0) == 2 && Find("OK\r", CRLF, 0) == -1 && Find("", CRLF, 0) == -1
  {
    var s := "OK\r\n";
    forall t, k | (t == s || t == "OK\r") && 0 <= k < 2 ensures !At(t, k, CRLF) {
      AtChars(t, k, CRLF);
      assert CRLF[0] == '\r' && t[k + 0] != '\r';
    }
    AtChars(s, 2, CRLF);
    hide At;
  }

  lemma WholeLineAccepted()
    ensures DrainAll(START, ["OK\r\n"], Limits(0, 9, 2)).Done?
  {
    hide Find;
    LineEndsAt();
    var lim, s := Limits(0, 9, 2), "OK\r\n";
    assert s[2 + 2..] == "" && s[..2] == "OK";
    assert Append(START, s) == St("", 0, 0, s);
    assert Drain(St("", 0, 0, ""), lim) == Done([], START);
    assert ["OK\r\n"][1..] == [];
  }

  lemma CutLineRefused()
    ensures DrainAll(START, ["OK\r", "\n"], Limits(0, 9, 2)).LimitExceeded?
  {
    hide Find;
    LineEndsAt();
    assert Append(START, "OK\r") == St("", 0, 0, "OK\r");
    assert Drain(Append(START, "OK\r"), Limits(0, 9, 2)).LimitExceeded?;
  }

  /** The size bookkeeping: what is assembled plus what is owed was announced, and is within the limit. */
  predicate Tracked(st: St, lim: Limits) {
    |st.acc| + st.literal == st.bytes <= lim.maxResponse
  }

  lemma StepTracked(st: St, lim: Limits)
    requires Tracked(st, lim)
    ensures match Step(st, lim)
            case Stop => |st.acc| + |st.pend| <= lim.maxResponse + lim.maxLine
            case Fail => true
            case Go(_, next) => Tracked(next, lim)
  {
    hide Find, LiteralAtEnd, NonBlank;
  }

  /** Bytes held after a call never exceed maxResponse + maxLine. */
  lemma {:induction false} HeldBytesBounded(st: St, lim: Limits)
    requires Tracked(st, lim) && Drain(st, lim).Done?
    ensures var st' := Drain(st, lim).st;
            Tracked(st', lim) && |st'.acc| + |st'.pend| <= lim.maxResponse + lim.maxLine
    decreases |st.pend|, st.literal
  {
    hide Step;
    StepTracked(st, lim);
    if Step(st, lim).Go? {
      HeldBytesBounded(Step(st, lim).next, lim);
    }
  }

  lemma NonBlankOne(s: string)
    ensures NonBlank([s]) == if Blank(s) then [] else [s]
  {
    assert ["OK\r\n"][1..] == [];
  }

  // ---- The parser object -------------------------------------------------------------

  datatype FeedResult = Responses(raw: seq<string>) | LimitError

  class ImapParser {
    const limits: Limits
    /** Unconsumed input, as the buffers that arrived. */
    var pending: seq<string>
    var pendingLen: nat
    /** Lines and literals of the response being assembled. */
    var parts: seq<string>
    var literalRemaining: nat
    var responseBytes: nat

    ghost predicate Valid()
      reads this
    {
      && pendingLen == |Flat(pending)|
      && Tracked(State(), limits)
    }

    ghost function State(): St
      reads this
    {
      St(Flat(parts), responseBytes, literalRemaining, Flat(pending))
    }

    constructor (limits: Limits)
      ensures Valid() && this.limits == limits && State() == START
    {
      this.limits := limits;
      pending, pendingLen, parts, literalRemaining, responseBytes := [], 0, [], 0, 0;
    }

    /** A fresh parser that is fed one chunk after another therefore computes `DrainAll(START, ...)`. */
    method Feed(chunk: string) returns (r: FeedResult)
      requires Valid()
      modifies this
      ensures match Drain(Append(old(State()), chunk), limits)
              case LimitExceeded => r == LimitError
              case Done(out, st) =>
                && r == Responses(out) && State() == st && Valid()
                && pendingLen + |Flat(parts)| <= limits.maxResponse + limits.maxLine
    {
      hide Find, LiteralAtEnd, Flat, Blank, NonBlank, Drain, After;
      FlatEmpty();
      if chunk != "" {
        FlatPush(pending, chunk);
        pending, pendingLen := pending + [chunk], pendingLen + |chunk|;
      }
      assert State() == Append(old(State()), chunk);
      ghost var whole := Drain(State(), limits);
      var responses: seq<string> := [];
      AfterNothing(whole);
      while true
        invariant Valid()
        invariant whole == After(responses, Drain(State(), limits))
        decreases |Flat(pending)|, literalRemaining
      {
        ghost var st := State();
        DrainUnfold(st, limits);
        AfterFailure(responses);
        if literalRemaining > 0 {
          if pendingLen < literalRemaining { break; }
          TakeLiteral();
          assert Step(st, limits) == Go([], State());
          AfterNothing(Drain(State(), limits));
          continue;
        }
        var line := TakeLine();
        if line.None? {
          if pendingLen > limits.maxLine { return LimitError; }
          break;
        }
        var text := line.value;
        if |text| > limits.maxLine { return LimitError; }
        match LiteralAtEnd(text) {
          case Some(size) =>
            if size > limits.maxLiteral { return LimitError; }
            if responseBytes + |text| + 2 + size > limits.maxResponse { return LimitError; }
            PushLine(text, size);
            assert Step(st, limits) == Go([], State());
            AfterNothing(Drain(State(), limits));
          case None =>
            var full := FinishResponse(text);
            assert Step(st, limits) == Go(NonBlank([full]), State());
            NonBlankOne(full);
            AfterAfter(responses, NonBlank([full]), Drain(State(), limits));
            NothingBefore(responses);
            if !Blank(full) { responses := responses + [full]; }
        }
      }
      HeldBytesBounded(State(), limits);
      assert Drain(State(), limits) == Done([], State());
      AfterDone(responses, State());
      return Responses(responses);
    }

    /** The literal that is complete joins the response. */
    method TakeLiteral()
      requires Valid() && 0 < literalRemaining <= pendingLen
      modifies this`pending, this`pendingLen, this`parts, this`literalRemaining
      ensures Valid()
      ensures var st := old(State());
              State() == St(st.acc + st.pend[..st.literal], st.bytes, 0, st.pend[st.literal..])
    {
      hide Flat;
      var lit := Take(literalRemaining);
      FlatPush(parts, lit);
      parts := parts + [lit];
      literalRemaining := 0;
    }

    /** A line that ends with a literal's length joins the response. */
    method PushLine(text: string, size: nat)
      requires pendingLen == |Flat(pending)| && |Flat(parts)| == responseBytes && literalRemaining == 0
      requires responseBytes + |text| + 2 + size <= limits.maxResponse
      modifies this`parts, this`literalRemaining, this`responseBytes
      ensures Valid()
      ensures var st := old(State());
              State() == St(st.acc + text + CRLF, st.bytes + |text| + 2 + size, size, st.pend)
    {
      hide Flat;
      responseBytes := responseBytes + |text| + 2 + size;
      FlatPush(parts, text);
      FlatPush(parts + [text], CRLF);
      assert parts + [text, CRLF] == parts + [text] + [CRLF];
      parts := parts + [text, CRLF];
      literalRemaining := size;
    }

    /** The line that ends a response. */
    method FinishResponse(text: string) returns (full: string)
      requires pendingLen == |Flat(pending)| && literalRemaining == 0
      modifies this`parts, this`responseBytes
      ensures Valid() && State() == St("", 0, 0, old(State()).pend)
      ensures full == old(State()).acc + text
    {
      FlatPush(parts, text);
      full := Flat(parts + [text]);
      parts, responseBytes := [], 0;
    }

    /** Remove and return exactly `n` bytes from the buffer list. */
    method Take(n: nat) returns (bytes: string)
      requires pendingLen == |Flat(pending)| && n <= pendingLen
      modifies this`pending, this`pendingLen
      ensures pendingLen == |Flat(pending)|
      ensures bytes == old(Flat(pending))[..n] && Flat(pending) == old(Flat(pending))[n..]
    {
      var need := n;
      bytes := "";
      while need > 0
        invariant 0 <= need <= n && need <= |Flat(pending)|
        invariant pendingLen == old(pendingLen)
        invariant bytes + Flat(pending) == old(Flat(pending)) && |bytes| == n - need
        decreases need + |pending|
      {
        var head := pending[0];
        assert bytes + Flat(pending) == bytes + head + Flat(pending[1..]);
        if |head| <= need {
          bytes := bytes + head;
          pending := pending[1..];
          need := need - |head|;
        } else {
          bytes := bytes + head[..need];
          assert head == head[..need] + head[need..];
          pending := [head[need..]] + pending[1..];
          assert Flat(pending) == head[need..] + Flat(pending[1..]);
          need := 0;
        }
      }
      pendingLen := pendingLen - n;
    }

    /** Remove and return the next line, without its CRLF; None if it is not complete yet. */
    method TakeLine() returns (line: Option<string>)
      requires pendingLen == |Flat(pending)|
      modifies this`pending, this`pendingLen
      ensures pendingLen == |Flat(pending)|
      ensures var s, i := old(Flat(pending)), Find(old(Flat(pending)), CRLF, 0);
              if i < 0 then line == None && Flat(pending) == s
              else line == Some(s[..i]) && Flat(pending) == s[i + 2..]
    {
      if pendingLen == 0 { return None; }
      if |pending| > 1 {
        var all := Flat(pending);
        pending := [all];
        assert pending[1..] == [];
      }
      var head := pending[0];
      assert pending == [head] && pending[1..] == [];
      assert Flat(pending) == head;
      var idx := Find(head, CRLF, 0);
      if idx == -1 { return None; }
      var rest := head[idx + 2..];
      line := Some(head[..idx]);
      pending := if |rest| > 0 then [rest] else [];
      pendingLen := |rest|;
      assert [rest][1..] == [];
    }
  }
}
