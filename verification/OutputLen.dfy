/** time_scale_max_output_len against what a call brings out. */
module OutputLen {
  import opened TimeScale

  /** time_scale_max_output_len */
  function MaxOutputLen(rate: real, min_pitch: nat, input_len: nat): int {
    Trunc(input_len as real * rate + min_pitch as real + 1.0)
  }

  lemma WithinMax(out: nat, rate: real, min_pitch: nat, len: nat)
    requires rate > 0.0
    ensures out <= MaxOutputLen(rate, min_pitch, len) <==> out as real <= Play(rate, len) + min_pitch as real + 1.0
  {
    NonnegativeProduct(rate, len as real);
    var x := len as real * rate + min_pitch as real + 1.0;
    assert x.Floor as real <= x < x.Floor as real + 1.0;
  }

  // ------------------------------------------------------------ at rate 1

  /** At rate 1 the promised length holds exactly when no more is buffered than
      its slack. */
  lemma MaxAtOne(fill: nat, len: nat, min_pitch: nat)
    ensures fill + len <= MaxOutputLen(1.0, min_pitch, len) <==> fill <= min_pitch + 1
  {
    WithinMax(fill + len, 1.0, min_pitch, len);
    PlayIs(1.0, len);
    hide MaxOutputLen, Play;
  }

  // -------------------------------------------------------- at other rates

  /** The most that can still be owed after a call, less the slack of the
      promised length. */
  function Reserve(r: real, min_pitch: nat): real {
    if r > 1.0 then 1.5 * (r - 1.0) - 1.0 else 0.5 * (1.0 - r) - min_pitch as real - 1.0
  }

  /** What a call brings out beyond the ideal length is what it comes to owe. */
  lemma MaxIsBalance(r: real, min_pitch: nat, len: nat, out: nat, owed: real, owed': real)
    requires r > 0.0 && out as real == Play(r, len) + owed' - owed
    ensures out <= MaxOutputLen(r, min_pitch, len) <==> owed' - owed <= min_pitch as real + 1.0
  {
    WithinMax(out, r, min_pitch, len);
    hide MaxOutputLen, Play;
  }

  /** So the promised length holds whenever enough is owed before the call. */
  lemma MaxKept(r: real, min_pitch: nat, len: nat, out: nat, owed: real, fill': nat, lcp': nat, nudge': real)
    requires r > 0.0 && r != 1.0 && -0.5 <= nudge' <= 0.5 && lcp' as real <= min_pitch as real * Comp(r) + 1.0
    requires out as real == Play(r, len) + Level(r, fill', lcp', nudge') - owed && owed >= Reserve(r, min_pitch)
    ensures out <= MaxOutputLen(r, min_pitch, len)
  {
    var g, w := (if r > 1.0 then r - 1.0 else 1.0 - r), (if r > 1.0 then 1.0 else r);
    LevelBounds(r, min_pitch, fill', lcp', nudge', g, w);
    NonnegativeProduct(r, fill' as real);
    MaxIsBalance(r, min_pitch, len, out, owed, Level(r, fill', lcp', nudge'));
    hide MaxOutputLen, Play, Level, Comp;
  }

  /** Enough is owed whenever little is buffered, whatever is promised. */
  lemma LittleBuffered(r: real, min_pitch: nat, fill: nat, lcp: nat, nudge: real)
    requires r > 0.0 && r != 1.0 && -0.5 <= nudge <= 0.5 && lcp as real <= min_pitch as real * Comp(r) + 1.0
    requires var g, w := (if r > 1.0 then r - 1.0 else 1.0 - r), (if r > 1.0 then 1.0 else r);
      r * fill as real + 2.0 * g <= 1.0 + (1.0 - w) * min_pitch as real
    ensures Level(r, fill, lcp, nudge) >= Reserve(r, min_pitch)
  {
    var g, w := (if r > 1.0 then r - 1.0 else 1.0 - r), (if r > 1.0 then 1.0 else r);
    LevelBounds(r, min_pitch, fill, lcp, nudge, g, w);
    hide Level, Comp;
    if r < 1.0 {
      assert (1.0 - w) * min_pitch as real == min_pitch as real - w * min_pitch as real;
    }
  }

  // ------------------------------------------------------- calls by course

  /** What comes out of a call whose input ends within the promise. */
  lemma NoChange(r: real, b: int, left: int, lcp: int, nudge: real, edits: seq<Edit>)
    requires r > 0.0 && r != 1.0 && b > 0 && left < lcp
    ensures var m := Copied(b, left, lcp);
      Finish(b, After(r, b, Full(left, lcp, nudge, 0), edits)) == Spent(b + left - m, lcp - m, nudge, m)
  {
    Stuck(r, b, Full(left, lcp, nudge, 0), edits);
    hide After, Copied;
  }

  /** Nothing more is edited once the input ends within the promise. */
  lemma {:induction false} Stuck(r: real, b: int, c: Course, edits: seq<Edit>)
    requires r > 0.0 && r != 1.0 && (c.Spent? || c.left < c.lcp)
    ensures After(r, b, c, edits) == c
  {
    if edits != [] {
      Stuck(r, b, c, edits[..|edits| - 1]);
    }
  }

  /** The first edit is made in any case, if the input does not end before. */
  lemma {:induction false} FirstEdit(r: real, b: int, c: Course, edits: seq<Edit>)
    requires r > 0.0 && r != 1.0 && edits != []
    ensures After(r, b, c, edits) == After(r, b, Step(r, b, edits[0].pitch, c), edits[1..])
  {
    hide Step;
    var n := |edits| - 1;
    if n == 0 {
      assert edits[..0] == [] && edits[1..] == [];
      NothingAfter(r, b, c);
      NothingAfter(r, b, Step(r, b, edits[0].pitch, c));
    } else {
      FirstEdit(r, b, c, edits[..n]);
      assert edits[..n][1..] == edits[1..][..n - 1];
    }
  }

  ghost predicate InRange(c: Course) {
    c.lcp >= 0 && -0.5 <= c.nudge <= 0.5 && (c.Full? ==> c.left >= 0)
  }

  lemma PromiseInRange(lcpf: real, nudge: real)
    requires lcpf > 0.0 && -0.5 <= nudge <= 0.5
    ensures var (l, n) := NextPromise(lcpf, nudge); l >= 0 && -0.5 <= n <= 0.5 && l as real >= lcpf - 1.0
  {
    var x := lcpf;
    assert x.Floor as real <= x < x.Floor as real + 1.0;
  }

  lemma StepGrows(r: real, b: int, p: nat, c: Course)
    requires r > 0.0 && r != 1.0 && p >= 1 && InRange(c)
    ensures InRange(Step(r, b, p, c)) && Step(r, b, p, c).out >= c.out
  {
    LeastChange(r, p);
    PromiseInRange(Stride(r, p), c.nudge);
    hide NextPromise, Stride;
  }

  /** Nothing that came out is taken back. */
  lemma {:induction false} OutGrows(r: real, b: int, c: Course, edits: seq<Edit>, max_pitch: nat, min_pitch: nat)
    requires r > 0.0 && r != 1.0 && InRange(c) && max_pitch >= 1 && Pitched(edits, max_pitch, min_pitch)
    ensures InRange(After(r, b, c, edits)) && After(r, b, c, edits).out >= c.out
  {
    hide Step;
    if edits != [] {
      var n := |edits| - 1;
      OutGrows(r, b, c, edits[..n], max_pitch, min_pitch);
      StepGrows(r, b, edits[n].pitch, After(r, b, c, edits[..n]));
    }
  }

  /** A call that goes past its promise brings all of it out, and when slowing
      down a pitch period more. */
  lemma AtLeast(r: real, b: int, left: int, lcp: int, nudge: real, edits: seq<Edit>, max_pitch: nat, min_pitch: nat)
    requires r > 0.0 && r != 1.0 && b > 0 && 0 <= lcp <= left && -0.5 <= nudge <= 0.5
    requires max_pitch >= 1 && Pitched(edits, max_pitch, min_pitch)
    requires var c := Finish(b, After(r, b, Full(left, lcp, nudge, 0), edits)); c.Spent?
    ensures var c := Finish(b, After(r, b, Full(left, lcp, nudge, 0), edits));
      edits != [] && c.out >= lcp + if r > 1.0 then edits[0].pitch else 0
  {
    var c0 := Full(left, lcp, nudge, 0);
    if edits == [] {
      NothingAfter(r, b, c0);
    } else {
      FirstEdit(r, b, c0, edits);
      var c1 := Step(r, b, edits[0].pitch, c0);
      StepGrows(r, b, edits[0].pitch, c0);
      OutGrows(r, b, c1, edits[1..], max_pitch, min_pitch);
      FinishGrows(b, After(r, b, c1, edits[1..]));
      hide After, Finish, NextPromise, Stride;
    }
  }

  lemma FinishGrows(b: int, c: Course)
    requires b > 0 && InRange(c)
    ensures Finish(b, c).out >= c.out
  {
  }

  /** A call that slows down and ends within the promise of its first edit. */
  lemma OneChange(r: real, b: int, left: int, lcp: int, nudge: real, edits: seq<Edit>)
    requires r > 1.0 && b > 0 && 0 <= lcp <= left && edits != []
    requires left - lcp < NextPromise(Stride(r, edits[0].pitch), nudge).0
    ensures var (l, n) := NextPromise(Stride(r, edits[0].pitch), nudge); var m := Copied(b, left - lcp, l);
      Finish(b, After(r, b, Full(left, lcp, nudge, 0), edits)) == Spent(b + left - lcp - m, l - m, n, lcp + edits[0].pitch + m)
  {
    hide NextPromise, Stride, After, Copied;
    var c0 := Full(left, lcp, nudge, 0);
    FirstEdit(r, b, c0, edits);
    Stuck(r, b, Step(r, b, edits[0].pitch, c0), edits[1..]);
  }

  /** One call, measured against the promised length: exactly when it holds,
      after the call at any rate; and before it at rate 1 and where the input ends
      within the promise or that of the first edit, with a condition that keeps
      it and one that breaks it otherwise. */
  method Measured(s: TimeScaleState, inp: seq<int>) returns (out: seq<int>, ghost edits: seq<Edit>)
    requires s.Valid() && s.Bounded() && Samples(inp)
    modifies s, s.buf
    ensures s.Valid() && s.Bounded() && s.playout_rate == old(s.playout_rate) && s.min_pitch == old(s.min_pitch)
    ensures s.playout_rate == 1.0 ==>
      (|out| <= MaxOutputLen(1.0, s.min_pitch, |inp|) <==> old(s.fill) <= s.min_pitch + 1)
    ensures s.playout_rate != 1.0 ==>
      (|out| <= MaxOutputLen(s.playout_rate, s.min_pitch, |inp|) <==> s.Owed() - old(s.Owed()) <= s.min_pitch as real + 1.0)
    ensures s.playout_rate != 1.0 ==> Measures(s.playout_rate, s.buf_len, s.max_pitch, s.min_pitch,
      old(s.fill), old(s.lcp), old(s.rate_nudge), |inp|, |out|, edits)
  {
    if s.playout_rate == 1.0 {
      out, edits := AtOne(s, inp);
    } else {
      out, edits := AwayFromOne(s, inp);
    }
  }

  method AtOne(s: TimeScaleState, inp: seq<int>) returns (out: seq<int>, ghost edits: seq<Edit>)
    requires s.Valid() && s.Bounded() && Samples(inp) && s.playout_rate == 1.0
    modifies s, s.buf
    ensures s.Valid() && s.Bounded() && s.playout_rate == old(s.playout_rate) && s.min_pitch == old(s.min_pitch)
    ensures |out| <= MaxOutputLen(1.0, s.min_pitch, |inp|) <==> old(s.fill) <= s.min_pitch + 1
  {
    hide *;
    Sizes(s);
    var fill := s.fill;
    out, edits := s.Scale(inp);
    assert |out| == fill + |inp|;
    MaxAtOne(fill, |inp|, s.min_pitch);
  }

  method AwayFromOne(s: TimeScaleState, inp: seq<int>) returns (out: seq<int>, ghost edits: seq<Edit>)
    requires s.Valid() && s.Bounded() && Samples(inp) && s.playout_rate != 1.0
    modifies s, s.buf
    ensures s.Valid() && s.Bounded() && s.playout_rate == old(s.playout_rate) && s.min_pitch == old(s.min_pitch)
    ensures |out| <= MaxOutputLen(s.playout_rate, s.min_pitch, |inp|) <==> s.Owed() - old(s.Owed()) <= s.min_pitch as real + 1.0
    ensures Measures(s.playout_rate, s.buf_len, s.max_pitch, s.min_pitch,
      old(s.fill), old(s.lcp), old(s.rate_nudge), |inp|, |out|, edits)
  {
    hide *;
    Sizes(s);
    ghost var fill, lcp, nudge, owed := s.fill, s.lcp, s.rate_nudge, s.Owed();
    out, edits := s.Scale(inp);
    Sizes(s);
    CallEnd(s, |out|);
    MaxIsBalance(s.playout_rate, s.min_pitch, |inp|, |out|, owed, s.Owed());
    MeasuresCall(s.playout_rate, s.buf_len, s.max_pitch, s.min_pitch, fill, lcp, nudge, |inp|, |out|, edits, s.fill, s.lcp, s.rate_nudge);
  }

  lemma Sizes(s: TimeScaleState)
    requires s.Valid() && s.Bounded()
    ensures s.buf_len > 0 && s.max_pitch >= 1 && s.playout_rate > 0.0 && 0 <= s.fill <= s.buf.Length && s.lcp >= 0 && -0.5 <= s.rate_nudge <= 0.5
    ensures s.playout_rate != 1.0 ==> s.lcp as real <= s.min_pitch as real * Comp(s.playout_rate) + 1.0
    ensures s.Owed() == Level(s.playout_rate, s.fill, s.lcp, s.rate_nudge)
  {
    hide Samples, Comp, Level;
  }

  lemma CallEnd(s: TimeScaleState, out: int)
    ensures s.Now(out, 0, true) == Spent(s.fill, s.lcp, s.rate_nudge, out)
  {
  }

  /** What is known of a call's output before it is made. */
  ghost predicate Measures(r: real, b: nat, max_pitch: nat, min_pitch: nat, fill: int, lcp: int, nudge: real,
                           len: nat, out: nat, edits: seq<Edit>)
    requires r > 0.0 && r != 1.0 && b > 0
  {
    var M, left := MaxOutputLen(r, min_pitch, len), fill + len - b;
    && (left < 0 ==> out == 0 <= M)
    && (0 <= left < lcp ==> (out <= M <==> Copied(b, left, lcp) <= M))
    && (0 <= lcp <= left ==> edits != [] && max_pitch <= edits[0].pitch <= min_pitch)
    && (edits != [] && r > 1.0 && lcp <= left && left - lcp < NextPromise(Stride(r, edits[0].pitch), nudge).0 ==>
          (out <= M <==> lcp + edits[0].pitch + Copied(b, left - lcp, NextPromise(Stride(r, edits[0].pitch), nudge).0) <= M))
    && (Level(r, fill, lcp, nudge) >= Reserve(r, min_pitch) ==> out <= M)
    && (lcp <= left && lcp + (if r > 1.0 then max_pitch else 0) > M ==> out > M)
  }

  lemma MeasuresCall(r: real, b: nat, max_pitch: nat, min_pitch: nat, fill: nat, lcp: nat, nudge: real, len: nat, out: nat,
                     edits: seq<Edit>, fill': nat, lcp': nat, nudge': real)
    requires r > 0.0 && r != 1.0 && b > 0 && max_pitch >= 1 && Pitched(edits, max_pitch, min_pitch)
    requires -0.5 <= nudge <= 0.5 && -0.5 <= nudge' <= 0.5 && lcp' as real <= min_pitch as real * Comp(r) + 1.0
    requires out as real == Play(r, len) + Level(r, fill', lcp', nudge') - Level(r, fill, lcp, nudge)
    requires Spent(fill', lcp', nudge', out) == CallCourse(r, b, fill, len, lcp, nudge, edits)
    ensures Measures(r, b, max_pitch, min_pitch, fill, lcp, nudge, len, out, edits)
  {
    hide MaxOutputLen, Play, Level, Comp, NextPromise, Stride, After, Copied, Finish, Reserve, Pitched;
    var left := fill + len - b;
    if left < 0 {
      MaxNonnegative(r, min_pitch, len);
    } else if left < lcp {
      NoChange(r, b, left, lcp, nudge, edits);
    } else {
      AtLeast(r, b, left, lcp, nudge, edits, max_pitch, min_pitch);
      FirstPitch(edits, max_pitch, min_pitch);
      if r > 1.0 && left - lcp < NextPromise(Stride(r, edits[0].pitch), nudge).0 {
        OneChange(r, b, left, lcp, nudge, edits);
      }
    }
    if Level(r, fill, lcp, nudge) >= Reserve(r, min_pitch) {
      MaxKept(r, min_pitch, len, out, Level(r, fill, lcp, nudge), fill', lcp', nudge');
    }
  }

  lemma MaxNonnegative(r: real, min_pitch: nat, len: nat)
    requires r > 0.0
    ensures 0 <= MaxOutputLen(r, min_pitch, len)
  {
    WithinMax(0, r, min_pitch, len);
    PlayIs(r, len);
    NonnegativeProduct(r, len as real);
    hide MaxOutputLen;
  }

  lemma FirstPitch(edits: seq<Edit>, max_pitch: nat, min_pitch: nat)
    requires edits != [] && Pitched(edits, max_pitch, min_pitch)
    ensures max_pitch <= edits[0].pitch <= min_pitch
  {
  }

  // -------------------------------------------------------- two runs past it

  /** What 266 samples do to a fresh state at 8000 samples a second and rate
      1.02: one period in, one buffer out, and a long promise. */
  lemma SlowedOnce(fill: int, lcp: int, nudge: real, out: int, edits: seq<Edit>)
    requires Pitched(edits, 32, 133) && Spent(fill, lcp, nudge, out) == CallCourse(1.02, 266, 0, 266, 0, 0.0, edits)
    ensures fill == 0 && lcp >= 1333
  {
    hide After, Finish, NextPromise;
    AtLeast(1.02, 266, 0, 0, 0.0, edits, 32, 133);
    var p := edits[0].pitch;
    assert Comp(1.02) == 50.0;
    assert Stride(1.02, p) >= 1600.0;
    PromiseInRange(Stride(1.02, p), 0.0);
    OneChange(1.02, 266, 0, 0, 0.0, edits);
  }

  lemma MaxOfOne()
    ensures MaxOutputLen(1.02, 133, 1) == 135
  {
    assert 1.02 + 133.0 + 1.0 == 135.02;
    assert (135.02).Floor == 135;
  }

  /** A call that runs far past it: from a fresh state at 8000 samples a second
      and rate 1.02, whatever the 266 samples of the first call and the 265 of
      the second, the one sample of the third brings out 266 where at most 135
      are announced. */
  method Overrun(first: seq<int>, second: seq<int>, x: int) returns (out: seq<int>)
    requires |first| == 266 && |second| == 265 && Samples(first) && Samples(second) && Samples([x])
    ensures |out| == 266 && MaxOutputLen(1.02, 133, 1) == 135
  {
    hide Samples, Edited, Play, Level, After, Finish, Pitched, Stride, NextPromise, Comp, MaxOutputLen;
    var s := Fresh(1.02);
    ghost var edits;
    out, edits := s.Scale(first);
    SlowedOnce(s.fill, s.lcp, s.rate_nudge, |out|, edits);
    out, edits := s.Scale(second);
    ghost var lcp, nudge := s.lcp, s.rate_nudge;
    out, edits := s.Scale([x]);
    NoChange(1.02, 266, 0, lcp, nudge, edits);
    MaxOfOne();
  }

  /** At 8000 samples a second. */
  method Fresh(rate: real) returns (s: TimeScaleState)
    requires rate > 1.01
    ensures fresh(s) && fresh(s.buf) && s.Valid() && s.playout_rate == rate && s.fill == 0 && s.lcp == 0 && s.rate_nudge == 0.0
    ensures s.min_pitch == 133 && s.max_pitch == 32 && s.buf_len == 266
  {
    hide Samples, Level, Comp;
    var t := TimeScaleState.Init(8000, rate);
    s := t;
  }

  /** And one at rate 1: from a fresh state at rate 1.5, 200 samples stay in the
      buffer, and after the change of rate every call brings them out too. */
  method OverrunAtOne(first: seq<int>, inp: seq<int>) returns (out: seq<int>)
    requires |first| == 200 && Samples(first) && Samples(inp)
    ensures |out| == 200 + |inp| > MaxOutputLen(1.0, 133, |inp|)
  {
    hide Samples, Edited, Play, Level, After, Finish, Pitched, Stride, NextPromise, Comp, MaxOutputLen;
    var s := Fresh(1.5);
    ghost var edits;
    out, edits := s.Scale(first);
    var status := s.SetRate(1.0);
    out, edits := s.Scale(inp);
    MaxAtOne(200, |inp|, 133);
  }
}
