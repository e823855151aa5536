/** The packet loss concealer of plc.c over exact reals. */
module Plc {
  import opened IntArith
  import opened RealSums
  import opened TimeScale

  const PITCH_MIN := 120
  const PITCH_MAX := 40
  const SPAN := 160
  const HISTORY_LEN := SPAN + PITCH_MIN
  const ATTENUATION := 0.0025

  function Zeros(n: nat): (z: seq<int>)
    ensures |z| == n
  {
    seq(n, _ => 0)
  }

  /** The last HISTORY_LEN samples. */
  function Last(s: seq<int>): (t: seq<int>)
    requires |s| >= HISTORY_LEN
    ensures |t| == HISTORY_LEN
  {
    s[|s| - HISTORY_LEN..]
  }

  lemma LastOfLast(s: seq<int>, t: seq<int>)
    requires |s| >= HISTORY_LEN
    ensures Last(Last(s) + t) == Last(s + t)
  {
  }

  /** Rounding to the nearest integer, ties to the even one. */
  function Rint(x: real): int {
    var f := (x + 0.5).Floor;
    if f as real == x + 0.5 && f % 2 == 1 then f - 1 else f
  }

  /** fsaturate */
  function Saturated(x: real): (v: int)
    ensures Sample(v)
  {
    if x > 32767.0 then 32767 else if x < -32768.0 then -32768 else Rint(x)
  }

  /** v is an integer nearest to x. */
  predicate Nearest(v: int, x: real) {
    v as real - 0.5 <= x <= v as real + 0.5
  }

  lemma RintNearest(x: real)
    ensures Nearest(Rint(x), x)
    ensures Rint(x) as real - x == 0.5 || x - Rint(x) as real == 0.5 ==> Rint(x) % 2 == 0
  {
    var f := (x + 0.5).Floor;
    assert f as real <= x + 0.5 < f as real + 1.0;
  }

  /** Within the range of a sample, saturating is rounding. */
  lemma SaturatedNearest(x: real)
    requires Level16(x)
    ensures Nearest(Saturated(x), x)
  {
    RintNearest(x);
  }

  /** And it leaves samples alone. */
  lemma SaturatedSample(v: int)
    requires Sample(v)
    ensures Saturated(v as real) == v
  {
    var f := (v as real + 0.5).Floor;
    assert f as real <= v as real + 0.5 < f as real + 1.0;
    assert f == v;
  }

  predicate Level16(x: real) {
    -32768.0 <= x <= 32767.0
  }

  /** The volume of a synthetic sample, after n samples of the gap. */
  function Gain(n: int): real {
    1.0 - n as real * ATTENUATION
  }

  lemma GainStep(n: int)
    ensures Gain(n) - ATTENUATION == Gain(n + 1)
  {
  }

  lemma GainFalls(m: int, n: int)
    requires m <= n
    ensures Gain(n) <= Gain(m)
  {
  }

  /** A sample of the pitch cycle at some volume; nothing once it has faded. */
  function Synthetic(cycle: seq<real>, offset: nat, n: int): int
    requires |cycle| > 0
  {
    if Gain(n) > 0.0 then Faint(cycle[offset % |cycle|], Gain(n)) else 0
  }

  function Faint(x: real, gain: real): int {
    Trunc(x * gain)
  }

  lemma SyntheticSample(cycle: seq<real>, offset: nat, n: nat)
    requires |cycle| > 0 && forall k :: 0 <= k < |cycle| ==> Level16(cycle[k])
    ensures Sample(Synthetic(cycle, offset, n))
  {
    if Gain(n) > 0.0 {
      var x, g := cycle[offset % |cycle|], Gain(n);
      assert Level16(x) && 0.0 < g <= 1.0;
      Convex(0.0, x, 1.0 - g, g, -32768.0, 32767.0);
    }
  }

  lemma NextOffset(offset: nat, pitch: nat, i: nat, o: nat)
    requires pitch > 0 && offset == (o + i) % pitch
    ensures (o + i + 1) % pitch == if offset + 1 >= pitch then 0 else offset + 1
  {
    var q := (o + i) / pitch;
    assert o + i == pitch * q + offset;
    if offset + 1 >= pitch {
      assert o + i + 1 == pitch * (q + 1);
      ModUnique(o + i + 1, pitch, q + 1, 0);
    } else {
      ModUnique(o + i + 1, pitch, q, offset + 1);
    }
  }

  function Later(a: nat, b: nat): nat {
    if a > b then a else b
  }

  /** The place in the cycle is phase, unless the gap has faded by sample n. */
  ghost predicate OnPhase(offset: nat, phase: nat, pitch: nat, n: int)
    requires pitch > 0
  {
    offset == phase % pitch || Gain(n) <= 0.0
  }

  lemma PhaseStart(quarter: nat, pitch: nat, len: nat)
    requires quarter < pitch
    ensures len < quarter ==> Later(len, quarter) % pitch == quarter
  {
    if len < quarter {
      ModUnique(quarter, pitch, 0, quarter);
    }
  }

  class PlcState {
    var missing_samples: nat
    var pitch: nat
    var pitch_offset: nat
    const pitchbuf: array<real>
    const history: array<int>
    var buf_ptr: nat
    /** Everything played so far. */
    ghost var Played: seq<int>

    /** The ring, read from buf_ptr. */
    function History(): (h: seq<int>)
      requires buf_ptr <= history.Length
      reads this`buf_ptr, history
      ensures |h| == history.Length
    {
      history[buf_ptr..] + history[..buf_ptr]
    }

    function Cycle(): (c: seq<real>)
      requires pitch <= pitchbuf.Length
      reads this`pitch, pitchbuf
      ensures |c| == pitch
    {
      pitchbuf[..pitch]
    }

    ghost predicate Valid()
      reads this, pitchbuf, history
    {
      && history.Length == HISTORY_LEN && pitchbuf.Length == PITCH_MIN && buf_ptr <= HISTORY_LEN
      && Samples(history[..]) && History() == Last(Zeros(HISTORY_LEN) + Played)
      && (missing_samples > 0 ==>
            PITCH_MAX <= pitch <= PITCH_MIN && pitch_offset < pitch && forall k :: 0 <= k < pitch ==> Level16(pitchbuf[k]))
    }

    /** plc_init */
    constructor ()
      ensures Valid() && Played == [] && missing_samples == 0
      ensures fresh(pitchbuf) && fresh(history)
    {
      missing_samples, pitch, pitch_offset, buf_ptr := 0, 0, 0, 0;
      pitchbuf := new real[PITCH_MIN](_ => 0.0);
      history := new int[HISTORY_LEN](_ => 0);
      Played := [];
      new;
      Silence(history[..]);
    }

    lemma Silence(h: seq<int>)
      requires |h| == HISTORY_LEN && forall k :: 0 <= k < HISTORY_LEN ==> h[k] == 0
      ensures Samples(h) && h[0..] + h[..0] == Last(Zeros(HISTORY_LEN) + [])
    {
      assert h == Zeros(HISTORY_LEN);
      assert Zeros(HISTORY_LEN) + [] == Zeros(HISTORY_LEN);
    }

    /** save_history: the ring moves on by buf. */
    method SaveHistory(buf: seq<int>)
      requires history.Length == HISTORY_LEN && buf_ptr <= HISTORY_LEN && Samples(history[..]) && Samples(buf)
      modifies this`buf_ptr, history
      ensures buf_ptr <= HISTORY_LEN && Samples(history[..]) && History() == Last(old(History()) + buf)
    {
      if |buf| >= HISTORY_LEN {
        SaveLast(buf);
      } else if buf_ptr + |buf| > HISTORY_LEN {
        SaveWrapped(buf);
      } else {
        SaveStraight(buf);
      }
    }

    /** Just the last part of the new data, from the beginning of the buffer. */
    method SaveLast(buf: seq<int>)
      requires history.Length == HISTORY_LEN && buf_ptr <= HISTORY_LEN && Samples(history[..]) && Samples(buf) && |buf| >= HISTORY_LEN
      modifies this`buf_ptr, history
      ensures buf_ptr == 0 && Samples(history[..]) && History() == Last(old(History()) + buf)
    {
      hide Samples;
      ghost var h, len := history[..], |buf|;
      Load(history, 0, buf[|buf| - HISTORY_LEN..]);
      buf_ptr := 0;
      LoadedSamples(h, history[..], 0, buf, len - HISTORY_LEN, HISTORY_LEN);
      assert history[..] == buf[len - HISTORY_LEN..];
    }

    /** In two sections, around the end of the buffer. */
    method SaveWrapped(buf: seq<int>)
      requires history.Length == HISTORY_LEN && buf_ptr <= HISTORY_LEN && Samples(history[..]) && Samples(buf)
      requires |buf| < HISTORY_LEN < buf_ptr + |buf|
      modifies this`buf_ptr, history
      ensures buf_ptr <= HISTORY_LEN && Samples(history[..]) && History() == Last(old(History()) + buf)
    {
      ghost var h, p := history[..], buf_ptr;
      assert History() == h[p..] + h[..p];
      hide Samples, Last;
      var n := HISTORY_LEN - buf_ptr;
      LoadPart(buf_ptr, buf, 0, n);
      ghost var h1 := history[..];
      assert h1[p..] == h1[p..p + n] == buf[..n];
      LoadPart(0, buf, n, |buf| - n);
      assert history[..][..|buf| - n] == buf[n..] && history[..][|buf| - n..] == h1[|buf| - n..];
      Wrapped(h, h1, history[..], p, buf);
      buf_ptr := |buf| - n;
    }

    /** n samples from from on go to position to. */
    method LoadPart(to: nat, buf: seq<int>, from: nat, n: nat)
      requires to + n <= history.Length && from + n <= |buf| && Samples(history[..]) && Samples(buf)
      modifies history
      ensures Samples(history[..]) && history[..to] == old(history[..to]) && history[to..to + n] == buf[from..from + n]
      ensures history[to + n..] == old(history[to + n..])
    {
      hide *;
      ghost var h := history[..];
      Load(history, to, buf[from..from + n]);
      LoadedSamples(h, history[..], to, buf, from, n);
    }

    /** In one section. */
    method SaveStraight(buf: seq<int>)
      requires history.Length == HISTORY_LEN && buf_ptr + |buf| <= HISTORY_LEN && Samples(history[..]) && Samples(buf)
      modifies this`buf_ptr, history
      ensures buf_ptr <= HISTORY_LEN && Samples(history[..]) && History() == Last(old(History()) + buf)
    {
      hide Samples, Last;
      ghost var h := history[..];
      Load(history, buf_ptr, buf);
      LoadedSamples(h, history[..], buf_ptr, buf, 0, |buf|);
      Straight(h, history[..], buf_ptr, buf);
      buf_ptr := buf_ptr + |buf|;
    }

    lemma Wrapped(h: seq<int>, h1: seq<int>, h2: seq<int>, p: nat, buf: seq<int>)
      requires |h| == |h1| == |h2| == HISTORY_LEN && p <= HISTORY_LEN && |buf| < HISTORY_LEN && p + |buf| > HISTORY_LEN
      requires var n := HISTORY_LEN - p;
        && h1[..p] == h[..p] && h1[p..] == buf[..n] && h2[..|buf| - n] == buf[n..] && h2[|buf| - n..] == h1[|buf| - n..]
      ensures var q := |buf| - (HISTORY_LEN - p); h2[q..] + h2[..q] == Last(h[p..] + h[..p] + buf)
    {
      var n := HISTORY_LEN - p;
      var q := |buf| - n;
      assert h2[q..] == h1[q..p] + h1[p..] && h1[q..p] == h[q..p];
      assert buf == buf[..n] + buf[n..];
      assert h[p..] + h[..p] + buf == (h[p..] + h[..q]) + (h[q..p] + buf);
    }

    lemma Straight(h: seq<int>, h1: seq<int>, p: nat, buf: seq<int>)
      requires |h| == |h1| == HISTORY_LEN && p + |buf| <= HISTORY_LEN
      requires h1[..p] == h[..p] && h1[p..p + |buf|] == buf && h1[p + |buf|..] == h[p + |buf|..]
      ensures var q := p + |buf|; h1[q..] + h1[..q] == Last(h[p..] + h[..p] + buf)
    {
      var q := p + |buf|;
      assert h1[..q] == h[..p] + buf;
      assert h[p..] == h[p..q] + h[q..];
      assert h[p..] + h[..p] + buf == h[p..q] + (h[q..] + (h[..p] + buf));
    }

    /** normalise_history: turns the ring so that it starts at 0. */
    method NormaliseHistory()
      requires history.Length == HISTORY_LEN && buf_ptr <= HISTORY_LEN && Samples(history[..])
      modifies this`buf_ptr, history
      ensures buf_ptr == 0 && Samples(history[..]) && History() == old(History()) && history[..] == History()
    {
      hide Samples;
      if buf_ptr != 0 {
        SwapParts();
        buf_ptr := 0;
      }
      assert history[0..] + history[..0] == history[..];
    }

    /** The part up to buf_ptr goes behind the rest. */
    method SwapParts()
      requires history.Length == HISTORY_LEN && buf_ptr <= HISTORY_LEN && Samples(history[..])
      modifies history
      ensures Samples(history[..]) && history[..] == old(History())
    {
      hide Samples;
      ghost var h, p := history[..], buf_ptr;
      assert History() == h[p..] + h[..p];
      hide *;
      var tmp := history[..buf_ptr];
      assert tmp == h[..p] == h[0..0 + p];
      MoveDown();
      ghost var h1 := history[..];
      Load(history, HISTORY_LEN - buf_ptr, tmp);
      LoadedSamples(h1, history[..], HISTORY_LEN - p, h, 0, p);
      TurnedRing(h, h1, history[..], p);
    }

    method MoveDown()
      requires history.Length == HISTORY_LEN && buf_ptr <= HISTORY_LEN && Samples(history[..])
      modifies history
      ensures Samples(history[..]) && history[..HISTORY_LEN - buf_ptr] == old(history[buf_ptr..])
    {
      hide *;
      ghost var h := history[..];
      Move(history, 0, buf_ptr, HISTORY_LEN - buf_ptr);
      MovedSamples(h, history[..], 0, buf_ptr, HISTORY_LEN - buf_ptr);
    }

    lemma TurnedRing(h: seq<int>, h1: seq<int>, h2: seq<int>, p: nat)
      requires |h| == |h1| == |h2| == HISTORY_LEN && p <= HISTORY_LEN && h1[..HISTORY_LEN - p] == h[p..]
      requires h2[..HISTORY_LEN - p] == h1[..HISTORY_LEN - p] && h2[HISTORY_LEN - p..HISTORY_LEN - p + p] == h[..p]
      ensures h2 == h[p..] + h[..p]
    {
    }
  
    // ------------------------------------------------------------ receiving

    /** The next sample of the pitch cycle comes up. */
    method Turn()
      requires pitch_offset < pitch
      modifies this`pitch_offset
      ensures pitch_offset == if old(pitch_offset) + 1 >= pitch then 0 else old(pitch_offset) + 1
    {
      pitch_offset := pitch_offset + 1;
      if pitch_offset >= pitch {
        pitch_offset := 0;
      }
    }

    /** plc_rx: real samples; after a gap the first of them are faded in over the
        synthetic signal. */
    method Rx(amp: array<int>)
      requires Valid() && Samples(amp[..]) && amp != history
      modifies this, history, amp
      ensures Valid() && missing_samples == 0 && Samples(amp[..]) && Played == old(Played) + amp[..]
      ensures old(missing_samples) == 0 ==> amp[..] == old(amp[..])
      ensures old(missing_samples) > 0 ==>
        var n := Overlap(old(pitch), amp.Length);
        && amp[n..] == old(amp[n..])
        && forall k :: 0 <= k < n ==>
             amp[k] == FadedIn(old(Cycle()), old(pitch_offset), old(missing_samples), n, old(amp[..]), k)
      ensures old(missing_samples) > 0 ==>
        Resumed(old(amp[..]), amp[..], old(Cycle()), old(pitch_offset), old(missing_samples), Overlap(old(pitch), amp.Length))
      ensures History() == Last(old(History()) + amp[..])
    {
      if missing_samples > 0 {
        var n := pitch / 4;
        if n > amp.Length {
          n := amp.Length;
        }
        ghost var s := amp[..];
        FadeIn(amp, n);
        IsResumed(s, amp[..], old(Cycle()), old(pitch_offset), missing_samples, n);
        missing_samples := 0;
      }
      Keep(amp[..]);
    }

    /** Remembers what was played. */
    method Keep(buf: seq<int>)
      requires Valid() && Samples(buf)
      modifies this`buf_ptr, this`Played, history
      ensures Valid() && Played == old(Played) + buf && History() == Last(old(History()) + buf)
    {
      hide Samples, Last;
      LastOfLast(Zeros(HISTORY_LEN) + Played, buf);
      assert Zeros(HISTORY_LEN) + (Played + buf) == Zeros(HISTORY_LEN) + Played + buf;
      SaveHistory(buf);
      Played := Played + buf;
    }

    /** The start of the real data, overlapped with a quarter of a cycle. */
    method FadeIn(amp: array<int>, n: nat)
      requires Valid() && Samples(amp[..]) && missing_samples > 0 && n == Overlap(pitch, amp.Length) && amp != history
      modifies this`pitch_offset, amp
      ensures Valid() && Samples(amp[..]) && amp[n..] == old(amp[n..])
      ensures forall k :: 0 <= k < n ==>
        amp[k] == FadedIn(Cycle(), old(pitch_offset), missing_samples, n, old(amp[..]), k)
    {
      hide Samples, Last, Sample, Level16, Share, Gain, Blend, OldWeight, FadedIn, Valid, InStep;
      Sizes();
      if n > 0 {
        FadeLoop(amp, n);
        FadedInSamples(old(amp[..]), amp[..], Cycle(), old(pitch_offset), missing_samples, n);
        StillValid();
      }
    }

    method FadeLoop(amp: array<int>, n: nat)
      requires 0 < n <= amp.Length && pitch_offset < pitch <= pitchbuf.Length && missing_samples > 0
      modifies this`pitch_offset, amp
      ensures pitch_offset < pitch
      ensures forall k :: 0 <= k < n ==> amp[k] == FadedIn(Cycle(), old(pitch_offset), missing_samples, n, old(amp[..]), k)
      ensures forall k :: n <= k < amp.Length ==> amp[k] == old(amp[k])
    {
      hide Share, Gain, Blend, OldWeight, FadedIn, InStep;
      ghost var s, o := amp[..], pitch_offset;
      var gain, new_weight, old_weight, new_step, old_step := Weights(missing_samples, n);
      TurnStart(o, pitch);
      for i := 0 to n
        modifies this`pitch_offset, amp
        invariant pitch_offset < pitch && Turned(pitch_offset, o, i, pitch)
        invariant new_weight == Share(i + 1, n) && (i < n ==> old_weight == OldWeight(i + 1, n, gain))
        invariant forall k :: 0 <= k < i ==> amp[k] == FadedIn(Cycle(), o, missing_samples, n, s, k)
        invariant forall k :: i <= k < amp.Length ==> amp[k] == s[k]
      {
        var v := Blend(old_weight, pitchbuf[pitch_offset], new_weight, amp[i]);
        FadedInIs(Cycle(), o, missing_samples, n, s, i, pitch_offset);
        amp[i] := v;
        TurnedNext(pitch_offset, o, i, pitch);
        Turn();
        NextWeights(n, gain, i + 1, new_step, old_step);
        new_weight := new_weight + new_step;
        old_weight := old_weight - old_step;
        if old_weight < 0.0 {
          old_weight := 0.0;
        }
      }
    }

    // ------------------------------------------------------------ filling in

    /** Repeats the decaying cycle from sample at on, then silence. */
    method Repeat(amp: array<int>, at: nat, len: nat, n0: nat)
      requires at <= len <= amp.Length && pitch_offset < pitch <= pitchbuf.Length
      modifies this`pitch_offset, amp
      ensures pitch_offset < pitch && amp[..at] == old(amp[..at]) && amp[len..] == old(amp[len..])
      ensures forall k {:trigger amp[k]} :: at <= k < len ==> amp[k] == Synthetic(Cycle(), old(pitch_offset) + (k - at), n0 + (k - at))
      ensures Turned(pitch_offset, old(pitch_offset), len - at, pitch) || Gain(n0 + (len - at)) <= 0.0
    {
      hide Gain, Synthetic, Turned;
      ghost var s, o := amp[..], pitch_offset;
      var i := Sound(amp, at, len, n0);
      ghost var quiet := i;
      GainFalls(n0 + (i - at), n0 + (len - at));
      while i < len
        modifies amp
        invariant quiet <= i <= len && (quiet < len ==> Gain(n0 + (quiet - at)) <= 0.0)
        invariant forall k {:trigger amp[k]} :: at <= k < i ==> amp[k] == Synthetic(Cycle(), o + (k - at), n0 + (k - at))
        invariant forall k :: 0 <= k < at || i <= k < amp.Length ==> amp[k] == s[k]
      {
        StaysQuiet(Cycle(), o + (i - at), n0 + (quiet - at), n0 + (i - at));
        amp[i] := 0;
        i := i + 1;
      }
    }

    /** As long as there is any volume. */
    method Sound(amp: array<int>, at: nat, len: nat, n0: nat) returns (i: nat)
      requires at <= len <= amp.Length && pitch_offset < pitch <= pitchbuf.Length
      modifies this`pitch_offset, amp
      ensures at <= i <= len && pitch_offset < pitch && (i < len ==> Gain(n0 + (i - at)) <= 0.0)
      ensures Turned(pitch_offset, old(pitch_offset), i - at, pitch)
      ensures forall k {:trigger amp[k]} :: at <= k < i ==> amp[k] == Synthetic(Cycle(), old(pitch_offset) + (k - at), n0 + (k - at))
      ensures forall k :: 0 <= k < at || i <= k < amp.Length ==> amp[k] == old(amp[k])
    {
      hide Gain, Synthetic, Turned, Faint;
      ghost var s, o := amp[..], pitch_offset;
      var gain := Gain(n0);
      i := at;
      TurnStart(o, pitch);
      while gain > 0.0 && i < len
        invariant at <= i <= len && pitch_offset < pitch && Turned(pitch_offset, o, i - at, pitch) && gain == Gain(n0 + (i - at))
        invariant forall k {:trigger amp[k]} :: at <= k < i ==> amp[k] == Synthetic(Cycle(), o + (k - at), n0 + (k - at))
        invariant forall k :: 0 <= k < at || i <= k < amp.Length ==> amp[k] == s[k]
        decreases len - i
      {
        var v := Faint(pitchbuf[pitch_offset], gain);
        Sounding(Cycle(), o, i - at, n0 + (i - at), pitch_offset, gain);
        amp[i] := v;
        GainStep(n0 + (i - at));
        gain := gain - ATTENUATION;
        TurnedNext(pitch_offset, o, i - at, pitch);
        Turn();
        i := i + 1;
      }
    }

    /** One cycle of pitch from the end of the history, its last quarter blended
        into the end of the cycle before. */
    method CookCycle(h: seq<int>)
      requires |h| == HISTORY_LEN && h == history[..] && pitchbuf.Length == PITCH_MIN && PITCH_MAX <= pitch <= PITCH_MIN
      modifies pitchbuf
      ensures forall k :: 0 <= k < pitch ==> pitchbuf[k] == CycleAt(h, pitch, k)
    {
      hide Share, Mixed;
      var overlap := pitch / 4;
      for i := 0 to pitch - overlap
        invariant forall k :: 0 <= k < i ==> pitchbuf[k] == CycleAt(h, pitch, k)
      {
        pitchbuf[i] := history[HISTORY_LEN - pitch + i] as real;
      }
      var new_step := 1.0 / overlap as real;
      var new_weight := new_step;
      FirstShare(overlap);
      for i := pitch - overlap to pitch
        invariant new_weight == Share(i - (pitch - overlap) + 1, overlap)
        invariant forall k :: 0 <= k < i ==> pitchbuf[k] == CycleAt(h, pitch, k)
      {
        pitchbuf[i] := Mixed(history[HISTORY_LEN - pitch + i], history[HISTORY_LEN - 2 * pitch + i], new_weight);
        NextShare(overlap, i - (pitch - overlap) + 1);
        new_weight := new_weight + new_step;
      }
    }

    /** The first quarter cycle of the gap, blended with the history reversed. */
    method Onset(amp: array<int>, h: seq<int>)
      requires |h| == HISTORY_LEN && h == history[..] && PITCH_MAX <= pitch <= PITCH_MIN == pitchbuf.Length && pitch / 4 <= amp.Length
      requires amp != history
      modifies amp
      ensures forall k :: 0 <= k < pitch / 4 ==> amp[k] == OnsetAt(h, pitchbuf[..], pitch / 4, k)
      ensures amp[pitch / 4..] == old(amp[pitch / 4..])
    {
      hide Share, Overlapped;
      ghost var s := amp[..];
      var overlap := pitch / 4;
      var new_step := 1.0 / overlap as real;
      var new_weight, old_weight := new_step, 1.0 - new_step;
      FirstShare(overlap);
      for i := 0 to overlap
        invariant new_weight == Share(i + 1, overlap) && (i < overlap ==> old_weight == 1.0 - Share(i + 1, overlap))
        invariant forall k :: 0 <= k < i ==> amp[k] == OnsetAt(h, pitchbuf[..], overlap, k)
        invariant forall k :: i <= k < amp.Length ==> amp[k] == s[k]
      {
        amp[i] := Overlapped(old_weight, history[HISTORY_LEN - 1 - i], new_weight, pitchbuf[i]);
        NextShare(overlap, i + 1);
        new_weight := new_weight + new_step;
        old_weight := old_weight - new_step;
        if old_weight < 0.0 {
          old_weight := 0.0;
        }
      }
    }

    /** The pitch of the history, and one synthetic cycle of it. */
    method StartGap() returns (ghost h: seq<int>)
      requires Valid()
      requires missing_samples == 0
      modifies this`pitch, this`buf_ptr, history, pitchbuf
      ensures Valid() && missing_samples == old(missing_samples) && h == old(History()) == history[..] == History()
      ensures PitchOf(pitch, h, PITCH_MAX, PITCH_MIN, SPAN) && PITCH_MAX <= pitch <= PITCH_MIN
      ensures forall k :: 0 <= k < pitch ==> pitchbuf[k] == CycleAt(h, pitch, k) && Level16(pitchbuf[k])
    {
      hide Samples, Last, Amdf, Level16;
      NormaliseHistory();
      h := history[..];
      pitch := AmdfPitch(PITCH_MIN, PITCH_MAX, history[..], SPAN);
      CookCycle(history[..]);
      CycleLevels(h, pitch, pitchbuf[..]);
      assert forall k :: 0 <= k < pitchbuf.Length ==> pitchbuf[k] == pitchbuf[..][k];
    }

    /** plc_fillin: len samples for what is missing. */
    method Fillin(amp: array<int>, len: nat)
      requires Valid() && len <= amp.Length && PITCH_MIN / 4 <= amp.Length && amp != history
      modifies this, history, pitchbuf, amp
      ensures Valid() && missing_samples == old(missing_samples) + len && Samples(amp[..len]) && Played == old(Played) + amp[..len]
      ensures History() == Last(old(History()) + amp[..len])
      ensures old(missing_samples) > 0 ==> pitch == old(pitch) && Cycle() == old(Cycle())
      ensures old(missing_samples) > 0 ==>
        OnPhase(pitch_offset, old(pitch_offset) + len, pitch, missing_samples)
        && forall k {:trigger amp[k]} :: 0 <= k < len ==> amp[k] == Synthetic(Cycle(), old(pitch_offset) + k, old(missing_samples) + k)
      ensures old(missing_samples) == 0 ==>
        && PitchOf(pitch, old(History()), PITCH_MAX, PITCH_MIN, SPAN) && (forall k :: 0 <= k < pitch ==> Cycle()[k] == CycleAt(old(History()), pitch, k))
        && (forall k :: 0 <= k < len && k < pitch / 4 ==> amp[k] == OnsetAt(old(History()), pitchbuf[..], pitch / 4, k))
        && (forall k {:trigger amp[k]} :: pitch / 4 <= k < len ==> amp[k] == Synthetic(Cycle(), k, k - pitch / 4))
        && OnPhase(pitch_offset, Later(len, pitch / 4), pitch, len)
    {
      hide Samples, Last, Amdf, Level16, Synthetic, OnsetAt, CycleAt, PitchOf, OnPhase;
      if missing_samples == 0 {
        FillOnset(amp, len);
      } else {
        FillMore(amp, len);
      }
      missing_samples := missing_samples + len;
      Keep(amp[..len]);
    }

    /** The first call of a gap. */
    method FillOnset(amp: array<int>, len: nat)
      requires Valid() && missing_samples == 0 && len <= amp.Length && PITCH_MIN / 4 <= amp.Length && amp != history
      modifies this`pitch, this`pitch_offset, this`buf_ptr, history, pitchbuf, amp
      ensures Valid() && Samples(amp[..len]) && pitch_offset < pitch && History() == old(History())
      ensures PitchOf(pitch, old(History()), PITCH_MAX, PITCH_MIN, SPAN) && PITCH_MAX <= pitch <= PITCH_MIN && forall k :: 0 <= k < pitch ==> Level16(pitchbuf[k])
      ensures forall k :: 0 <= k < pitch ==> pitchbuf[k] == CycleAt(old(History()), pitch, k)
      ensures forall k :: 0 <= k < len && k < pitch / 4 ==> amp[k] == OnsetAt(old(History()), pitchbuf[..], pitch / 4, k)
      ensures forall k {:trigger amp[k]} :: pitch / 4 <= k < len ==> amp[k] == Synthetic(Cycle(), k, k - pitch / 4)
      ensures OnPhase(pitch_offset, Later(len, pitch / 4), pitch, len)
    {
      hide Samples, Last, Amdf, Level16, Synthetic, OnsetAt, CycleAt, PitchOf, OnPhase;
      ghost var h := StartGap();
      label L:
      assert history.Length == HISTORY_LEN && pitchbuf.Length == PITCH_MIN;
      hide Valid;
      Onset(amp, history[..]);
      FillCycle(amp, len, h);
      StillValid@L();
      ghost var t := amp[..len];
      assert forall k :: 0 <= k < len ==> t[k] == amp[k];
      GapSamples(h, pitchbuf[..], pitch, t);
    }

    method FillCycle(amp: array<int>, len: nat, ghost h: seq<int>)
      requires len <= amp.Length && PITCH_MAX <= pitch <= PITCH_MIN == pitchbuf.Length && PITCH_MIN / 4 <= amp.Length && |h| == HISTORY_LEN
      requires forall k :: 0 <= k < pitch / 4 ==> amp[k] == OnsetAt(h, pitchbuf[..], pitch / 4, k)
      modifies this`pitch_offset, amp
      ensures pitch_offset < pitch
      ensures forall k :: 0 <= k < pitch / 4 ==> amp[k] == OnsetAt(h, pitchbuf[..], pitch / 4, k)
      ensures forall k {:trigger amp[k]} :: pitch / 4 <= k < len ==> amp[k] == Synthetic(Cycle(), k, k - pitch / 4)
      ensures OnPhase(pitch_offset, Later(len, pitch / 4), pitch, len)
    {
      hide Synthetic, OnsetAt, Gain;
      PhaseStart(pitch / 4, pitch, len);
      var overlap := pitch / 4;
      pitch_offset := overlap;
      if overlap <= len {
        ghost var s := amp[..overlap];
        Repeat(amp, overlap, len, 0);
        GainFalls(len - overlap, len);
        assert forall k :: 0 <= k < overlap ==> amp[k] == amp[..overlap][k] == s[k];
      }
    }

    /** Later calls of a gap. */
    method FillMore(amp: array<int>, len: nat)
      requires Valid() && missing_samples > 0 && len <= amp.Length && amp != history
      modifies this`pitch_offset, amp
      ensures Valid() && Samples(amp[..len]) && pitch_offset < pitch && Cycle() == old(Cycle())
      ensures forall k {:trigger amp[k]} :: 0 <= k < len ==> amp[k] == Synthetic(Cycle(), old(pitch_offset) + k, missing_samples + k)
      ensures OnPhase(pitch_offset, old(pitch_offset) + len, pitch, missing_samples + len)
    {
      hide Samples, Last, Level16, Synthetic, Gain;
      Repeat(amp, 0, len, missing_samples);
      SyntheticSamples(Cycle(), old(pitch_offset), missing_samples, amp[..len]);
    }

    lemma Sizes()
      requires Valid() && missing_samples > 0
      ensures history.Length == HISTORY_LEN && pitchbuf.Length == PITCH_MIN && 0 < pitch <= PITCH_MIN && pitch_offset < pitch
    {
    }

    twostate lemma StillValid()
      requires old(Valid()) && pitch_offset < pitch && missing_samples == old(missing_samples) && pitch == old(pitch)
      requires buf_ptr == old(buf_ptr) && Played == old(Played) && history[..] == old(history[..]) && pitchbuf[..] == old(pitchbuf[..])
      ensures Valid()
    {
      hide Samples, Last;
      assert forall k :: 0 <= k < pitchbuf.Length ==> pitchbuf[k] == pitchbuf[..][k];
    }
  }

  /** The weight of the synthetic signal. */
  function OldWeight(i: int, n: int, gain: real): real
    requires n > 0
  {
    (1.0 - Share(i, n)) * gain
  }

  /** One sample of an overlap. */
  function Blend(w: real, x: real, v: real, y: int): int {
    Saturated(w * x + v * y as real)
  }

  /** The offset i samples after o. */
  predicate Turned(offset: nat, o: nat, i: nat, pitch: nat) {
    pitch > 0 && offset == (o + i) % pitch
  }

  lemma TurnStart(o: nat, pitch: nat)
    requires o < pitch
    ensures Turned(o, o, 0, pitch)
  {
  }

  lemma TurnedNext(offset: nat, o: nat, i: nat, pitch: nat)
    requires Turned(offset, o, i, pitch)
    ensures Turned(if offset + 1 >= pitch then 0 else offset + 1, o, i + 1, pitch)
  {
    NextOffset(offset, pitch, i, o);
  }

  /** The steps of a fade over n samples at some gain. */
  predicate InStep(n: nat, gain: real, new_step: real, old_step: real) {
    n > 0 && gain >= 0.0 && new_step == 1.0 / n as real && old_step == new_step * gain
  }

  method Weights(missing: nat, n: nat) returns (gain: real, new_weight: real, old_weight: real, new_step: real, old_step: real)
    requires n > 0
    ensures gain == (if Gain(missing) < 0.0 then 0.0 else Gain(missing)) && InStep(n, gain, new_step, old_step)
    ensures new_weight == Share(1, n) && old_weight == OldWeight(1, n, gain)
  {
    gain := Gain(missing);
    if gain < 0.0 {
      gain := 0.0;
    }
    new_step := 1.0 / n as real;
    old_step := new_step * gain;
    new_weight := new_step;
    FirstShare(n);
    old_weight := OldWeight(1, n, gain);
  }

  lemma FadedInIs(cycle: seq<real>, offset: nat, missing: nat, n: nat, amp: seq<int>, k: nat, at: nat)
    requires |cycle| > 0 && k < n <= |amp| && Turned(at, offset, k, |cycle|)
    ensures at < |cycle|
    ensures var gain := if Gain(missing) < 0.0 then 0.0 else Gain(missing);
      FadedIn(cycle, offset, missing, n, amp, k) == Blend(OldWeight(k + 1, n, gain), cycle[at], Share(k + 1, n), amp[k])
  {
    hide Blend, OldWeight, Share, Gain;
  }

  /** A quarter of a cycle, or all there is. */
  function Overlap(pitch: nat, len: nat): (n: nat)
    ensures n <= len
  {
    if pitch / 4 > len then len else pitch / 4
  }

  /** i of n steps of a fade. */
  function Share(i: int, n: int): real
    requires n > 0
  {
    i as real / n as real
  }

  /** Sample k of the fade from the synthetic to the real signal. */
  function FadedIn(cycle: seq<real>, offset: nat, missing: nat, n: nat, amp: seq<int>, k: nat): int
    requires |cycle| > 0 && k < n <= |amp|
  {
    var gain := if Gain(missing) < 0.0 then 0.0 else Gain(missing);
    Blend(OldWeight(k + 1, n, gain), cycle[(offset + k) % |cycle|], Share(k + 1, n), amp[k])
  }

  /** The volume at which the synthetic signal is faded out. */
  function Volume(missing: nat): real {
    if missing < 400 then 1.0 - missing as real / 400.0 else 0.0
  }

  /** i of n steps from a to b. */
  function OnTheWay(a: real, b: real, i: int, n: int): real
    requires n > 0
  {
    a + (b - a) * i as real / n as real
  }

  /** What a faded sample is: nearest to the point k + 1 of n on the way from
      the synthetic sample, at the volume it has come down to, to the real one.
      The last is the real one. */
  lemma FadedInMeans(cycle: seq<real>, offset: nat, missing: nat, n: nat, amp: seq<int>, k: nat)
    requires |cycle| > 0 && k < n <= |amp| && Sample(amp[k]) && Level16(cycle[(offset + k) % |cycle|])
    ensures var a := RealTimes(Volume(missing), cycle[(offset + k) % |cycle|]);
      && Nearest(FadedIn(cycle, offset, missing, n, amp, k), OnTheWay(a, amp[k] as real, k + 1, n))
      && (k == n - 1 ==> FadedIn(cycle, offset, missing, n, amp, k) == amp[k])
  {
    hide *;
    var c, g, w := cycle[(offset + k) % |cycle|], Volume(missing), Share(k + 1, n);
    FadedInAs(cycle, offset, missing, n, amp, k);
    Levels(c, g, amp[k], w, missing, k + 1, n);
    SaturatedNearest(Between(RealTimes(g, c), amp[k] as real, w));
    SaturatedSample(amp[k]);
    BetweenIs(RealTimes(g, c), amp[k] as real, k + 1, n);
  }

  /** The synthetic signal fades into the real one s over n samples: sample k is
      nearest to the point k + 1 of n on the way between them, and the last one
      is real again. */
  ghost predicate Resumed(s: seq<int>, t: seq<int>, cycle: seq<real>, offset: nat, missing: nat, n: nat) {
    && |s| == |t| && n <= |s| && |cycle| > 0
    && (n > 0 ==> t[n - 1] == s[n - 1])
    && forall k :: 0 <= k < n ==>
         Nearest(t[k], OnTheWay(RealTimes(Volume(missing), cycle[(offset + k) % |cycle|]), s[k] as real, k + 1, n))
  }

  lemma IsResumed(s: seq<int>, t: seq<int>, cycle: seq<real>, offset: nat, missing: nat, n: nat)
    requires Samples(s) && |s| == |t| && n <= |s| && |cycle| > 0 && forall k :: 0 <= k < |cycle| ==> Level16(cycle[k])
    requires forall k :: 0 <= k < n ==> t[k] == FadedIn(cycle, offset, missing, n, s, k)
    ensures Resumed(s, t, cycle, offset, missing, n)
  {
    hide FadedIn, Sample, Level16, Nearest, Volume, RealTimes, OnTheWay;
    forall k | 0 <= k < n
      ensures Nearest(t[k], OnTheWay(RealTimes(Volume(missing), cycle[(offset + k) % |cycle|]), s[k] as real, k + 1, n))
           && (k == n - 1 ==> t[k] == s[k])
    {
      FadedInMeans(cycle, offset, missing, n, s, k);
    }
  }

  /** So every faded sample lies, up to rounding, between the two signals. */
  lemma ResumedBetween(s: seq<int>, t: seq<int>, cycle: seq<real>, offset: nat, missing: nat, n: nat, k: nat)
    requires Resumed(s, t, cycle, offset, missing, n) && k < n
    ensures var a, b := RealTimes(Volume(missing), cycle[(offset + k) % |cycle|]), s[k] as real;
      (if a < b then a else b) - 0.5 <= t[k] as real <= (if a < b then b else a) + 0.5
  {
    hide RealTimes, Volume;
    var a, b := RealTimes(Volume(missing), cycle[(offset + k) % |cycle|]), s[k] as real;
    hide OnTheWay;
    BetweenBoth(a, b, k + 1, n);
  }

  lemma BetweenBoth(a: real, b: real, i: int, n: int)
    requires 0 <= i <= n && n > 0
    ensures (if a < b then a else b) <= OnTheWay(a, b, i, n) <= (if a < b then b else a)
  {
    ShareRange(i, n);
    BetweenIs(a, b, i, n);
    hide Share, OnTheWay;
    Convex(a, b, 1.0 - Share(i, n), Share(i, n), if a < b then a else b, if a < b then b else a);
  }

  /** After 400 missing samples the real signal comes up out of silence. */
  lemma ResumedFromSilence(s: seq<int>, t: seq<int>, cycle: seq<real>, offset: nat, missing: nat, n: nat, k: nat)
    requires Resumed(s, t, cycle, offset, missing, n) && k < n && missing >= 400
    ensures Nearest(t[k], Portion(s[k], k + 1, n))
  {
    hide RealTimes, OnTheWay, Nearest, Portion;
    FromSilence(cycle[(offset + k) % |cycle|], s[k], k + 1, n);
  }

  /** i of n parts of x. */
  function Portion(x: int, i: int, n: int): real
    requires n > 0
  {
    (x * i) as real / n as real
  }

  lemma FromSilence(c: real, x: int, i: int, n: int)
    requires n > 0
    ensures OnTheWay(RealTimes(0.0, c), x as real, i, n) == Portion(x, i, n)
  {
    assert RealTimes(0.0, c) == 0.0;
  }

  /** The point w of the way from a to b. */
  function Between(a: real, b: real, w: real): real {
    a * (1.0 - w) + b * w
  }

  lemma FadedInAs(cycle: seq<real>, offset: nat, missing: nat, n: nat, amp: seq<int>, k: nat)
    requires |cycle| > 0 && k < n <= |amp|
    ensures var c, g, w := cycle[(offset + k) % |cycle|], Volume(missing), Share(k + 1, n);
      FadedIn(cycle, offset, missing, n, amp, k) == Saturated(Between(RealTimes(g, c), amp[k] as real, w))
  {
    hide Share, Saturated, Gain, Volume, OldWeight, Blend, Between, RealTimes;
    VolumeIs(missing);
    BlendIs(k + 1, n, Volume(missing), cycle[(offset + k) % |cycle|], amp[k]);
  }

  lemma BlendIs(i: int, n: int, g: real, c: real, y: int)
    requires n > 0
    ensures Blend(OldWeight(i, n, g), c, Share(i, n), y) == Saturated(Between(RealTimes(g, c), y as real, Share(i, n)))
  {
    hide Share, Saturated, OldWeight, RealTimes;
    OldShare(i, n, g, c);
  }

  lemma OldShare(i: int, n: int, g: real, c: real)
    requires n > 0
    ensures OldWeight(i, n, g) * c == RealTimes(g, c) * (1.0 - Share(i, n))
  {
    hide Share;
  }

  lemma Levels(c: real, g: real, v: int, w: real, missing: nat, i: nat, n: nat)
    requires Level16(c) && Sample(v) && g == Volume(missing) && 0 < n && i <= n && w == Share(i, n)
    ensures Level16(Between(RealTimes(g, c), v as real, w))
  {
    hide Share, Volume, RealTimes;
    VolumeIs(missing);
    ShareRange(i, n);
    Softer(c, g);
    Convex(RealTimes(g, c), v as real, 1.0 - w, w, -32768.0, 32767.0);
  }

  lemma Softer(c: real, g: real)
    requires Level16(c) && 0.0 <= g <= 1.0
    ensures Level16(RealTimes(g, c))
  {
    Convex(0.0, c, 1.0 - g, g, -32768.0, 32767.0);
  }

  lemma VolumeIs(missing: nat)
    ensures Volume(missing) == (if Gain(missing) < 0.0 then 0.0 else Gain(missing)) && 0.0 <= Volume(missing) <= 1.0
  {
  }

  lemma BetweenIs(a: real, b: real, i: int, n: int)
    requires n > 0
    ensures Between(a, b, Share(i, n)) == OnTheWay(a, b, i, n) && (i == n ==> Between(a, b, Share(i, n)) == b)
  {
    var w := Share(i, n);
    assert (b - a) * (i as real / n as real) == (b - a) * i as real / n as real;
    Lever(a, b, w);
  }

  lemma Lever(a: real, b: real, w: real)
    ensures Between(a, b, w) == a + (b - a) * w
  {
  }

  /** The weights of the next step. */
  lemma NextWeights(n: nat, gain: real, i: nat, new_step: real, old_step: real)
    requires InStep(n, gain, new_step, old_step) && 1 <= i <= n
    ensures Share(i, n) + new_step == Share(i + 1, n)
    ensures OldWeight(i, n, gain) - old_step == OldWeight(i + 1, n, gain)
    ensures i < n ==> OldWeight(i + 1, n, gain) >= 0.0
  {
    var a, b := Share(i, n), 1.0 / n as real;
    assert Share(i + 1, n) == a + b;
    assert (1.0 - a) * gain - b * gain == (1.0 - (a + b)) * gain;
    if i < n {
      ShareRange(i + 1, n);
      NonnegativeProduct(1.0 - Share(i + 1, n), gain);
    }
  }

  lemma ShareRange(i: nat, n: nat)
    requires 0 < n && i <= n
    ensures 0.0 <= Share(i, n) <= 1.0
  {
    if i < n {
      UnitRange(i as real, n as real);
    }
  }

  lemma FadedInSamples(s: seq<int>, t: seq<int>, cycle: seq<real>, offset: nat, missing: nat, n: nat)
    requires Samples(s) && |s| == |t| && n <= |s| && |cycle| > 0
    requires forall k :: 0 <= k < n ==> t[k] == FadedIn(cycle, offset, missing, n, s, k)
    requires forall k :: n <= k < |t| ==> t[k] == s[k]
    ensures Samples(t) && t[n..] == s[n..]
  {
    hide Sample;
  }

  lemma FirstShare(n: nat)
    requires n > 0
    ensures 1.0 / n as real == Share(1, n)
  {
  }

  lemma NextShare(n: nat, i: nat)
    requires n > 0 && i >= 1
    ensures Share(i, n) + 1.0 / n as real == Share(i + 1, n)
    ensures i < n ==> Share(i + 1, n) <= 1.0
  {
    assert Share(i + 1, n) == Share(i, n) + 1.0 / n as real;
    if i < n {
      ShareRange(i + 1, n);
    }
  }

  /** Sample k of the cooked cycle. */
  function CycleAt(h: seq<int>, pitch: nat, k: nat): real
    requires |h| == HISTORY_LEN && PITCH_MAX <= pitch <= PITCH_MIN && k < pitch
  {
    if k < pitch - pitch / 4 then h[HISTORY_LEN - pitch + k] as real
    else Mixed(h[HISTORY_LEN - pitch + k], h[HISTORY_LEN - 2 * pitch + k], Share(k - (pitch - pitch / 4) + 1, pitch / 4))
  }

  function Mixed(a: int, b: int, w: real): real {
    a as real * (1.0 - w) + b as real * w
  }

  /** Sample k of the blend of the reversed history with the cycle. */
  function OnsetAt(h: seq<int>, cycle: seq<real>, n: nat, k: nat): int
    requires |h| == HISTORY_LEN && k < n <= |cycle| && n <= HISTORY_LEN
  {
    Overlapped(1.0 - Share(k + 1, n), h[HISTORY_LEN - 1 - k], Share(k + 1, n), cycle[k])
  }

  function Overlapped(w: real, x: int, v: real, y: real): (z: int)
    ensures Sample(z)
  {
    Saturated(w * x as real + v * y)
  }

  /** The pitch of a gap is the lag from 40 to 120 samples at which 160 samples
      of the history differ least from what follows, and the shortest such lag;
      where the history repeats at some of them, it repeats at the pitch. */
  lemma PitchMeans(h: seq<int>, pitch: nat, i: nat)
    requires |h| == HISTORY_LEN && PitchOf(pitch, h, PITCH_MAX, PITCH_MIN, SPAN) && 40 <= i <= 120
    ensures 40 <= pitch <= 120 && Amdf(h, pitch, 160) <= Amdf(h, i, 160) && (i < pitch ==> Amdf(h, pitch, 160) < Amdf(h, i, 160))
    ensures h[i..i + 160] == h[..160] ==> h[pitch..pitch + 160] == h[..160] && pitch <= i
  {
    PeriodFound(pitch, h, PITCH_MAX, PITCH_MIN, SPAN);
    hide Amdf;
    assert Repeats(h, i, 160) <==> h[i..i + 160] == h[..160];
    assert Repeats(h, pitch, 160) <==> h[pitch..pitch + 160] == h[..160];
  }

  /** A sample of the onset is nearest to the point k + 1 of n on the way from the
      history, read backwards from its end, to the cycle; the last is nearest to
      the cycle itself. */
  lemma OnsetMeans(h: seq<int>, cycle: seq<real>, n: nat, k: nat)
    requires |h| == HISTORY_LEN && k < n <= |cycle| && n <= HISTORY_LEN && Sample(h[279 - k]) && Level16(cycle[k])
    ensures Nearest(OnsetAt(h, cycle, n, k), OnTheWay(h[279 - k] as real, cycle[k], k + 1, n))
    ensures k == n - 1 ==> Nearest(OnsetAt(h, cycle, n, k), cycle[k])
  {
    hide Share, Nearest, OnTheWay, Saturated, Between, Overlapped;
    var x, y, w := h[279 - k], cycle[k], Share(k + 1, n);
    OverlappedIs(x, y, k + 1, n);
    ShareRange(k + 1, n);
    BetweenLevels(x as real, y, w);
    SaturatedNearest(Between(x as real, y, w));
    BetweenIs(x as real, y, k + 1, n);
  }

  lemma BetweenLevels(a: real, b: real, w: real)
    requires Level16(a) && Level16(b) && 0.0 <= w <= 1.0
    ensures Level16(Between(a, b, w))
  {
    Convex(a, b, 1.0 - w, w, -32768.0, 32767.0);
  }

  lemma OverlappedIs(x: int, y: real, i: int, n: int)
    requires n > 0
    ensures Overlapped(1.0 - Share(i, n), x, Share(i, n), y) == Saturated(Between(x as real, y, Share(i, n)))
  {
    hide Share, Saturated;
    var s := Share(i, n);
    assert (1.0 - s) * x as real + s * y == x as real * (1.0 - s) + y * s;
  }

  /** The cycle is the last period, except that its last quarter goes over into
      what came a period before: so where the cycle starts again the signal goes
      on as it did in the history. */
  lemma CycleMeans(h: seq<int>, pitch: nat, k: nat)
    requires |h| == HISTORY_LEN && PITCH_MAX <= pitch <= PITCH_MIN && k < pitch
    ensures var late, early, i := h[280 - pitch + k] as real, h[280 - 2 * pitch + k] as real, k + 1 - (pitch - pitch / 4);
      CycleAt(h, pitch, k) == if i <= 0 then late else OnTheWay(late, early, i, pitch / 4)
    ensures CycleAt(h, pitch, pitch - 1) == h[280 - pitch - 1] as real && CycleAt(h, pitch, 0) == h[280 - pitch] as real
  {
    hide Share, OnTheWay, Between, Mixed;
    var n := pitch / 4;
    MixedIs(h[280 - 1], h[280 - pitch - 1], n, n);
    BetweenIs(h[280 - 1] as real, h[280 - pitch - 1] as real, n, n);
    var i := k + 1 - (pitch - n);
    if i > 0 {
      MixedIs(h[280 - pitch + k], h[280 - 2 * pitch + k], i, n);
      BetweenIs(h[280 - pitch + k] as real, h[280 - 2 * pitch + k] as real, i, n);
    }
  }

  lemma MixedIs(a: int, b: int, i: int, n: int)
    requires n > 0
    ensures Mixed(a, b, Share(i, n)) == Between(a as real, b as real, Share(i, n))
  {
    hide Share;
  }

  /** A repeated sample is the cycle at its volume, cut toward zero. */
  lemma SyntheticMeans(cycle: seq<real>, offset: nat, n: nat)
    requires |cycle| > 0
    ensures var x, v := RealTimes(Volume(n), cycle[offset % |cycle|]), Synthetic(cycle, offset, n);
      if x >= 0.0 then 0 <= v && v as real <= x < v as real + 1.0 else v <= 0 && v as real - 1.0 < x <= v as real
  {
    hide *;
    SyntheticIs(cycle, offset, n);
    TruncMeans(RealTimes(Volume(n), cycle[offset % |cycle|]));
  }

  lemma SyntheticIs(cycle: seq<real>, offset: nat, n: nat)
    requires |cycle| > 0
    ensures Synthetic(cycle, offset, n) == Trunc(RealTimes(Volume(n), cycle[offset % |cycle|]))
  {
    hide Volume, RealTimes, Gain, Faint;
    VolumeIs(n);
    FaintIs(cycle[offset % |cycle|], Gain(n));
  }

  lemma FaintIs(c: real, g: real)
    ensures Faint(c, g) == Trunc(RealTimes(g, c)) && Trunc(RealTimes(0.0, c)) == 0
  {
    assert c * g == g * c;
    assert RealTimes(0.0, c) == 0.0;
  }

  lemma TruncMeans(x: real)
    ensures var v := Trunc(x); if x >= 0.0 then 0 <= v && v as real <= x < v as real + 1.0 else v <= 0 && v as real - 1.0 < x <= v as real
  {
  }

  lemma Sounding(cycle: seq<real>, o: nat, i: nat, n: int, at: nat, gain: real)
    requires |cycle| > 0 && Turned(at, o, i, |cycle|) && gain == Gain(n) > 0.0
    ensures at < |cycle| && Synthetic(cycle, o + i, n) == Faint(cycle[at], gain)
  {
    hide Gain, Faint;
  }

  lemma StaysQuiet(cycle: seq<real>, offset: nat, m: int, n: int)
    requires |cycle| > 0 && m <= n && Gain(m) <= 0.0
    ensures Synthetic(cycle, offset, n) == 0
  {
  }

  lemma CycleLevels(h: seq<int>, pitch: nat, cycle: seq<real>)
    requires |h| == HISTORY_LEN && Samples(h) && PITCH_MAX <= pitch <= PITCH_MIN && pitch <= |cycle|
    requires forall k :: 0 <= k < pitch ==> cycle[k] == CycleAt(h, pitch, k)
    ensures forall k :: 0 <= k < pitch ==> Level16(cycle[k])
  {
    hide Share;
    forall k | 0 <= k < pitch
      ensures Level16(cycle[k])
    {
      var n := pitch / 4;
      var i := k - (pitch - n) + 1;
      assert Sample(h[HISTORY_LEN - pitch + k]) && Sample(h[HISTORY_LEN - 2 * pitch + k]);
      if i >= 1 {
        ShareRange(i, n);
        var w := Share(i, n);
        Convex(h[HISTORY_LEN - pitch + k] as real, h[HISTORY_LEN - 2 * pitch + k] as real, 1.0 - w, w, -32768.0, 32767.0);
      }
    }
  }

  lemma SyntheticSamples(cycle: seq<real>, o: nat, n: nat, t: seq<int>)
    requires |cycle| > 0 && forall k :: 0 <= k < |cycle| ==> Level16(cycle[k])
    requires forall k {:trigger t[k]} :: 0 <= k < |t| ==> t[k] == Synthetic(cycle, o + k, n + k)
    ensures Samples(t)
  {
    hide Sample, Synthetic;
    forall k | 0 <= k < |t|
      ensures Sample(t[k])
    {
      SyntheticSample(cycle, o + k, n + k);
    }
  }

  lemma GapSamples(h: seq<int>, buf: seq<real>, pitch: nat, t: seq<int>)
    requires |h| == HISTORY_LEN && PITCH_MAX <= pitch <= PITCH_MIN == |buf| && forall k :: 0 <= k < pitch ==> Level16(buf[k])
    requires forall k :: 0 <= k < |t| && k < pitch / 4 ==> t[k] == OnsetAt(h, buf, pitch / 4, k)
    requires forall k {:trigger t[k]} :: pitch / 4 <= k < |t| ==> t[k] == Synthetic(buf[..pitch], k, k - pitch / 4)
    ensures Samples(t)
  {
    hide Sample, Synthetic;
    forall k | 0 <= k < |t|
      ensures Sample(t[k])
    {
      if k >= pitch / 4 {
        SyntheticSample(buf[..pitch], k, k - pitch / 4);
      }
    }
  }

  // ---------------------------------------------------------- a whole gap

  /** Sample i of a gap whose first call asks for first samples: the onset and
      the cycle at a volume that falls from the end of the onset, in the first
      call; after it, the cycle at a volume that falls from the start. */
  function GapSample(h: seq<int>, cycle: seq<real>, first: nat, i: nat): int
    requires |h| == HISTORY_LEN && 1 <= |cycle| <= HISTORY_LEN
  {
    var quarter := |cycle| / 4;
    if i < first then
      (if i < quarter then OnsetAt(h, cycle, quarter, i) else Synthetic(cycle, i, i - quarter))
    else Synthetic(cycle, Later(first, quarter) + (i - first), i)
  }

  lemma OnsetSame(h: seq<int>, buf: seq<real>, cycle: seq<real>, quarter: nat, i: nat)
    requires |h| == HISTORY_LEN && i < quarter <= |cycle| <= |buf| && quarter <= HISTORY_LEN && cycle == buf[..|cycle|]
    ensures OnsetAt(h, buf, quarter, i) == OnsetAt(h, cycle, quarter, i)
  {
    assert buf[i] == cycle[i];
  }

  lemma SamePhase(cycle: seq<real>, offset: nat, phase: nat, k: nat, m: int, n: int)
    requires |cycle| > 0 && OnPhase(offset, phase, |cycle|, m) && m <= n
    ensures Synthetic(cycle, offset + k, n) == Synthetic(cycle, phase + k, n)
  {
    if Gain(m) <= 0.0 {
      StaysQuiet(cycle, offset + k, m, n);
      StaysQuiet(cycle, phase + k, m, n);
    } else {
      ModTwice(phase, k, |cycle|);
    }
  }

  lemma ModTwice(phase: nat, k: nat, pitch: nat)
    requires pitch > 0
    ensures (phase % pitch + k) % pitch == (phase + k) % pitch
  {
    var q, r := (phase % pitch + k) / pitch, (phase % pitch + k) % pitch;
    assert phase + k == pitch * (phase / pitch + q) + r;
    ModUnique(phase + k, pitch, phase / pitch + q, r);
  }

  lemma NextPhase(offset: nat, o: nat, phase: nat, len: nat, pitch: nat, m: int)
    requires pitch > 0 && OnPhase(o, phase, pitch, m) && OnPhase(offset, o + len, pitch, m + len)
    ensures OnPhase(offset, phase + len, pitch, m + len)
  {
    GainFalls(m, m + len);
    ModTwice(phase, len, pitch);
  }

  function Total(lens: seq<nat>): nat {
    if lens == [] then 0 else Total(lens[..|lens| - 1]) + lens[|lens| - 1]
  }

  /** Where a gap stands after some calls. */
  ghost predicate InGap(s: PlcState, h: seq<int>, first: nat, out: seq<int>)
    requires s.Valid() && |h| == HISTORY_LEN
    reads s, s.pitchbuf, s.history
  {
    && s.missing_samples == |out| >= first > 0
    && OnPhase(s.pitch_offset, Later(first, s.pitch / 4) + (|out| - first), s.pitch, |out|)
    && forall i :: 0 <= i < |out| ==> out[i] == GapSample(h, s.Cycle(), first, i)
  }

  method FirstCall(s: PlcState, len: nat) returns (out: seq<int>)
    requires s.Valid() && s.missing_samples == 0 && len > 0
    modifies s, s.history, s.pitchbuf
    ensures s.Valid() && |out| == len && s.Played == old(s.Played) + out && InGap(s, old(s.History()), len, out)
    ensures PitchOf(s.pitch, old(s.History()), PITCH_MAX, PITCH_MIN, SPAN)
    ensures forall k :: 0 <= k < s.pitch ==> s.Cycle()[k] == CycleAt(old(s.History()), s.pitch, k)
  {
    hide Samples, Last, Amdf, Level16, Synthetic, OnsetAt, CycleAt, OnPhase;
    var amp := new int[Later(len, PITCH_MIN / 4)];
    ghost var h := s.History();
    s.Fillin(amp, len);
    out := amp[..len];
    ghost var p, cycle := s.pitch, s.Cycle();
    forall i | 0 <= i < len
      ensures out[i] == GapSample(h, cycle, len, i)
    {
      if i < p / 4 {
        OnsetSame(h, s.pitchbuf[..], cycle, p / 4, i);
      }
    }
  }

  method LaterCall(s: PlcState, len: nat, ghost h: seq<int>, ghost first: nat, out0: seq<int>) returns (out: seq<int>)
    requires s.Valid() && |h| == HISTORY_LEN && InGap(s, h, first, out0)
    modifies s, s.history, s.pitchbuf
    ensures s.Valid() && s.pitch == old(s.pitch) && s.Cycle() == old(s.Cycle())
    ensures out0 <= out && |out| == |out0| + len && s.Played == old(s.Played) + out[|out0|..] && InGap(s, h, first, out)
  {
    hide Samples, Last, Amdf, Level16, Synthetic, OnsetAt, CycleAt, OnPhase;
    var amp := new int[Later(len, PITCH_MIN / 4)];
    ghost var o, m, p, cycle := s.pitch_offset, |out0|, s.pitch, s.Cycle();
    ghost var phase := Later(first, p / 4) + (m - first);
    s.Fillin(amp, len);
    out := out0 + amp[..len];
    NextPhase(s.pitch_offset, o, phase, len, p, m);
    forall k | 0 <= k < len
      ensures amp[..len][k] == Synthetic(cycle, o + k, m + k)
    {
      assert amp[k] == amp[..len][k];
    }
    GoesOn(h, cycle, first, out0, amp[..len], o);
  }

  /** A call later in the gap goes on where the one before stopped. */
  lemma GoesOn(h: seq<int>, cycle: seq<real>, first: nat, out0: seq<int>, t: seq<int>, o: nat)
    requires |h| == HISTORY_LEN && 1 <= |cycle| <= HISTORY_LEN && first <= |out0|
    requires OnPhase(o, Later(first, |cycle| / 4) + (|out0| - first), |cycle|, |out0|)
    requires forall i :: 0 <= i < |out0| ==> out0[i] == GapSample(h, cycle, first, i)
    requires forall k :: 0 <= k < |t| ==> t[k] == Synthetic(cycle, o + k, |out0| + k)
    ensures forall i :: 0 <= i < |out0 + t| ==> (out0 + t)[i] == GapSample(h, cycle, first, i)
  {
    hide Synthetic, OnsetAt, OnPhase;
    var m := |out0|;
    forall i | m <= i < m + |t|
      ensures t[i - m] == GapSample(h, cycle, first, i)
    {
      SamePhase(cycle, o, Later(first, |cycle| / 4) + (m - first), i - m, m, i);
    }
  }

  /** A gap over any number of calls: every sample of it; silent from sample 400
      on, or from 400 after the onset while the first call lasts. */
  method Gap(s: PlcState, lens: seq<nat>) returns (out: seq<int>)
    requires s.Valid() && s.missing_samples == 0 && lens != [] && lens[0] > 0
    modifies s, s.history, s.pitchbuf
    ensures s.Valid() && |out| == Total(lens) && s.Played == old(s.Played) + out && InGap(s, old(s.History()), lens[0], out)
    ensures forall i :: 0 <= i < |out| && i >= 400 + (if i < lens[0] then s.pitch / 4 else 0) ==> out[i] == 0
    ensures PitchOf(s.pitch, old(s.History()), PITCH_MAX, PITCH_MIN, SPAN)
    ensures forall k :: 0 <= k < s.pitch ==> s.Cycle()[k] == CycleAt(old(s.History()), s.pitch, k)
  {
    hide Samples, Last, Amdf, Level16, CycleAt, InGap;
    ghost var h, played := s.History(), s.Played;
    out := FirstCall(s, lens[0]);
    ghost var p, cycle := s.pitch, s.Cycle();
    FirstTotal(lens);
    for k := 1 to |lens|
      invariant s.Valid() && |out| == Total(lens[..k]) && s.Played == played + out && InGap(s, h, lens[0], out)
      invariant s.pitch == p && s.Cycle() == cycle
    {
      ghost var out0 := out;
      out := LaterCall(s, lens[k], h, lens[0], out);
      assert out == out0 + out[|out0|..];
      assert lens[..k + 1][..k] == lens[..k];
    }
    assert lens[..|lens|] == lens;
    GapFades(s, h, lens[0], out);
  }

  lemma GapFades(s: PlcState, h: seq<int>, first: nat, out: seq<int>)
    requires s.Valid() && |h| == HISTORY_LEN && InGap(s, h, first, out)
    ensures forall i :: 0 <= i < |out| && i >= 400 + (if i < first then s.pitch / 4 else 0) ==> out[i] == 0
  {
    hide GapSample, OnPhase;
    forall i | 0 <= i < |out| && i >= 400 + (if i < first then s.pitch / 4 else 0)
      ensures out[i] == 0
    {
      GapSilent(h, s.Cycle(), first, i);
    }
  }

  lemma FirstTotal(lens: seq<nat>)
    requires lens != []
    ensures Total(lens[..1]) == lens[0]
  {
    assert Total(lens[..1][..0]) == 0;
  }

  /** When a sample of a gap, past the onset, is silent: once the volume is gone,
      400 samples after the onset in the first call and 400 after the start of
      the gap in later ones; or when what is left is below one step. */
  lemma FadedAway(h: seq<int>, cycle: seq<real>, first: nat, i: nat)
    requires |h| == HISTORY_LEN && 1 <= |cycle| <= HISTORY_LEN && (i < first ==> i >= |cycle| / 4)
    ensures var n := GapAge(|cycle| / 4, first, i);
      GapSample(h, cycle, first, i) == 0 <==> n >= 400 || -1.0 < Loud(cycle, GapPhase(|cycle| / 4, first, i), n) < 1.0
  {
    hide OnsetAt, Synthetic, Loud;
    SyntheticZero(cycle, GapPhase(|cycle| / 4, first, i), GapAge(|cycle| / 4, first, i));
  }

  /** How far the volume has fallen by sample i, and where in the cycle it is. */
  function GapAge(quarter: nat, first: nat, i: nat): int {
    if i < first then i - quarter else i
  }

  function GapPhase(quarter: nat, first: nat, i: nat): nat {
    if i < first then i else Later(first, quarter) + (i - first)
  }

  /** The cycle at its volume, before it is cut to an integer. */
  function Loud(cycle: seq<real>, phase: nat, n: int): real
    requires |cycle| > 0
  {
    cycle[phase % |cycle|] * Gain(n)
  }

  lemma SyntheticZero(cycle: seq<real>, phase: nat, n: int)
    requires |cycle| > 0
    ensures Synthetic(cycle, phase, n) == 0 <==> n >= 400 || -1.0 < Loud(cycle, phase, n) < 1.0
  {
    hide Trunc, Gain;
    VolumeGone(n);
    TruncZero(cycle[phase % |cycle|] * Gain(n));
  }

  lemma VolumeGone(n: int)
    ensures Gain(n) > 0.0 <==> n < 400
  {
  }

  lemma TruncZero(x: real)
    ensures Trunc(x) == 0 <==> -1.0 < x < 1.0
  {
    FloorIs(x);
    FloorIs(-x);
  }

  /** So however the calls divide it, a gap is silent from sample 400 on, or from
      400 after the onset while the first call lasts. */
  lemma GapSilent(h: seq<int>, cycle: seq<real>, first: nat, i: nat)
    requires |h| == HISTORY_LEN && 1 <= |cycle| <= HISTORY_LEN
    requires i >= 400 + if i < first then |cycle| / 4 else 0
    ensures GapSample(h, cycle, first, i) == 0
  {
    FadedAway(h, cycle, first, i);
    hide GapSample;
  }
}
