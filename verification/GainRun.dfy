/** The cumulative pitch gain of ltp.c over whole runs of the pitch search. */
module GainRun {
  import opened IntArith
  import opened RealSums
  import opened Filters
  import opened BitSeqs
  import opened Bits
  import opened CbSpec
  import opened LtpSpec
  import opened Ltp

  /** What one search is given. */
  datatype Call = Call(target: seq<real>, ak: seq<real>, awk1: seq<real>, awk2: seq<real>, cdbk: seq<int>, gain_bits: nat, pitch_bits: nat,
                       start: int, end: int, nbest: seq<int>, exc2: seq<real>, r: seq<real>, plc_tuning: int)

  ghost predicate Fits(c: Call) {
    && 1 <= |c.target| == |c.r| && c.gain_bits <= 30 && c.pitch_bits <= 32
    && 1 <= |c.ak| == |c.awk1| == |c.awk2|
    && 2 <= c.start && c.end < |c.exc2| && 4 * Times(Pow2(c.gain_bits), 0 + 1) <= |c.cdbk|
    && (c.start <= c.end ==> 1 <= |c.nbest| && forall k :: 0 <= k < |c.nbest| ==> c.start <= c.nbest[k] <= c.end)
  }

  /** The table holds signed bytes, and its first entry is a small one. */
  ghost predicate Tame(c: Call) {
    SignedBytes(c.cdbk) && (3 < |c.cdbk| ==> c.cdbk[3] <= 31)
  }

  /** The gain after a search that chose a sum. */
  lemma NextGain(cumul_gain: real, sum: int)
    requires sum <= 127 && (cumul_gain > 262144.0 ==> sum <= 31)
    ensures var next := 0.03125 * (if 1024.0 > cumul_gain then 1024.0 else cumul_gain) * sum as real;
      if cumul_gain > 262144.0 then next <= cumul_gain * 31.0 / 32.0 else next <= 0.03125 * 127.0 * 262144.0
  {
    var m := if 1024.0 > cumul_gain then 1024.0 else cumul_gain;
    if cumul_gain > 262144.0 {
      NoMore(0.03125 * m, sum as real, 31.0);
    } else {
      NoMore(0.03125 * m, sum as real, 127.0);
    }
  }

  lemma NoMore(a: real, x: real, y: real)
    requires a >= 0.0 && x <= y
    ensures a * x <= a * y
  {
  }

  lemma FirstPart(cdbk: seq<int>, size: nat, index: nat)
    requires 4 * size <= |cdbk| && index < size
    ensures Times(size, 0 + 1) == size && Table4(cdbk, size, 0)[4 * index + 3] == cdbk[4 * index + 3] && Table4(cdbk, size, 0)[3] == cdbk[3]
    ensures At4(cdbk, index) == cdbk[4 * index + 3] as real
    ensures SignedBytes(cdbk) ==> SignedBytes(Table4(cdbk, size, 0)) && cdbk[4 * index + 3] <= 127
  {
  }

  lemma SizeFits(size: nat, n: nat)
    requires 4 * Times(size, 0 + 1) <= n
    ensures 4 * size <= n
  {
  }

  /** What one search makes of the cumulative gain. */
  ghost predicate Held(c: Call, before: real, after: real) {
    if c.end < c.start then after == before
    else if before > 262144.0 then after <= before * 31.0 / 32.0
    else after <= 0.03125 * 127.0 * 262144.0
  }

  lemma Needs(c: Call)
    requires Fits(c)
    ensures 1 <= |c.target| == |c.r| && c.gain_bits <= 30 && c.pitch_bits <= 32 && 1 <= |c.ak| == |c.awk1| == |c.awk2|
    ensures 2 <= c.start && c.end < |c.exc2| && 4 * Times(Pow2(c.gain_bits), 0 + 1) <= |c.cdbk|
    ensures c.start <= c.end ==> 1 <= |c.nbest| && forall k :: 0 <= k < |c.nbest| ==> c.start <= c.nbest[k] <= c.end
  {
  }

  lemma Skipped(c: Call, cumul_gain: real)
    requires c.end < c.start
    ensures Held(c, cumul_gain, cumul_gain)
  {
  }

  lemma Chose(c: Call, f: Synth, t: seq<real>, tried: seq<Choice>, at: nat, cumul_gain: real, cumul: real)
    requires Fits(c) && Tame(c) && c.start <= c.end && at < |tried| && 4 * Times(Pow2(c.gain_bits), 0 + 1) <= |c.cdbk|
    requires Tried(f, t, c.r, c.exc2, Table4(c.cdbk, Pow2(c.gain_bits), 0), Pow2(c.gain_bits), PlcTuning(c.plc_tuning), MaxGain(cumul_gain),
      c.nbest, tried)
    requires tried[at].index < Pow2(c.gain_bits)
    requires cumul == 0.03125 * (if 1024.0 > cumul_gain then 1024.0 else cumul_gain) * At4(c.cdbk, tried[at].index)
    ensures Held(c, cumul_gain, cumul)
  {
    hide Tried, MaxGain, PlcTuning, BestGains, Pow2, Times;
    var size, index := Pow2(c.gain_bits), tried[at].index;
    var table := Table4(c.cdbk, size, 0);
    TriedGains(f, t, c.r, c.exc2, table, size, PlcTuning(c.plc_tuning), MaxGain(cumul_gain), c.nbest, tried, at);
    SizeFits(size, |c.cdbk|);
    FirstPart(c.cdbk, size, index);
    WhatIsRefused(f, t, c.r, c.exc2, c.nbest[at], table, size, PlcTuning(c.plc_tuning) as real, cumul_gain, index);
    NextGain(cumul_gain, c.cdbk[4 * index + 3]);
  }

  lemma TriedGains(f: Synth, t: seq<real>, r: seq<real>, hist: seq<real>, cdbk: seq<int>, size: nat, plc: int, max_gain: int,
                   nbest: seq<int>, tried: seq<Choice>, k: nat)
    requires Tried(f, t, r, hist, cdbk, size, plc, max_gain, nbest, tried) && k < |tried|
    ensures k < |nbest| && BestGains(f, t, r, hist, nbest[k], cdbk, size, plc as real, max_gain, tried[k].index)
  {
    hide BestGains;
  }

  /** pitch_search_3tap on the first part of a gain table. */
  method Search(c: Call, bits: SpeexBits, cumul_gain: real) returns (cumul: real)
    requires Fits(c) && Tame(c) && bits.Writing() && bits.owner
    modifies bits, bits.chars
    ensures bits.Writing() && (bits.chars == old(bits.chars) || fresh(bits.chars))
    ensures Held(c, cumul_gain, cumul)
  {
    hide *;
    Needs(c);
    var target := Copied(c.target);
    var exc := new real[|c.target|];
    var ak := Copied(c.ak);
    var awk1 := Copied(c.awk1);
    var awk2 := Copied(c.awk2);
    ghost var f := Synth(ak[..], awk1[..], awk2[..]);
    ghost var t := target[..];
    var pitch;
    ghost var best, tried, at;
    pitch, cumul, best, tried, at := PitchSearch3tap(target, ak, awk1, awk2, exc, c.cdbk, c.gain_bits, c.pitch_bits, c.start, c.end, c.nbest,
      |c.ak|, bits, c.exc2, c.r, 0, c.plc_tuning, cumul_gain);
    if c.start <= c.end {
      TriedPitch(f, t, c.r, c.exc2, Table4(c.cdbk, Pow2(c.gain_bits), 0), Pow2(c.gain_bits), PlcTuning(c.plc_tuning), MaxGain(cumul_gain), c.nbest,
        tried, at);
      Chose(c, f, t, tried, at, cumul_gain, cumul);
    } else {
      Skipped(c, cumul_gain);
    }
  }

  method Copied(s: seq<real>) returns (a: array<real>)
    ensures fresh(a) && a.Length == |s| && a[..] == s
  {
    a := new real[|s|];
    CopyTo(a, s);
  }

  /** However many searches follow each other, from the gain an encoder starts
      with: the cumulative gain never passes a fixed bound, and every search
      made above 262144 brings it down by at least a part in 32. */
  method SearchRun(calls: seq<Call>, bits: SpeexBits) returns (gains: seq<real>)
    requires bits.Writing() && bits.owner && forall k :: 0 <= k < |calls| ==> Fits(calls[k]) && Tame(calls[k])
    modifies bits, bits.chars
    ensures |gains| == |calls| + 1 && gains[0] == 1024.0
    ensures forall k :: 0 <= k <= |calls| ==> gains[k] <= 0.03125 * 127.0 * 262144.0
    ensures forall k :: 0 <= k < |calls| && calls[k].start <= calls[k].end && gains[k] > 262144.0 ==> gains[k + 1] <= gains[k] * 31.0 / 32.0
  {
    hide Fits, Tame;
    gains := [1024.0];
    var cumul_gain := 1024.0;
    for i := 0 to |calls|
      invariant bits.Writing() && (bits.chars == old(bits.chars) || fresh(bits.chars))
      invariant |gains| == i + 1 && gains[0] == 1024.0 && gains[i] == cumul_gain
      invariant forall k :: 0 <= k <= i ==> gains[k] <= 0.03125 * 127.0 * 262144.0
      invariant forall k :: 0 <= k < i && calls[k].start <= calls[k].end && gains[k] > 262144.0 ==> gains[k + 1] <= gains[k] * 31.0 / 32.0
    {
      cumul_gain := Search(calls[i], bits, cumul_gain);
      gains := gains + [cumul_gain];
    }
  }
}
