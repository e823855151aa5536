/** The PICOLA time scaler of time_scale.c over exact reals. */
module TimeScale {
  import opened IntArith

  const MAX_SAMPLE_RATE := 48000
  const MIN_PITCH := 60
  const MAX_PITCH := 250
  const BUF_LEN := 2 * MAX_SAMPLE_RATE / MIN_PITCH
  const INT_MAX := 0x7FFFFFFF

  predicate Sample(x: int) {
    -32768 <= x <= 32767
  }

  ghost predicate Samples(s: seq<int>) {
    forall k :: 0 <= k < |s| ==> Sample(s[k])
  }

  // ------------------------------------------------------- the arithmetic

  /** out samples have come out for in_len taken, from level0 to this level. */
  ghost predicate Balance(rate: real, level0: real, out: int, in_len: int, fill: int, lcp: int, nudge: real) {
    out as real == rate * in_len as real + Level(rate, fill, lcp, nudge) - level0
  }

  /** lcp and the rounding carried over stand for one pitch period's worth. */
  ghost predicate Promised(rate: real, pitch: int, nudge: real, lcp: int, nudge': real)
    requires rate > 0.0 && rate != 1.0
  {
    lcp as real - nudge' == pitch as real * Comp(rate) - nudge
  }

  /** Input still owed to the output, in output samples: what is in the buffer
      counts at the playout rate, what is promised by lcp at one less. */
  function Level(rate: real, fill: int, lcp: int, nudge: real): real {
    (rate - 1.0) * (lcp as real - nudge) - rate * fill as real
  }

  /** The ideal length of n samples. */
  function Play(rate: real, n: int): real {
    rate * n as real
  }

  /** How many samples to copy before the next change, per sample of pitch. */
  function Comp(rate: real): real
    requires rate > 0.0 && rate != 1.0
  {
    if rate < 1.0 then rate / (1.0 - rate) else 1.0 / (rate - 1.0)
  }

  /** What one pitch period changes lcp less the nudge by. */
  function Stride(rate: real, pitch: int): real
    requires rate > 0.0 && rate != 1.0
  {
    pitch as real * Comp(rate)
  }

  lemma CompPositive(rate: real)
    requires rate > 0.0 && rate != 1.0
    ensures Comp(rate) > 0.0
    ensures rate < 1.0 ==> (rate - 1.0) * Comp(rate) == -rate
    ensures rate > 1.0 ==> (rate - 1.0) * Comp(rate) == 1.0
  {
    if rate < 1.0 {
      Quotient(rate, 1.0 - rate);
    } else {
      Quotient(1.0, rate - 1.0);
    }
  }

  lemma Quotient(a: real, b: real)
    requires a > 0.0 && b > 0.0
    ensures a / b > 0.0 && b * (a / b) == a
  {
    var q := a / b;
    assert q * b == a;
    if q <= 0.0 {
      NotPositive(q, b);
    }
  }

  lemma NotPositive(q: real, b: real)
    requires q <= 0.0 && b > 0.0
    ensures q * b <= 0.0
  {
  }

  /** Copying n of the promised samples and consuming n. */
  lemma CopyLevel(rate: real, fill: int, fill': int, lcp: int, nudge: real, n: int, taken: int)
    requires fill' == fill - n + taken
    ensures n as real == rate * taken as real + Level(rate, fill', lcp - n, nudge) - Level(rate, fill, lcp, nudge)
  {
    var r, f, l, m, t := rate, fill as real, lcp as real, n as real, taken as real;
    assert r * (f - m + t) == r * f - r * m + r * t;
    assert (r - 1.0) * (l - m - nudge) == (r - 1.0) * (l - nudge) - r * m + m;
  }

  /** Dropping a pitch period when speeding up. */
  lemma DropLevel(rate: real, fill: int, fill': int, nudge: real, lcp: int, nudge': real, pitch: int, taken: int)
    requires 0.0 < rate < 1.0 && fill' == fill - pitch + taken
    requires lcp as real - nudge' == pitch as real * Comp(rate) - nudge
    ensures 0.0 == rate * taken as real + Level(rate, fill', lcp, nudge') - Level(rate, fill, 0, nudge)
  {
    CompPositive(rate);
    var r, f, p, t, c := rate, fill as real, pitch as real, taken as real, Comp(rate);
    assert r * (f - p + t) == r * f - r * p + r * t;
    ShiftedBy(r, p, c, nudge);
    assert (r - 1.0) * (p * c) == -(r * p) by {
      assert (r - 1.0) * (p * c) == p * ((r - 1.0) * c);
    }
  }

  /** Inserting a pitch period when slowing down. */
  lemma InsertLevel(rate: real, fill: int, nudge: real, lcp: int, nudge': real, pitch: int)
    requires rate > 1.0 && lcp as real - nudge' == pitch as real * Comp(rate) - nudge
    ensures pitch as real == Level(rate, fill, lcp, nudge') - Level(rate, fill, 0, nudge)
  {
    CompPositive(rate);
    var r, p, c := rate, pitch as real, Comp(rate);
    ShiftedBy(r, p, c, nudge);
    assert (r - 1.0) * (p * c) == p by {
      assert (r - 1.0) * (p * c) == p * ((r - 1.0) * c);
    }
  }

  lemma ShiftedBy(r: real, p: real, c: real, nudge: real)
    ensures (r - 1.0) * (p * c - nudge) == (r - 1.0) * (p * c) + (r - 1.0) * (0.0 - nudge)
  {
  }

  /** (int) of a nonnegative double. */
  function Trunc(x: real): int {
    if x >= 0.0 then x.Floor else -((-x).Floor)
  }

  // --------------------------------------------------------- the functions

  function Abs(x: int): nat {
    if x < 0 then -x else x
  }

  /** The average magnitude difference of s with itself i samples later. */
  function Amdf(s: seq<int>, i: nat, len: nat): nat
    requires i + len <= |s|
  {
    if len == 0 then 0 else Amdf(s, i, len - 1) + Abs(s[i + len - 1] - s[len - 1])
  }

  lemma {:induction false} AmdfBound(s: seq<int>, i: nat, len: nat)
    requires i + len <= |s| && Samples(s)
    ensures Amdf(s, i, len) <= 65535 * len
  {
    if len > 0 {
      AmdfBound(s, i, len - 1);
      assert Sample(s[i + len - 1]) && Sample(s[len - 1]);
    }
  }

  /** s goes on i samples later as it starts, over a span of len. */
  predicate Repeats(s: seq<int>, i: nat, len: nat)
    requires i + len <= |s|
  {
    s[i..i + len] == s[..len]
  }

  /** Sample after sample the difference takes in how far apart two samples are. */
  lemma AmdfNext(s: seq<int>, i: nat, len: nat)
    requires i + len < |s|
    ensures var a, b := s[i + len], s[len];
      Amdf(s, i, len + 1) - Amdf(s, i, len) == if a <= b then b - a else a - b
  {
  }

  /** There is no difference exactly if the signal repeats. */
  lemma {:induction false} AmdfZero(s: seq<int>, i: nat, len: nat)
    requires i + len <= |s|
    ensures Amdf(s, i, len) == 0 <==> Repeats(s, i, len)
  {
    hide *;
    if len > 0 {
      AmdfZero(s, i, len - 1);
      AmdfNext(s, i, len - 1);
      RepeatsNext(s, i, len - 1);
    } else {
      AmdfNone(s, i);
    }
  }

  lemma AmdfNone(s: seq<int>, i: nat)
    requires i <= |s|
    ensures Amdf(s, i, 0) == 0 && Repeats(s, i, 0)
  {
  }

  lemma RepeatsNext(s: seq<int>, i: nat, n: nat)
    requires i + n < |s|
    ensures Repeats(s, i, n + 1) <==> Repeats(s, i, n) && s[i + n] == s[n]
  {
    assert s[i..i + n + 1] == s[i..i + n] + [s[i + n]] && s[..n + 1] == s[..n] + [s[n]];
  }

  /** A signal raised by c and turned upside down differs from itself as much. */
  lemma {:induction false} AmdfTurned(s: seq<int>, t: seq<int>, c: int, i: nat, len: nat)
    requires i + len <= |s| == |t| && forall k :: 0 <= k < |s| ==> t[k] == c - s[k]
    ensures Amdf(t, i, len) == Amdf(s, i, len)
  {
    if len > 0 {
      AmdfTurned(s, t, c, i, len - 1);
    }
  }

  /** The first lag with the least difference. */
  method AmdfPitch(min_pitch: nat, max_pitch: nat, amp: seq<int>, len: nat) returns (pitch: nat)
    requires max_pitch <= min_pitch && min_pitch + len <= |amp| && Samples(amp) && 65535 * len < INT_MAX
    ensures max_pitch <= pitch <= min_pitch
    ensures forall i :: max_pitch <= i <= min_pitch ==> Amdf(amp, pitch, len) <= Amdf(amp, i, len)
    ensures forall i :: max_pitch <= i < pitch ==> Amdf(amp, pitch, len) < Amdf(amp, i, len)
    ensures forall i :: max_pitch <= i <= min_pitch && Repeats(amp, i, len) ==> Repeats(amp, pitch, len) && pitch <= i
  {
    pitch := min_pitch;
    var min_acc := INT_MAX;
    for i := max_pitch to min_pitch + 1
      invariant if i == max_pitch then min_acc == INT_MAX && pitch == min_pitch
                else max_pitch <= pitch < i && min_acc == Amdf(amp, pitch, len)
      invariant forall k :: max_pitch <= k < i ==> min_acc <= Amdf(amp, k, len)
      invariant i > max_pitch ==> forall k :: max_pitch <= k < pitch ==> min_acc < Amdf(amp, k, len)
    {
      var acc := 0;
      for j := 0 to len
        invariant acc == Amdf(amp, i, j)
      {
        acc := acc + Abs(amp[i + j] - amp[j]);
      }
      AmdfBound(amp, i, len);
      if acc < min_acc {
        min_acc := acc;
        pitch := i;
      }
    }
    RepeatsFirst(amp, max_pitch, min_pitch, len, pitch);
  }

  /** A lag at which the signal repeats is found, and the shortest of them. */
  lemma RepeatsFirst(s: seq<int>, max_pitch: nat, min_pitch: nat, len: nat, pitch: nat)
    requires max_pitch <= pitch <= min_pitch && min_pitch + len <= |s|
    requires forall i :: max_pitch <= i <= min_pitch ==> Amdf(s, pitch, len) <= Amdf(s, i, len)
    requires forall i :: max_pitch <= i < pitch ==> Amdf(s, pitch, len) < Amdf(s, i, len)
    ensures forall i :: max_pitch <= i <= min_pitch && Repeats(s, i, len) ==> Repeats(s, pitch, len) && pitch <= i
  {
    AmdfZero(s, pitch, len);
    forall i | max_pitch <= i <= min_pitch && Repeats(s, i, len)
      ensures Repeats(s, pitch, len) && pitch <= i
    {
      AmdfZero(s, i, len);
    }
  }

  /** The cross-fade of two samples, rounded toward zero. */
  function Faded(a: int, b: int, i: int, len: int): int
    requires len > 0
  {
    Fade(a, b, Weight(i, len))
  }

  function Weight(i: int, len: int): real
    requires len > 0
  {
    i as real / len as real
  }

  function Fade(a: int, b: int, w: real): int {
    Trunc(a as real * (1.0 - w) + b as real * w)
  }

  lemma Convex(a: real, b: real, u: real, w: real, lo: real, hi: real)
    requires u >= 0.0 && w >= 0.0 && u + w == 1.0 && lo <= a <= hi && lo <= b <= hi
    ensures lo <= a * u + b * w <= hi
  {
    ShareBelow(a, b, u, w, hi);
    ShareAbove(a, b, u, w, lo);
  }

  lemma ShareBelow(a: real, b: real, u: real, w: real, hi: real)
    requires u >= 0.0 && w >= 0.0 && u + w == 1.0 && a <= hi && b <= hi
    ensures a * u + b * w <= hi
  {
    NonnegativeProduct(hi - a, u);
    NonnegativeProduct(hi - b, w);
    Shares(a, b, u, w, hi);
  }

  lemma ShareAbove(a: real, b: real, u: real, w: real, lo: real)
    requires u >= 0.0 && w >= 0.0 && u + w == 1.0 && lo <= a && lo <= b
    ensures lo <= a * u + b * w
  {
    NonnegativeProduct(a - lo, u);
    NonnegativeProduct(b - lo, w);
    Shares(a, b, u, w, lo);
    Negated(a, lo, u);
    Negated(b, lo, w);
  }

  lemma Shares(a: real, b: real, u: real, w: real, c: real)
    requires u + w == 1.0
    ensures (c - a) * u + (c - b) * w == c - (a * u + b * w)
  {
  }

  lemma Negated(a: real, c: real, u: real)
    ensures (a - c) * u == -((c - a) * u)
  {
  }

  lemma Below(x: real, y: real, w: real)
    requires x <= y && w >= 0.0
    ensures x * w <= y * w
  {
    assert (y - x) * w >= 0.0;
  }

  /** A cross-fade of 16-bit samples is one. */
  lemma FadedSample(a: int, b: int, i: int, len: int)
    requires 0 <= i < len && Sample(a) && Sample(b)
    ensures Sample(Faded(a, b, i, len))
  {
    var w := Weight(i, len);
    UnitRange(i as real, len as real);
    Convex(a as real, b as real, 1.0 - w, w, -32768.0, 32767.0);
  }

  lemma UnitRange(i: real, len: real)
    requires 0.0 <= i < len
    ensures 0.0 <= i / len <= 1.0
  {
    var q := i / len;
    assert q * len == i;
    if q < 0.0 {
      StrictlyPositive(-q, len);
    }
    if q > 1.0 {
      StrictlyPositive(q - 1.0, len);
    }
  }

  lemma StrictlyPositive(x: real, y: real)
    requires x > 0.0 && y > 0.0
    ensures x * y > 0.0
  {
  }

  lemma WeightStep(i: int, len: int)
    requires len > 0
    ensures Weight(i, len) + 1.0 / len as real == Weight(i + 1, len)
  {
  }

  lemma WeightStart(len: int)
    requires len > 0
    ensures Weight(0, len) == 0.0
  {
  }

  /** Fades from what is at from to what is at to, over len samples. */
  method OverlapAdd(amp: array<int>, from: nat, to: nat, len: nat)
    requires from + len <= amp.Length && to + len <= amp.Length && len > 0 && (from + len <= to || to + len <= from)
    modifies amp
    ensures forall k {:trigger amp[k]} :: 0 <= k < amp.Length ==>
      amp[k] == if to <= k < to + len then Faded(old(amp[from + (k - to)]), old(amp[k]), k - to, len) else old(amp[k])
  {
    hide Fade, Weight;
    ghost var s := amp[..];
    var step := 1.0 / len as real;
    var weight := 0.0;
    WeightStart(len);
    for i := 0 to len
      invariant weight == Weight(i, len)
      invariant forall k {:trigger amp[k]} :: to <= k < to + i ==> amp[k] == Faded(s[from + (k - to)], s[k], k - to, len)
      invariant forall k :: 0 <= k < to || to + i <= k < amp.Length ==> amp[k] == s[k]
    {
      var v := Fade(amp[from + i], amp[to + i], weight);
      amp[to + i] := v;
      WeightStep(i, len);
      weight := weight + step;
    }
  }

  method Move(amp: array<int>, to: nat, from: nat, n: nat)
    requires to <= from && from + n <= amp.Length
    modifies amp
    ensures amp[..to] == old(amp[..to]) && amp[to..to + n] == old(amp[from..from + n]) && amp[to + n..] == old(amp[to + n..])
  {
    ghost var s := amp[..];
    for i := 0 to n
      invariant amp[..to] == s[..to] && amp[to..to + i] == s[from..from + i]
      invariant amp[to + i..] == s[to + i..]
    {
      assert amp[from + i] == s[from + i] by {
        assert amp[to + i..][from - to] == s[to + i..][from - to];
      }
      amp[to + i] := amp[from + i];
      TailSame(s, amp[..], to + i);
    }
  }

  lemma TailSame(s: seq<int>, t: seq<int>, k: nat)
    requires k < |s| == |t| && t[k + 1..] == s[k..][1..]
    ensures t[k + 1..] == s[k + 1..]
  {
  }

  method Load(amp: array<int>, to: nat, inp: seq<int>)
    requires to + |inp| <= amp.Length
    modifies amp
    ensures amp[..to] == old(amp[..to]) && amp[to..to + |inp|] == inp && amp[to + |inp|..] == old(amp[to + |inp|..])
  {
    for i := 0 to |inp|
      invariant amp[..to] == old(amp[..to]) && amp[to..to + i] == inp[..i]
      invariant amp[to + i..] == old(amp[to + i..])
    {
      amp[to + i] := inp[i];
    }
  }

  lemma FillLevel(rate: real, fill: int, lcp: int, nudge: real, k: int)
    ensures 0.0 == rate * k as real + Level(rate, fill + k, lcp, nudge) - Level(rate, fill, lcp, nudge)
  {
    assert rate * (fill as real + k as real) == rate * fill as real + rate * k as real;
  }

  lemma RateSplit(rate: real, a: int, b: int)
    ensures rate * (a + b) as real == rate * a as real + rate * b as real
  {
    assert (a + b) as real == a as real + b as real;
  }

  /** Rounds of the slow-down that can pass before lcp becomes positive. */
  function Spins(lcp: int, nudge: real, least: real): int
    requires least > 0.0
  {
    if lcp > 0 then 0 else 1 + ((nudge + 0.5) / least).Floor
  }

  lemma SpinsFall(nudge: real, nudge': real, least: real)
    requires least > 0.0 && -0.5 <= nudge' <= nudge - least
    ensures 0 <= Spins(0, nudge', least) < Spins(0, nudge, least)
  {
    QuotientDrop((nudge + 0.5) / least, (nudge' + 0.5) / least, nudge + 0.5, nudge' + 0.5, least);
  }

  lemma QuotientDrop(a: real, b: real, x: real, y: real, d: real)
    requires d > 0.0 && a * d == x && b * d == y && 0.0 <= y <= x - d
    ensures 0.0 <= b <= a - 1.0
  {
    if b < 0.0 {
      StrictlyPositive(-b, d);
    }
    DiffProduct(a, b, d);
    var q := a - b;
    assert q * d == x - y;
    AtLeastOne(q, d);
  }

  lemma DiffProduct(a: real, b: real, d: real)
    ensures (a - b) * d == a * d - b * d
  {
  }

  lemma AtLeastOne(q: real, d: real)
    requires d > 0.0 && q * d >= d
    ensures q >= 1.0
  {
    if q < 1.0 {
      StrictlyPositive(1.0 - q, d);
      DiffProduct(1.0, q, d);
    }
  }

  // --------------------------------------------------- the course of a call

  /** Where a call stands: with a full buffer and left samples of input, or at
      its end with fill samples buffered; with the promise, the nudge and the
      number of samples that have come out. */
  datatype Course = Full(left: int, lcp: int, nudge: real, out: int) | Spent(fill: int, lcp: int, nudge: real, out: int)

  /** How much of the promise comes out of a full buffer when the input ends
      within the promise: whole buffers as far as they go, or all of it. */
  function Copied(b: int, left: int, lcp: int): int
    requires b > 0
  {
    var whole := (b + left) / b * b;
    if lcp < whole then lcp else whole
  }

  function Finish(b: int, c: Course): Course
    requires b > 0
  {
    if c.Full? && c.left < c.lcp then
      var m := Copied(b, c.left, c.lcp);
      Spent(b + c.left - m, c.lcp - m, c.nudge, c.out + m)
    else c
  }

  /** The promise copied and one pitch period inserted or dropped. */
  function Step(r: real, b: int, p: nat, c: Course): Course
    requires r > 0.0 && r != 1.0
  {
    if c.Spent? || c.left < c.lcp then c
    else
      var (l, n) := NextPromise(Stride(r, p), c.nudge);
      var left := c.left - c.lcp;
      if r > 1.0 then Full(left, l, n, c.out + c.lcp + p)
      else if left < p then Spent(b - p + left, l, n, c.out + c.lcp)
      else Full(left - p, l, n, c.out + c.lcp)
  }

  function After(r: real, b: int, c: Course, edits: seq<Edit>): Course
    requires r > 0.0 && r != 1.0
  {
    if edits == [] then c
    else Step(r, b, edits[|edits| - 1].pitch, After(r, b, c, edits[..|edits| - 1]))
  }

  /** A whole call: how much comes out and what is left, from the sizes, the
      promise and the pitch of each edit. */
  function CallCourse(r: real, b: int, fill: int, len: int, lcp: int, nudge: real, edits: seq<Edit>): Course
    requires r > 0.0 && r != 1.0 && b > 0
  {
    if fill + len < b then Spent(fill + len, lcp, nudge, 0)
    else Finish(b, After(r, b, Full(fill + len - b, lcp, nudge, 0), edits))
  }

  lemma AfterSnoc(r: real, b: int, c: Course, edits: seq<Edit>, e: Edit)
    requires r > 0.0 && r != 1.0
    ensures After(r, b, c, edits + [e]) == Step(r, b, e.pitch, After(r, b, c, edits))
  {
    assert (edits + [e])[..|edits|] == edits;
    hide Step;
  }

  /** Where a round leaves the call. */
  lemma NextCourse(r: real, b: int, c0: Course, edits: seq<Edit>, more: seq<Edit>, now: Course)
    requires r > 0.0 && r != 1.0 && b > 0 && |more| <= 1
    requires var c := After(r, b, c0, edits); now == if more == [] then Finish(b, c) else Step(r, b, more[0].pitch, c)
    ensures var c := After(r, b, c0, edits + more);
      (more != [] && now.Full? ==> now == c) && (now.Spent? ==> now == Finish(b, c))
  {
    hide Step;
    if more == [] {
      assert edits + more == edits;
    } else {
      AfterSnoc(r, b, c0, edits, more[0]);
      assert more == [more[0]];
    }
  }

  lemma NothingAfter(r: real, b: int, c: Course)
    requires r > 0.0 && r != 1.0
    ensures After(r, b, c, []) == c
  {
  }

  lemma FirstCopy(b: int, left: int, lcp: int, lcp0: int, done: int, j: int)
    requires b > 0 && done == Times(j, b) && j >= 0 && lcp0 == done + lcp && 0 <= left
    ensures lcp >= b && left < b ==> Copied(b, done + left, lcp0) == done + b
    ensures 0 < lcp < b && left < lcp ==> Copied(b, done + left, lcp0) == lcp0
  {
    if left < b {
      WholeBuffers(b, j, left);
    }
  }

  lemma OneMoreBuffer(j: int, b: int)
    ensures Times(0, b) == 0 && Times(j + 1, b) == Times(j, b) + b
  {
  }

  lemma WholeBuffers(b: int, j: int, left: int)
    requires b > 0 && 0 <= left < b
    ensures (b + Times(j, b) + left) / b * b == b + Times(j, b)
  {
    ModUnique(b + j * b + left, b, j + 1, left);
  }

  /** All edits are of pitches the buffer can ask for. */
  ghost predicate Pitched(edits: seq<Edit>, max_pitch: nat, min_pitch: nat) {
    forall i :: 0 <= i < |edits| ==> max_pitch <= edits[i].pitch <= min_pitch
  }

  lemma PitchIn(pitch: nat, b: seq<int>, max_pitch: nat, min_pitch: nat, len: nat)
    requires PitchOf(pitch, b, max_pitch, min_pitch, len)
    ensures max_pitch <= pitch <= min_pitch
  {
  }

  /** The integer number of samples, and the rounding error carried over. */
  function NextPromise(lcpf: real, nudge: real): (int, real) {
    var l := Trunc(lcpf);
    var n := nudge + (l as real - lcpf);
    if n >= 0.5 then (l - 1, n - 1.0) else if n <= -0.5 then (l + 1, n + 1.0) else (l, n)
  }

  method Rounded(lcpf: real, nudge: real) returns (lcp: int, rate_nudge: real)
    requires lcpf > 0.0 && -0.5 <= nudge <= 0.5
    ensures (lcp, rate_nudge) == NextPromise(lcpf, nudge)
    ensures lcp as real - rate_nudge == lcpf - nudge
    ensures lcp >= 0 && -0.5 <= rate_nudge <= 0.5
  {
    lcp := Trunc(lcpf);
    rate_nudge := nudge + (lcp as real - lcpf);
    if rate_nudge >= 0.5 {
      lcp := lcp - 1;
      rate_nudge := rate_nudge - 1.0;
    } else if rate_nudge <= -0.5 {
      lcp := lcp + 1;
      rate_nudge := rate_nudge + 1.0;
    }
  }

  /** How much to copy after a change of one pitch period. */
  method Promise(pitch: nat, min_pitch: nat, rcomp: real, nudge: real) returns (lcp: int, rate_nudge: real)
    requires rcomp > 0.0 && -0.5 <= nudge <= 0.5 && 1 <= pitch <= min_pitch
    ensures lcp as real - rate_nudge == pitch as real * rcomp - nudge
    ensures lcp >= 0 && -0.5 <= rate_nudge <= 0.5 && lcp as real <= min_pitch as real * rcomp + 1.0
    ensures lcp == 0 ==> rate_nudge == nudge - pitch as real * rcomp
    ensures (lcp, rate_nudge) == NextPromise(pitch as real * rcomp, nudge)
  {
    hide NextPromise;
    var lcpf := pitch as real * rcomp;
    StrictlyPositive(pitch as real, rcomp);
    Below(pitch as real, min_pitch as real, rcomp);
    lcp, rate_nudge := Rounded(lcpf, nudge);
    AtMostOneMore(lcp, rate_nudge, lcpf, nudge, min_pitch as real * rcomp);
  }

  lemma AtMostOneMore(lcp: int, nudge': real, lcpf: real, nudge: real, top: real)
    requires lcp as real - nudge' == lcpf - nudge && nudge' <= 0.5 && -0.5 <= nudge && lcpf <= top
    ensures lcp as real <= top + 1.0
  {
  }

  // ------------------------------------------- what a change does to the signal

  /** One pitch period dropped or inserted at a place in the signal. */
  datatype Edit = Edit(at: nat, pitch: nat, insert: bool)

  predicate Fits(e: Edit, s: seq<int>) {
    e.pitch > 0 && e.at + 2 * e.pitch <= |s|
  }

  /** x fading into y. */
  function Cross(x: seq<int>, y: seq<int>): seq<int>
    requires |x| == |y|
  {
    seq(|x|, k requires 0 <= k < |x| => Faded(x[k], y[k], k, |x|))
  }

  /** Inserting puts a period between two, fading from the second back to the
      first. Dropping cuts the second of two periods out: the cross-fade written
      over it is overwritten when the gap is closed. */
  function Apply(e: Edit, s: seq<int>): seq<int>
    requires Fits(e, s)
  {
    var a, b := s[e.at..e.at + e.pitch], s[e.at + e.pitch..e.at + 2 * e.pitch];
    if e.insert then s[..e.at + e.pitch] + Cross(b, a) + s[e.at + e.pitch..]
    else s[..e.at + e.pitch] + s[e.at + 2 * e.pitch..]
  }

  /** Two periods replaced by one that fades from the first to the second. */
  function CrossFaded(e: Edit, s: seq<int>): seq<int>
    requires Fits(e, s)
  {
    s[..e.at] + Cross(s[e.at..e.at + e.pitch], s[e.at + e.pitch..e.at + 2 * e.pitch]) + s[e.at + 2 * e.pitch..]
  }

  /** Samples a and b, k into a fade of p, for which the fade is still a: b is
      within p / k of a on the far side from 0, or on either side of an a of 0. */
  predicate Still(a: int, b: int, k: int, p: int) {
    var d := (b - a) * k;
    if a > 0 then 0 <= d < p else if a < 0 then -p < d <= 0 else -p < d < p
  }

  lemma FadedStill(a: int, b: int, k: int, p: int)
    requires 0 <= k < p
    ensures Faded(a, b, k, p) == a <==> Still(a, b, k, p)
  {
    hide Faded, Trunc;
    var d := (b - a) * k;
    var x := d as real / p as real;
    FadedIs(a, b, k, p);
    Scaled(x, d, p);
    TruncStill(a, x);
  }

  lemma FadedIs(a: int, b: int, k: int, p: int)
    requires 0 <= k < p
    ensures Faded(a, b, k, p) == Trunc(a as real + ((b - a) * k) as real / p as real)
  {
    CastProduct(a, b, k);
    hide *;
    var w := k as real / p as real;
    FadedAs(a, b, k, p, w);
    FadeIs(a as real, b as real, k as real, p as real, w, ((b - a) * k) as real);
    SameTrunc(a as real * (1.0 - w) + b as real * w, a as real + ((b - a) * k) as real / p as real);
  }

  lemma SameTrunc(x: real, y: real)
    requires x == y
    ensures Trunc(x) == Trunc(y)
  {
  }

  lemma FadedAs(a: int, b: int, k: int, p: int, w: real)
    requires p > 0 && w == k as real / p as real
    ensures Faded(a, b, k, p) == Trunc(a as real * (1.0 - w) + b as real * w)
  {
    hide Trunc;
    assert Weight(k, p) == w;
    FadeAs(a, b, w);
    hide Weight, Fade;
  }

  lemma FadeAs(a: int, b: int, w: real)
    ensures Fade(a, b, w) == Trunc(a as real * (1.0 - w) + b as real * w)
  {
    hide Trunc;
  }

  lemma CastProduct(a: int, b: int, k: int)
    ensures ((b - a) * k) as real == (b as real - a as real) * k as real
  {
  }

  lemma FadeIs(a: real, b: real, k: real, p: real, w: real, d: real)
    requires p > 0.0 && w == k / p && d == (b - a) * k
    ensures a * (1.0 - w) + b * w == a + d / p
  {
    assert w * p == k;
    assert d == ((b - a) * w) * p;
    SameQuotient((b - a) * w, d, p);
  }

  lemma SameQuotient(q: real, x: real, p: real)
    requires p > 0.0 && x == q * p
    ensures x / p == q
  {
    var y := x / p;
    assert y * p == x;
    DiffProduct(y, q, p);
    assert (y - q) * p == 0.0;
  }

  /** Bounds of a quotient are bounds of its numerator. */
  lemma Scaled(x: real, d: int, p: int)
    requires p > 0 && x == d as real / p as real
    ensures (x >= 0.0 <==> d >= 0) && (x <= 0.0 <==> d <= 0) && (x < 1.0 <==> d < p) && (x > -1.0 <==> d > -p)
  {
    assert x * p as real == d as real;
    Compared(x, p as real, d as real);
  }

  lemma Compared(x: real, q: real, d: real)
    requires q > 0.0 && x * q == d
    ensures (x >= 0.0 <==> d >= 0.0) && (x <= 0.0 <==> d <= 0.0) && (x < 1.0 <==> d < q) && (x > -1.0 <==> d > -q)
  {
    SameSign(x, q);
    var u, v := x - 1.0, x + 1.0;
    SameSign(u, q);
    SameSign(v, q);
    assert u * q == d - q && v * q == d + q;
  }

  lemma SameSign(x: real, y: real)
    requires y > 0.0
    ensures (x > 0.0 <==> x * y > 0.0) && (x < 0.0 <==> x * y < 0.0)
  {
    if x > 0.0 {
      StrictlyPositive(x, y);
    } else if x < 0.0 {
      StrictlyPositive(-x, y);
    }
  }

  lemma TruncStill(a: int, x: real)
    ensures Trunc(a as real + x) == a
       <==> if a > 0 then 0.0 <= x < 1.0 else if a < 0 then -1.0 < x <= 0.0 else -1.0 < x < 1.0
  {
    var y := a as real + x;
    FloorIs(y);
    FloorIs(-y);
  }

  lemma FloorIs(y: real)
    ensures y.Floor as real <= y < y.Floor as real + 1.0
  {
  }

  predicate StillAt(e: Edit, s: seq<int>, k: int)
    requires Fits(e, s) && 0 <= k < e.pitch
  {
    Still(s[e.at + k], s[e.at + e.pitch + k], k, e.pitch)
  }

  /** A signal that fades into itself does not change. */
  lemma NoFade(a: seq<int>)
    ensures Cross(a, a) == a
  {
    hide Faded;
    forall k | 0 <= k < |a|
      ensures Cross(a, a)[k] == a[k]
    {
      FadedStill(a[k], a[k], k, |a|);
    }
  }

  lemma ApplyIs(e: Edit, s: seq<int>)
    requires Fits(e, s)
    ensures e.at + 2 * e.pitch <= |s|
    ensures var a, b := s[e.at..e.at + e.pitch], s[e.at + e.pitch..e.at + 2 * e.pitch];
      Apply(e, s) == if e.insert then s[..e.at + e.pitch] + Cross(b, a) + s[e.at + e.pitch..] else s[..e.at + e.pitch] + s[e.at + 2 * e.pitch..]
  {
    hide Cross;
  }

  lemma ThreeParts(s: seq<int>, at: nat, p: nat)
    requires at + 2 * p <= |s|
    ensures s[..at + p] == s[..at] + s[at..at + p] && s[at + p..] == s[at + p..at + 2 * p] + s[at + 2 * p..]
    ensures s == s[..at + p] + s[at + p..]
  {
  }

  lemma Joined(x: seq<int>, a: seq<int>, y: seq<int>)
    ensures x + a + (a + y) == x + a + a + y
    ensures x + a + a + (a + y) == x + (a + a + a) + y
  {
  }

  /** Where two periods are equal, an edit adds one more or takes one away, and
      nothing else is heard of it. */
  lemma PeriodicEdit(e: Edit, s: seq<int>)
    requires Fits(e, s) && s[e.at + e.pitch..e.at + 2 * e.pitch] == s[e.at..e.at + e.pitch]
    ensures var a := s[e.at..e.at + e.pitch];
      && s == s[..e.at] + a + a + s[e.at + 2 * e.pitch..]
      && Apply(e, s) == s[..e.at] + (if e.insert then a + a + a else a) + s[e.at + 2 * e.pitch..]
  {
    var a, rest := s[e.at..e.at + e.pitch], s[e.at + 2 * e.pitch..];
    NoFade(a);
    ApplyIs(e, s);
    hide *;
    ThreeParts(s, e.at, e.pitch);
    Joined(s[..e.at], a, rest);
  }

  /** Dropping, which cuts the second of two periods out, is the cross-fade it
      sets out to be exactly where the samples k into the two periods differ by
      too little to move the first one. */
  lemma DropIsNoFade(e: Edit, s: seq<int>)
    requires Fits(e, s) && !e.insert
    ensures Apply(e, s) == CrossFaded(e, s)
       <==> forall k :: 0 <= k < e.pitch ==> StillAt(e, s, k)
  {
    CutOrFade(e, s);
    hide Apply, CrossFaded, StillAt;
    var a, b := s[e.at..e.at + e.pitch], s[e.at + e.pitch..e.at + 2 * e.pitch];
    forall k | 0 <= k < e.pitch
      ensures Cross(a, b)[k] == a[k] <==> StillAt(e, s, k)
    {
      CrossStill(e, s, k);
    }
    hide Cross;
    if forall k :: 0 <= k < e.pitch ==> StillAt(e, s, k) {
      assert Cross(a, b) == a;
    }
  }

  lemma CrossStill(e: Edit, s: seq<int>, k: int)
    requires Fits(e, s) && 0 <= k < e.pitch
    ensures var a, b := s[e.at..e.at + e.pitch], s[e.at + e.pitch..e.at + 2 * e.pitch];
      Cross(a, b)[k] == a[k] <==> StillAt(e, s, k)
  {
    hide Faded, Still;
    FadedStill(s[e.at + k], s[e.at + e.pitch + k], k, e.pitch);
  }

  lemma CutOrFade(e: Edit, s: seq<int>)
    requires Fits(e, s) && !e.insert
    ensures Apply(e, s) == CrossFaded(e, s)
       <==> Cross(s[e.at..e.at + e.pitch], s[e.at + e.pitch..e.at + 2 * e.pitch]) == s[e.at..e.at + e.pitch]
  {
    hide Faded;
    var a := s[e.at..e.at + e.pitch];
    var c := Cross(a, s[e.at + e.pitch..e.at + 2 * e.pitch]);
    hide Cross;
    var x, y := Apply(e, s), CrossFaded(e, s);
    assert x == s[..e.at] + a + s[e.at + 2 * e.pitch..];
    assert x[e.at..e.at + e.pitch] == a && y[e.at..e.at + e.pitch] == c;
  }

  /** Two periods of two samples are enough to tell them apart. */
  lemma DropExample()
    ensures var e, s := Edit(0, 2, false), [0, 0, 0, 10]; Fits(e, s) && Apply(e, s) != CrossFaded(e, s)
  {
    var e, s := Edit(0, 2, false), [0, 0, 0, 10];
    assert Fits(e, s) && !StillAt(e, s, 1);
    hide *;
    DropIsNoFade(e, s);
  }

  /** t is s after the edits. */
  ghost predicate Edited(edits: seq<Edit>, s: seq<int>, t: seq<int>, insert: bool) {
    if edits == [] then t == s
    else
      var e := edits[|edits| - 1];
      e.insert == insert && exists u :: Edited(edits[..|edits| - 1], s, u, insert) && Fits(e, u) && t == Apply(e, u)
  }

  /** The pitch the buffer asks for: the first lag with the least average
      magnitude difference. */
  ghost predicate PitchOf(pitch: nat, b: seq<int>, max_pitch: nat, min_pitch: nat, len: nat) {
    && max_pitch <= pitch <= min_pitch && min_pitch + len <= |b|
    && (forall i :: max_pitch <= i <= min_pitch ==> Amdf(b, pitch, len) <= Amdf(b, i, len))
    && (forall i :: max_pitch <= i < pitch ==> Amdf(b, pitch, len) < Amdf(b, i, len))
  }

  /** Where the signal repeats at some lag in range, the pitch is such a lag, and
      the shortest; where it does not, the pitch leaves a difference. */
  lemma PeriodFound(pitch: nat, b: seq<int>, max_pitch: nat, min_pitch: nat, len: nat)
    requires PitchOf(pitch, b, max_pitch, min_pitch, len)
    ensures (exists i :: max_pitch <= i <= min_pitch && Repeats(b, i, len)) <==> Repeats(b, pitch, len)
    ensures forall i :: max_pitch <= i < pitch ==> !Repeats(b, i, len)
  {
    hide Amdf;
    RepeatsFirst(b, max_pitch, min_pitch, len, pitch);
    hide Repeats;
  }

  /** Nor does it matter which way up a signal is. */
  lemma PitchTurned(pitch: nat, b: seq<int>, t: seq<int>, c: int, max_pitch: nat, min_pitch: nat, len: nat)
    requires PitchOf(pitch, b, max_pitch, min_pitch, len) && |b| == |t| && forall k :: 0 <= k < |b| ==> t[k] == c - b[k]
    ensures PitchOf(pitch, t, max_pitch, min_pitch, len)
  {
    hide Amdf;
    forall i | max_pitch <= i <= min_pitch
      ensures Amdf(t, i, len) == Amdf(b, i, len)
    {
      AmdfTurned(b, t, c, i, len);
    }
  }

  lemma {:induction false} AmdfPrefix(s: seq<int>, n: nat, i: nat, len: nat)
    requires i + len <= n <= |s|
    ensures Amdf(s[..n], i, len) == Amdf(s, i, len)
  {
    if len > 0 {
      AmdfPrefix(s, n, i, len - 1);
    }
  }

  lemma PitchInWindow(pitch: nat, b: seq<int>, max_pitch: nat, min_pitch: nat)
    requires max_pitch <= pitch <= min_pitch && 2 * min_pitch <= |b|
    requires PitchOf(pitch, b[..2 * min_pitch], max_pitch, min_pitch, min_pitch)
    ensures PitchOf(pitch, b, max_pitch, min_pitch, min_pitch)
  {
    hide Amdf;
    forall i | max_pitch <= i <= min_pitch
      ensures Amdf(b[..2 * min_pitch], i, min_pitch) == Amdf(b, i, min_pitch)
    {
      AmdfPrefix(b, 2 * min_pitch, i, min_pitch);
    }
  }

  lemma CopyStream(out0: seq<int>, b: seq<int>, b': seq<int>, n: nat, len: nat, inp: seq<int>, in0: nat, taken: nat)
    requires n <= len <= |b| == |b'| && in0 + taken <= |inp| && len - n + taken <= |b'|
    requires b'[..len - n] == b[n..len] && b'[len - n..len - n + taken] == inp[in0..in0 + taken]
    ensures out0 + b[..n] + b'[..len - n + taken] + inp[in0 + taken..] == out0 + b[..len] + inp[in0..]
  {
    assert b'[..len - n + taken] == b[n..len] + inp[in0..in0 + taken];
    assert b[..n] + b[n..len] == b[..len];
    assert inp[in0..in0 + taken] + inp[in0 + taken..] == inp[in0..];
    RegroupFive(out0, b[..n], b[n..len], inp[in0..in0 + taken], inp[in0 + taken..]);
  }

  lemma RegroupFive(o: seq<int>, p: seq<int>, q: seq<int>, x: seq<int>, y: seq<int>)
    ensures o + p + (q + x) + y == o + (p + q) + (x + y)
  {
  }

  lemma InsertStream(out0: seq<int>, b: seq<int>, b': seq<int>, p: nat, len: nat, inp: seq<int>, in0: nat)
    requires 0 < p && 2 * p <= len <= |b| == |b'| && in0 <= |inp|
    requires forall k {:trigger b'[k]} :: 0 <= k < |b| ==> b'[k] == if 0 <= k < p then Faded(b[p + k], b[k], k, p) else b[k]
    ensures var s := out0 + b[..len] + inp[in0..]; var e := Edit(|out0|, p, true);
      Fits(e, s) && out0 + b[..p] + b'[..len] + inp[in0..] == Apply(e, s)
  {
    hide Fade;
    var s := out0 + b[..len] + inp[in0..];
    var o := |out0|;
    var tail := b[p..len] + inp[in0..];
    Periods(out0, b, p, len, inp[in0..], s);
    InsertedBuffer(b, b', p, len);
    ApplyInsert(Edit(o, p, true), s, out0 + b[..p], b[..p], b[p..2 * p], tail);
    hide Cross, Apply;
    Regroup(out0 + b[..p], Cross(b[p..2 * p], b[..p]), b[p..len], inp[in0..]);
  }

  lemma InsertedBuffer(b: seq<int>, b': seq<int>, p: nat, len: nat)
    requires 0 < p && 2 * p <= len <= |b| == |b'|
    requires forall k {:trigger b'[k]} :: 0 <= k < |b| ==> b'[k] == if 0 <= k < p then Faded(b[p + k], b[k], k, p) else b[k]
    ensures b'[..len] == Cross(b[p..2 * p], b[..p]) + b[p..len]
  {
    hide Faded;
  }

  lemma SameSlice(s: seq<int>, t: seq<int>, k: nat, n: nat)
    requires k <= n <= |s| == |t| && s[k..] == t[k..]
    ensures s[k..n] == t[k..n]
  {
    assert s[k..n] == s[k..][..n - k] && t[k..n] == t[k..][..n - k];
  }

  lemma ApplyInsert(e: Edit, s: seq<int>, front: seq<int>, a: seq<int>, b: seq<int>, rest: seq<int>)
    requires Fits(e, s) && e.insert && s[e.at..e.at + e.pitch] == a && s[e.at + e.pitch..e.at + 2 * e.pitch] == b
    requires s[..e.at + e.pitch] == front && s[e.at + e.pitch..] == rest
    ensures Apply(e, s) == front + Cross(b, a) + rest
  {
    hide Cross;
  }

  lemma Regroup(x: seq<int>, y: seq<int>, z: seq<int>, w: seq<int>)
    ensures x + (y + z) + w == x + y + (z + w)
  {
  }

  /** The buffer's first two periods, in the stream. */
  lemma Periods(out0: seq<int>, b: seq<int>, p: nat, len: nat, rest: seq<int>, s: seq<int>)
    requires 0 < p && 2 * p <= len <= |b| && s == out0 + b[..len] + rest
    ensures var o := |out0|;
      && o + 2 * p <= |s| && s[o..o + p] == b[..p] && s[o + p..o + 2 * p] == b[p..2 * p]
      && s[..o] == out0 && s[..o + p] == out0 + b[..p] && s[o + p..] == b[p..len] + rest && s[o + 2 * p..] == b[2 * p..len] + rest
  {
    assert s == out0 + b[..p] + (b[p..len] + rest);
    assert b[p..len] == b[p..2 * p] + b[2 * p..len];
    assert s == out0 + b[..p] + b[p..2 * p] + (b[2 * p..len] + rest);
  }

  /** The second of two periods is gone, and new input follows. */
  ghost predicate GapClosed(b: seq<int>, b3: seq<int>, p: nat, len: nat, inp: seq<int>, in0: nat, taken: nat)
    requires 2 * p <= len <= |b| == |b3| && in0 + taken <= |inp| && taken <= p
  {
    b3[..len - p + taken] == b[..p] + b[2 * p..len] + inp[in0..in0 + taken]
  }

  lemma DropStream(out0: seq<int>, b: seq<int>, b3: seq<int>, p: nat, len: nat, inp: seq<int>, in0: nat, taken: nat)
    requires 0 < p && 2 * p <= len <= |b| == |b3| && in0 + taken <= |inp| && taken <= p
    requires GapClosed(b, b3, p, len, inp, in0, taken)
    ensures var s := out0 + b[..len] + inp[in0..]; var e := Edit(|out0|, p, false);
      Fits(e, s) && out0 + b3[..len - p + taken] + inp[in0 + taken..] == Apply(e, s)
  {
    hide Faded;
    var s := out0 + b[..len] + inp[in0..];
    Periods(out0, b, p, len, inp[in0..], s);
    assert inp[in0..] == inp[in0..in0 + taken] + inp[in0 + taken..];
    var u, v := inp[in0..in0 + taken], inp[in0 + taken..];
    Regroup(out0, b[..p] + b[2 * p..len], u, v);
    Regroup(out0, b[..p], b[2 * p..len], u + v);
  }

  lemma CloseParts(b: seq<int>, b2: seq<int>, b3: seq<int>, p: nat, len: nat, inp: seq<int>, in0: nat, taken: nat)
    requires 0 < p && 2 * p <= len <= |b| == |b2| == |b3| && in0 + taken <= |inp| && taken <= p
    requires b2[..p] == b[..p] && b2[p..len - p] == b[2 * p..len]
    requires b3[..len - p] == b2[..len - p] && b3[len - p..len - p + taken] == inp[in0..in0 + taken]
    ensures GapClosed(b, b3, p, len, inp, in0, taken)
  {
    assert b2[..len - p] == b2[..p] + b2[p..len - p];
    assert b3[..len - p + taken] == b2[..len - p] + inp[in0..in0 + taken];
  }

  /** A pitch of at least max_pitch moves the nudge by at least so much. */
  lemma NudgeFalls(rate: real, max_pitch: nat, pitch: nat)
    requires rate > 0.0 && rate != 1.0 && max_pitch <= pitch
    ensures Stride(rate, max_pitch) <= Stride(rate, pitch)
  {
    CompPositive(rate);
    Below(max_pitch as real, pitch as real, Comp(rate));
  }

  class TimeScaleState {
    var sample_rate: nat
    var min_pitch: nat
    var max_pitch: nat
    var buf_len: nat
    var playout_rate: real
    var rcomp: real
    var rate_nudge: real
    var fill: int
    var lcp: int
    const buf: array<int>

    /** The sizes time_scale_init derives from the sample rate. */
    predicate Derived()
      reads this`sample_rate, this`min_pitch, this`max_pitch, this`buf_len
    {
      && sample_rate <= MAX_SAMPLE_RATE && buf.Length == BUF_LEN
      && min_pitch == sample_rate / MIN_PITCH && max_pitch == sample_rate / MAX_PITCH && buf_len == 2 * sample_rate / MIN_PITCH
    }

    predicate Rated()
      reads this`playout_rate, this`rcomp
    {
      playout_rate > 0.0 && (playout_rate != 1.0 ==> rcomp == Comp(playout_rate))
    }

    /** What holds at every step; at 250 samples a second or more a pitch
        period is at least one sample. */
    ghost predicate Sound()
      reads this, buf
    {
      && Derived() && MAX_PITCH <= sample_rate && 1 <= max_pitch <= min_pitch <= 800 && 2 * min_pitch <= buf_len <= buf.Length
      && Rated() && playout_rate > 0.0
      && -0.5 <= rate_nudge <= 0.5 && 0 <= fill <= buf_len && 0 <= lcp && Samples(buf[..])
    }

    ghost predicate Valid()
      reads this, buf
    {
      Sound() && fill < buf_len
    }

    ghost function Owed(): real
      reads this`playout_rate, this`fill, this`lcp, this`rate_nudge
    {
      Level(playout_rate, fill, lcp, rate_nudge)
    }

    /** lcp is what one pitch period can promise at this rate. */
    ghost predicate Bounded()
      reads this`playout_rate, this`lcp, this`min_pitch
    {
      playout_rate != 1.0 && playout_rate > 0.0 ==> lcp as real <= min_pitch as real * Comp(playout_rate) + 1.0
    }

    /** time_scale_rate */
    method SetRate(rate: real) returns (status: int)
      modifies this`playout_rate, this`rcomp, this`lcp
      ensures status == (if rate <= 0.0 then -1 else 0)
      ensures rate <= 0.0 ==> playout_rate == old(playout_rate) && rcomp == old(rcomp) && lcp == old(lcp)
      ensures rate > 0.0 ==> playout_rate == if 0.99 <= rate <= 1.01 then 1.0 else rate
      ensures rate > 0.0 ==> lcp == if playout_rate == 1.0 then 0 else old(lcp)
      ensures rate > 0.0 || old(Rated()) ==> Rated()
      ensures old(Sound()) ==> Sound()
    {
      var r := rate;
      if r <= 0.0 {
        return -1;
      }
      if r >= 0.99 && r <= 1.01 {
        r := 1.0;
        lcp := 0;
      } else if r < 1.0 {
        rcomp := r / (1.0 - r);
      } else {
        rcomp := 1.0 / (r - 1.0);
      }
      playout_rate := r;
      status := 0;
    }

    constructor Idle(rate_of_samples: nat)
      requires rate_of_samples <= MAX_SAMPLE_RATE
      ensures Derived() && Rated() && (MAX_PITCH <= rate_of_samples ==> Valid())
      ensures fill == 0 && lcp == 0 && rate_nudge == 0.0 && playout_rate == 1.0 && sample_rate == rate_of_samples
      ensures fresh(buf)
    {
      sample_rate := rate_of_samples;
      min_pitch := rate_of_samples / MIN_PITCH;
      max_pitch := rate_of_samples / MAX_PITCH;
      buf_len := 2 * rate_of_samples / MIN_PITCH;
      playout_rate := 1.0;
      rcomp := 0.0;
      rate_nudge := 0.0;
      fill := 0;
      lcp := 0;
      buf := new int[BUF_LEN](_ => 0);
      if MAX_PITCH <= rate_of_samples {
        BufferSizes(rate_of_samples);
      }
    }

    /** time_scale_init: no state for a sample rate or playout rate out of
        range. Below 250 samples a second there is a state, but one whose
        shortest pitch period is empty, with which the search cannot work. */
    static method Init(sample_rate: nat, playout_rate: real) returns (s: TimeScaleState?)
      ensures s == null <==> sample_rate > 48000 || playout_rate <= 0.0
      ensures s != null ==> fresh(s) && fresh(s.buf) && s.Derived() && s.Rated() && s.min_pitch == sample_rate / 60 && s.max_pitch == sample_rate / 250
      ensures s != null ==> if 250 <= sample_rate then s.Valid() && s.Bounded() && s.Owed() == 0.0 else s.max_pitch == 0
      ensures s != null ==> s.playout_rate == if 0.99 <= playout_rate <= 1.01 then 1.0 else playout_rate
      ensures s != null ==> s.sample_rate == sample_rate && s.fill == 0 && s.lcp == 0 && s.rate_nudge == 0.0
    {
      if sample_rate > MAX_SAMPLE_RATE {
        return null;
      }
      var t := new TimeScaleState.Idle(sample_rate);
      var status := t.SetRate(playout_rate);
      if status != 0 {
        return null;
      }
      s := t;
      if MAX_PITCH <= sample_rate {
        StartBounded(s);
      }
    }

    static lemma StartBounded(s: TimeScaleState)
      requires s.Sound() && s.fill == 0 && s.lcp == 0 && s.rate_nudge == 0.0
      ensures s.Bounded() && s.Owed() == 0.0
    {
      if s.playout_rate != 1.0 {
        CompPositive(s.playout_rate);
        NonnegativeProduct(s.min_pitch as real, Comp(s.playout_rate));
      }
    }

    /** The new lcp for a pitch period, its rounding error carried over. */
    method Nudge(pitch: nat)
      requires Sound() && playout_rate != 1.0 && lcp == 0 && 1 <= pitch <= min_pitch
      modifies this`lcp, this`rate_nudge
      ensures Promised(playout_rate, pitch, old(rate_nudge), lcp, rate_nudge)
      ensures lcp >= 0 && -0.5 <= rate_nudge <= 0.5 && Bounded()
      ensures lcp == 0 ==> rate_nudge == old(rate_nudge) - Stride(playout_rate, pitch)
      ensures (lcp, rate_nudge) == NextPromise(Stride(playout_rate, pitch), old(rate_nudge))
    {
      hide Comp, Samples, Derived, NextPromise;
      CompPositive(playout_rate);
      assert rcomp == Comp(playout_rate);
      hide Rated;
      lcp, rate_nudge := Promise(pitch, min_pitch, rcomp, rate_nudge);
    }

    /** Output so far, against input taken so far. */
    ghost predicate Law(level0: real, out: int, in_len: int)
      reads this`playout_rate, this`fill, this`lcp, this`rate_nudge
    {
      Balance(playout_rate, level0, out, in_len, fill, lcp, rate_nudge)
    }

    /** What has come out, is buffered, and is still to come. */
    function Stream(out: seq<int>, inp: seq<int>, in_len: nat): seq<int>
      requires 0 <= fill <= buf.Length && in_len <= |inp|
      reads this`fill, buf
    {
      out + buf[..fill] + inp[in_len..]
    }

    lemma StreamIs(out: seq<int>, inp: seq<int>, in_len: nat)
      requires 0 <= fill <= buf.Length && in_len <= |inp|
      ensures Stream(out, inp, in_len) == out + buf[..fill] + inp[in_len..]
    {
    }

    lemma LawIs(level0: real, out: int, in_len: int)
      ensures Law(level0, out, in_len)
         <==> Balance(playout_rate, level0, out, in_len, fill, lcp, rate_nudge)
    {
      hide Level;
    }

    /** Copies the first n buffered samples out and refills the buffer as far as
        the input goes. */
    method CopyOut(n: nat, inp: seq<int>, out0: seq<int>, in0: nat, ghost level0: real) returns (out: seq<int>, in_len: nat, done: bool)
      requires Sound() && fill == buf_len && 0 < n <= buf_len && n <= lcp && in0 <= |inp|
      requires Samples(inp) && Samples(out0) && Law(level0, |out0|, in0)
      modifies this`fill, this`lcp, buf
      ensures Sound() && Samples(out) && Law(level0, |out|, in_len) && in0 <= in_len <= |inp| && lcp == old(lcp) - n
      ensures |out| == |out0| + n
      ensures Stream(out, inp, in_len) == old(Stream(out0, inp, in0))
      ensures if done then in_len == |inp| && fill < buf_len else fill == buf_len && in_len == in0 + n
      ensures done == (|inp| - in0 < n) && (done ==> fill == buf_len - n + (|inp| - in0))
    {
      hide Level, Derived, Rated, Samples, Stream, Law;
      StreamIs(out0, inp, in0);
      LawIs(level0, |out0|, in0);
      out := out0 + buf[..n];
      SamplesPart(buf[..], out0, n);
      done := |inp| - in0 < n;
      var taken := if done then |inp| - in0 else n;
      LawAfterCopy(playout_rate, level0, |out0|, in0, fill, lcp, rate_nudge, n, taken);
      ShiftDown(n, out0, inp, in0, taken);
      fill, lcp := buf_len - n + taken, lcp - n;
      in_len := in0 + taken;
      StreamIs(out, inp, in_len);
      LawIs(level0, |out|, in_len);
    }

    /** Moves the rest of the buffer down and refills it; nothing of the stream is
        lost. */
    method ShiftDown(n: nat, ghost out0: seq<int>, inp: seq<int>, at: nat, taken: nat)
      requires n <= buf_len <= buf.Length && taken <= n && at + taken <= |inp| && Samples(buf[..]) && Samples(inp)
      modifies buf
      ensures Samples(buf[..])
      ensures out0 + old(buf[..n]) + buf[..buf_len - n + taken] + inp[at + taken..] == out0 + old(buf[..buf_len]) + inp[at..]
    {
      hide Samples;
      ghost var b := buf[..];
      Move(buf, 0, n, buf_len - n);
      MovedSamples(b, buf[..], 0, n, buf_len - n);
      Refill(buf_len - n, inp, at, taken);
      CopyStream(out0, b, buf[..], n, buf_len, inp, at, taken);
    }

    method Refill(to: nat, inp: seq<int>, at: nat, n: nat)
      requires to + n <= buf.Length && at + n <= |inp| && Samples(buf[..]) && Samples(inp)
      modifies buf
      ensures buf[..to] == old(buf[..to]) && buf[to..to + n] == inp[at..at + n] && Samples(buf[..])
    {
      ghost var s := buf[..];
      Load(buf, to, inp[at..at + n]);
      LoadedSamples(s, buf[..], to, inp, at, n);
    }

    /** The call as it stands. */
    function Now(out: int, left: int, done: bool): Course
      reads this`fill, this`lcp, this`rate_nudge
    {
      if done then Spent(fill, lcp, rate_nudge, out) else Full(left, lcp, rate_nudge, out)
    }

    /** Copies what is promised: whole buffers first, then the rest. */
    method CopyPromised(inp: seq<int>, out0: seq<int>, in0: nat, ghost level0: real) returns (out: seq<int>, in_len: nat, done: bool)
      requires Sound() && fill == buf_len && in0 <= |inp| && Samples(inp) && Samples(out0) && Law(level0, |out0|, in0)
      modifies this`fill, this`lcp, buf
      ensures Sound() && Samples(out) && Law(level0, |out|, in_len) && in0 <= in_len <= |inp| && lcp <= old(lcp)
      ensures Stream(out, inp, in_len) == old(Stream(out0, inp, in0))
      ensures if done then in_len == |inp| && fill < buf_len else fill == buf_len && lcp == 0
      ensures !done && old(lcp) > 0 ==> in_len > in0
      ensures done == (|inp| - in0 < old(lcp))
      ensures if done then Now(|out|, 0, true) == Finish(buf_len, old(Now(|out0|, |inp| - in0, false)))
        else |out| == |out0| + old(lcp) && in_len == in0 + old(lcp)
    {
      hide Level, Derived, Rated, Samples, Law, Stream, Copied, Times;
      out, in_len, done := out0, in0, false;
      ghost var j := 0;
      OneMoreBuffer(j, buf_len);
      while lcp >= buf_len
        invariant Sound() && Samples(out) && Law(level0, |out|, in_len) && in0 <= in_len <= |inp| && !done && fill == buf_len
        invariant Stream(out, inp, in_len) == old(Stream(out0, inp, in0))
        invariant j >= 0 && Times(j, buf_len) == old(lcp) - lcp == in_len - in0 == |out| - |out0|
        decreases lcp
      {
        FirstCopy(buf_len, |inp| - in_len, lcp, old(lcp), in_len - in0, j);
        OneMoreBuffer(j, buf_len);
        out, in_len, done := CopyOut(buf_len, inp, out, in_len, level0);
        j := j + 1;
        if done {
          return;
        }
      }
      if lcp > 0 {
        FirstCopy(buf_len, |inp| - in_len, lcp, old(lcp), in_len - in0, j);
        out, in_len, done := CopyOut(lcp, inp, out, in_len, level0);
      }
    }

    /** Drops or inserts one pitch period, and works out how much to copy before
        the next change. */
    method Change(inp: seq<int>, out0: seq<int>, in0: nat, ghost level0: real)
      returns (out: seq<int>, in_len: nat, done: bool, ghost edit: Edit)
      requires Sound() && playout_rate != 1.0 && fill == buf_len && lcp == 0 && in0 <= |inp|
      requires Samples(inp) && Samples(out0) && Law(level0, |out0|, in0)
      modifies this`fill, this`lcp, this`rate_nudge, buf
      ensures Sound() && Bounded() && Samples(out) && Law(level0, |out|, in_len) && in0 <= in_len <= |inp|
      ensures if done then in_len == |inp| && fill < buf_len else fill == buf_len
      ensures !done && in_len == in0 && lcp == 0 ==> rate_nudge <= old(rate_nudge) - Stride(playout_rate, max_pitch)
      ensures |out| >= |out0| && edit.at == |out0| && edit.insert == (playout_rate > 1.0) && Fits(edit, old(Stream(out0, inp, in0)))
      ensures PitchOf(edit.pitch, old(buf[..]), max_pitch, min_pitch, min_pitch)
      ensures Stream(out, inp, in_len) == Apply(edit, old(Stream(out0, inp, in0)))
      ensures Now(|out|, |inp| - in_len, done) == Step(playout_rate, buf_len, edit.pitch, old(Now(|out0|, |inp| - in0, false)))
    {
      hide Level, Derived, Rated, Amdf, Faded, Samples, Stream, Apply, Fits, PitchOf, Comp, Balance, Promised, Stride, NextPromise;
      var pitch := FindPitch();
      ghost var nudge := rate_nudge;
      Nudge(pitch);
      NudgeFalls(playout_rate, max_pitch, pitch);
      edit := Edit(|out0|, pitch, playout_rate > 1.0);
      if playout_rate < 1.0 {
        out := out0;
        in_len, done := Drop(inp, out0, in0, level0, pitch, nudge);
      } else {
        out := Insert(inp, out0, in0, level0, pitch, nudge);
        in_len, done := in0, false;
      }
    }

    method FindPitch() returns (pitch: nat)
      requires Sound()
      ensures max_pitch <= pitch <= min_pitch && PitchOf(pitch, buf[..], max_pitch, min_pitch, min_pitch)
    {
      hide Derived, Rated, Samples, Amdf;
      SomeSamples(buf[..], 2 * min_pitch);
      pitch := AmdfPitch(min_pitch, max_pitch, buf[..2 * min_pitch], min_pitch);
      PitchInWindow(pitch, buf[..], max_pitch, min_pitch);
    }

    /** Slow down: copies one pitch period out and fades the next one into it. */
    method Insert(ghost inp: seq<int>, out0: seq<int>, ghost in0: nat, ghost level0: real, pitch: nat, ghost nudge: real) returns (out: seq<int>)
      requires Sound() && playout_rate > 1.0 && fill == buf_len && in0 <= |inp| && 1 <= pitch <= min_pitch && Samples(out0)
      requires Balance(playout_rate, level0, |out0|, in0, fill, 0, nudge)
      requires Promised(playout_rate, pitch, nudge, lcp, rate_nudge)
      modifies buf
      ensures Sound() && Samples(out) && Law(level0, |out|, in0) && |out| == |out0| + pitch
      ensures var e := Edit(|out0|, pitch, true); var s := old(Stream(out0, inp, in0)); Fits(e, s) && Stream(out, inp, in0) == Apply(e, s)
    {
      hide Level, Derived, Rated, Samples, Faded, Balance, Promised, Law;
      ghost var b := buf[..];
      out := out0 + buf[..pitch];
      SamplesPart(b, out0, pitch);
      LawAfterInsert(playout_rate, level0, |out0|, in0, fill, nudge, lcp, rate_nudge, pitch);
      LawIs(level0, |out|, in0);
      OverlapAdd(buf, pitch, 0, pitch);
      FadedSamples(b, buf[..], pitch, 0, pitch);
      InsertStream(out0, b, buf[..], pitch, buf_len, inp, in0);
    }

    /** Speed up: fades one pitch period into the next, then closes the gap over
        the second one. */
    method Drop(inp: seq<int>, ghost out0: seq<int>, in0: nat, ghost level0: real, pitch: nat, ghost nudge: real) returns (in_len: nat, done: bool)
      requires Sound() && playout_rate < 1.0 && fill == buf_len && in0 <= |inp| && 1 <= pitch <= min_pitch && Samples(inp)
      requires Balance(playout_rate, level0, |out0|, in0, fill, 0, nudge)
      requires Promised(playout_rate, pitch, nudge, lcp, rate_nudge)
      modifies this`fill, buf
      ensures Sound() && Law(level0, |out0|, in_len) && in0 <= in_len <= |inp|
      ensures done == (|inp| - in0 < pitch)
      ensures if done then in_len == |inp| && fill == buf_len - pitch + (|inp| - in0) < buf_len else fill == buf_len && in_len == in0 + pitch
      ensures var e := Edit(|out0|, pitch, false); var s := old(Stream(out0, inp, in0)); Fits(e, s) && Stream(out0, inp, in_len) == Apply(e, s)
    {
      hide Level, Derived, Rated, Faded, Samples, Stream, Law, Fits, Apply, Balance, Promised;
      ghost var b := buf[..];
      StreamIs(out0, inp, in0);
      done := |inp| - in0 < pitch;
      var taken := if done then |inp| - in0 else pitch;
      LawAfterDrop(playout_rate, level0, |out0|, in0, fill, nudge, lcp, rate_nudge, pitch, taken);
      CloseGap(out0, inp, in0, pitch, taken);
      fill := fill - pitch + taken;
      in_len := in0 + taken;
      StreamIs(out0, inp, in_len);
      LawIs(level0, |out0|, in_len);
    }

    method CloseGap(ghost out0: seq<int>, inp: seq<int>, in0: nat, pitch: nat, taken: nat)
      requires 2 * pitch <= buf_len <= buf.Length && 0 < pitch && taken <= pitch && in0 + taken <= |inp| && Samples(inp) && Samples(buf[..])
      modifies buf
      ensures Samples(buf[..])
      ensures var s := out0 + old(buf[..buf_len]) + inp[in0..]; var e := Edit(|out0|, pitch, false);
        Fits(e, s) && out0 + buf[..buf_len - pitch + taken] + inp[in0 + taken..] == Apply(e, s)
    {
      hide *;
      ghost var b := buf[..];
      assert old(buf[..buf_len]) == b[..buf_len];
      CloseUp(inp, in0, pitch, taken);
      assert buf[..buf_len - pitch + taken] == buf[..][..buf_len - pitch + taken];
      DropStream(out0, b, buf[..], pitch, buf_len, inp, in0, taken);
    }

    method CloseUp(inp: seq<int>, in0: nat, pitch: nat, taken: nat)
      requires 2 * pitch <= buf_len <= buf.Length && 0 < pitch && taken <= pitch && in0 + taken <= |inp| && Samples(inp) && Samples(buf[..])
      modifies buf
      ensures Samples(buf[..]) && GapClosed(old(buf[..]), buf[..], pitch, buf_len, inp, in0, taken)
    {
      hide *;
      ghost var b := buf[..];
      CutNext(pitch);
      ghost var b2 := buf[..];
      Refill(buf_len - pitch, inp, in0, taken);
      CloseParts(b, b2, buf[..], pitch, buf_len, inp, in0, taken);
    }

    /** The fade, and the move that overwrites it. */
    method CutNext(pitch: nat)
      requires 2 * pitch <= buf_len <= buf.Length && 0 < pitch && Samples(buf[..])
      modifies buf
      ensures buf[..pitch] == old(buf[..pitch]) && buf[pitch..buf_len - pitch] == old(buf[2 * pitch..buf_len]) && Samples(buf[..])
    {
      hide *;
      ghost var b := buf[..];
      FadeNext(pitch);
      ghost var b1 := buf[..];
      SameSlice(b1, b, 2 * pitch, buf_len);
      CutPeriod(pitch);
    }

    /** Moves everything from the third period on over the second one. */
    method CutPeriod(pitch: nat)
      requires 2 * pitch <= buf_len <= buf.Length && Samples(buf[..])
      modifies buf
      ensures buf[..pitch] == old(buf[..pitch]) && buf[pitch..buf_len - pitch] == old(buf[2 * pitch..buf_len]) && Samples(buf[..])
    {
      hide Samples;
      ghost var b1 := buf[..];
      Move(buf, pitch, 2 * pitch, buf_len - 2 * pitch);
      MovedSamples(b1, buf[..], pitch, 2 * pitch, buf_len - 2 * pitch);
    }

    /** Fades the first period into the second, in the second one's place. */
    method FadeNext(pitch: nat)
      requires 2 * pitch <= buf.Length && 0 < pitch && Samples(buf[..])
      modifies buf
      ensures buf[..pitch] == old(buf[..pitch]) && buf[2 * pitch..] == old(buf[2 * pitch..]) && Samples(buf[..])
      ensures buf[pitch..2 * pitch] == Cross(old(buf[..pitch]), old(buf[pitch..2 * pitch]))
    {
      hide Faded, Samples;
      ghost var b := buf[..];
      OverlapAdd(buf, 0, pitch, pitch);
      FadedSamples(b, buf[..], 0, pitch, pitch);
    }

    /** Plain copying at rate 1. */
    method Straight(inp: seq<int>) returns (out: seq<int>)
      requires Valid() && Samples(inp) && playout_rate == 1.0
      modifies this`fill
      ensures Valid() && fill == 0 && Samples(out) && out == old(buf[..fill]) + inp && out + buf[..fill] == out
      ensures old(Bounded()) ==> Bounded()
      ensures |out| as real == Play(playout_rate, |inp|) + Owed() - old(Owed())
    {
      hide Derived, Rated, Samples;
      out := buf[..fill] + inp;
      SamplesJoin(buf[..], fill, inp);
      fill := 0;
    }

    /** Puts the first k samples of the input into the buffer. */
    method TopUp(inp: seq<int>, k: nat)
      requires Valid() && Samples(inp) && k <= |inp| && fill + k <= buf_len
      modifies this`fill, buf
      ensures Sound() && fill == old(fill) + k && Law(old(Owed()), 0, k)
      ensures Stream([], inp, k) == old(buf[..fill]) + inp
    {
      hide Level, Derived, Rated, Samples, Law;
      ghost var b, f, level0 := buf[..], fill, Owed();
      assert level0 == Level(playout_rate, f, lcp, rate_nudge);
      FillLevel(playout_rate, fill, lcp, rate_nudge, k);
      Refill(fill, inp, 0, k);
      fill := fill + k;
      LawIs(level0, 0, k);
      ToppedUp(b, buf[..], f, inp, k);
    }

    /** One PICOLA step from a full buffer: copy what is promised, then change. */
    method Round(inp: seq<int>, out0: seq<int>, in0: nat, ghost level0: real)
      returns (out: seq<int>, in_len: nat, done: bool, ghost edits: seq<Edit>)
      requires Sound() && playout_rate != 1.0 && fill == buf_len && in0 <= |inp| && Samples(inp) && Samples(out0) && Law(level0, |out0|, in0)
      modifies this`fill, this`lcp, this`rate_nudge, buf
      ensures Sound() && Samples(out) && Law(level0, |out|, in_len) && in0 <= in_len <= |inp|
      ensures old(Bounded()) ==> Bounded()
      ensures if done then in_len == |inp| && fill < buf_len else fill == buf_len
      ensures !done && in_len == in0 ==>
        old(lcp) == 0 && (lcp > 0 || rate_nudge <= old(rate_nudge) - Stride(playout_rate, max_pitch))
      ensures Edited(edits, old(Stream(out0, inp, in0)), Stream(out, inp, in_len), playout_rate > 1.0)
      ensures Pitched(edits, max_pitch, min_pitch)
      ensures if |inp| - in0 < old(lcp) then edits == [] && done && Now(|out|, 0, true) == Finish(buf_len, old(Now(|out0|, |inp| - in0, false)))
        else |edits| == 1 && Now(|out|, |inp| - in_len, done) == Step(playout_rate, buf_len, edits[0].pitch, old(Now(|out0|, |inp| - in0, false)))
    {
      hide Level, Derived, Rated, Samples, Law, Stream, Apply, Fits, PitchOf, Comp, Stride, NextPromise, Finish;
      edits := [];
      ghost var s0 := Stream(out0, inp, in0);
      NoEdit(s0, playout_rate > 1.0);
      hide Edited;
      out, in_len, done := CopyPromised(inp, out0, in0, level0);
      if !done {
        ghost var edit;
        ghost var b := buf[..];
        out, in_len, done, edit := Change(inp, out, in_len, level0);
        PitchIn(edit.pitch, b, max_pitch, min_pitch, min_pitch);
        edits := [edit];
        OneEdit(edit, s0, playout_rate > 1.0);
      }
    }

    /** Scales inp into out. Every sample is taken; output, input, buffer and
        promise balance exactly; and what came out, followed by what is still
        buffered, is the old buffer and the input with pitch periods inserted
        or dropped. */
    method Scale(inp: seq<int>) returns (out: seq<int>, ghost edits: seq<Edit>)
      requires Valid() && Samples(inp)
      modifies this`fill, this`lcp, this`rate_nudge, buf
      ensures Valid() && Samples(out) && (old(Bounded()) ==> Bounded())
      ensures |out| as real == Play(playout_rate, |inp|) + Owed() - old(Owed())
      ensures Edited(edits, old(buf[..fill]) + inp, out + buf[..fill], playout_rate > 1.0)
      ensures playout_rate != 1.0 ==> Pitched(edits, max_pitch, min_pitch)
      ensures playout_rate != 1.0 ==>
        Now(|out|, 0, true) == CallCourse(playout_rate, buf_len, old(fill), |inp|, old(lcp), old(rate_nudge), edits)
      ensures playout_rate == 1.0 ==> fill == 0 && out == old(buf[..fill]) + inp
    {
      NoEdit(buf[..fill] + inp, playout_rate > 1.0);
      hide *;
      if playout_rate == 1.0 {
        edits := [];
        out := Straight(inp);
      } else if fill + |inp| < buf_len {
        edits, out := [], [];
        Wait(inp);
      } else {
        out, edits := Stretch(inp);
      }
    }

    /** Fills the buffer and works through the rest. */
    method Stretch(inp: seq<int>) returns (out: seq<int>, ghost edits: seq<Edit>)
      requires Valid() && Samples(inp) && playout_rate != 1.0 && fill + |inp| >= buf_len
      modifies this`fill, this`lcp, this`rate_nudge, buf
      ensures Valid() && Samples(out) && (old(Bounded()) ==> Bounded())
      ensures |out| as real == Play(playout_rate, |inp|) + Owed() - old(Owed())
      ensures Edited(edits, old(buf[..fill]) + inp, out + buf[..fill], playout_rate > 1.0)
      ensures Pitched(edits, max_pitch, min_pitch)
      ensures Now(|out|, 0, true) == CallCourse(playout_rate, buf_len, old(fill), |inp|, old(lcp), old(rate_nudge), edits)
    {
      hide Level, Derived, Rated, Samples, Comp, Edited, Owed, Law, Bounded, Pitched, After, Finish;
      ghost var level0 := Owed();
      var in_len := buf_len - fill;
      TopUp(inp, in_len);
      out, edits := Rounds(inp, in_len, level0);
    }

    /** Too little input to go on: it all stays in the buffer. */
    method Wait(inp: seq<int>)
      requires Valid() && Samples(inp) && fill + |inp| < buf_len
      modifies this`fill, buf
      ensures Valid() && 0.0 == Play(playout_rate, |inp|) + Owed() - old(Owed()) && Samples([])
      ensures old(Bounded()) ==> Bounded()
      ensures [] + buf[..fill] == old(buf[..fill]) + inp
      ensures fill == old(fill) + |inp|
    {
      NoSamples();
      hide Level, Derived, Rated, Samples;
      TopUp(inp, |inp|);
      assert inp[|inp|..] == [] && Stream([], inp, |inp|) == buf[..fill];
    }

    /** The main loop. It ends: a round that takes no input and promises nothing
        moves the nudge down by at least a whole step. */
    method Rounds(inp: seq<int>, in0: nat, ghost level0: real) returns (out: seq<int>, ghost edits: seq<Edit>)
      requires Sound() && playout_rate != 1.0 && fill == buf_len && in0 <= |inp| && Samples(inp) && Law(level0, 0, in0)
      modifies this`fill, this`lcp, this`rate_nudge, buf
      ensures Valid() && Samples(out) && (old(Bounded()) ==> Bounded())
      ensures |out| as real == Play(playout_rate, |inp|) + Owed() - level0
      ensures Edited(edits, old(Stream([], inp, in0)), out + buf[..fill], playout_rate > 1.0)
      ensures Pitched(edits, max_pitch, min_pitch)
      ensures Now(|out|, 0, true) == Finish(buf_len, After(playout_rate, buf_len, old(Now(0, |inp| - in0, false)), edits))
    {
      NoSamples();
      hide Level, Derived, Rated, Samples, Law, Comp, Edited, Stream, Spins, Stride, Step, Finish, After;
      LeastChange(playout_rate, max_pitch);
      ghost var least := Stride(playout_rate, max_pitch);
      edits, out := [], [];
      var in_len := in0;
      var done := false;
      ghost var s0, c0 := Stream([], inp, in0), Now(0, |inp| - in0, false);
      NoEdit(s0, playout_rate > 1.0);
      NothingAfter(playout_rate, buf_len, c0);
      while !done
        invariant Sound() && playout_rate == old(playout_rate) && Samples(out) && Law(level0, |out|, in_len) && in_len <= |inp|
        invariant old(Bounded()) ==> Bounded()
        invariant if done then in_len == |inp| && fill < buf_len else fill == buf_len
        invariant Edited(edits, s0, Stream(out, inp, in_len), playout_rate > 1.0)
        invariant Pitched(edits, max_pitch, min_pitch)
        invariant var c := After(playout_rate, buf_len, c0, edits);
          if done then Now(|out|, 0, true) == Finish(buf_len, c) else Now(|out|, |inp| - in_len, false) == c
        decreases |inp| - in_len, if done then 0 else 1, Spins(lcp, rate_nudge, least)
      {
        ghost var nudge, more, u := rate_nudge, edits, Stream(out, inp, in_len);
        out, in_len, done, more := Round(inp, out, in_len, level0);
        NextCourse(playout_rate, buf_len, c0, edits, more, Now(|out|, |inp| - in_len, done));
        EditedTrans(edits, more, s0, u, Stream(out, inp, in_len), playout_rate > 1.0);
        edits := edits + more;
        SpinsDecrease(lcp, nudge, rate_nudge, least);
      }
      StreamIs(out, inp, |inp|);
      assert inp[|inp|..] == [] && out + buf[..fill] + [] == out + buf[..fill];
      LawIs(level0, |out|, |inp|);
    }
  }

  lemma NoSamples()
    ensures Samples([])
  {
  }

  lemma NonnegativeProduct(x: real, y: real)
    requires x >= 0.0 && y >= 0.0
    ensures x * y >= 0.0
  {
  }

  lemma LawAfterCopy(rate: real, level0: real, out: int, in_len: int, fill: int, lcp: int, nudge: real, n: int, taken: int)
    requires Balance(rate, level0, out, in_len, fill, lcp, nudge)
    ensures Balance(rate, level0, out + n, in_len + taken, fill - n + taken, lcp - n, nudge)
  {
    hide Level;
    CopyLevel(rate, fill, fill - n + taken, lcp, nudge, n, taken);
    RateSplit(rate, in_len, taken);
    AddCopied(out as real, n as real, rate * in_len as real, rate * taken as real, level0,
      Level(rate, fill, lcp, nudge), Level(rate, fill - n + taken, lcp - n, nudge));
  }

  lemma AddCopied(out: real, n: real, x: real, y: real, level0: real, level: real, level': real)
    requires out == x + level - level0 && n == y + level' - level
    ensures out + n == x + y + level' - level0
  {
  }

  lemma LawAfterDrop(rate: real, level0: real, out: int, in_len: int, fill: int, nudge: real, lcp: int, nudge': real, pitch: int, taken: int)
    requires 0.0 < rate < 1.0 && Promised(rate, pitch, nudge, lcp, nudge') && Balance(rate, level0, out, in_len, fill, 0, nudge)
    ensures Balance(rate, level0, out, in_len + taken, fill - pitch + taken, lcp, nudge')
  {
    hide Level;
    DropLevel(rate, fill, fill - pitch + taken, nudge, lcp, nudge', pitch, taken);
    RateSplit(rate, in_len, taken);
  }

  lemma LawAfterInsert(rate: real, level0: real, out: int, in_len: int, fill: int, nudge: real, lcp: int, nudge': real, pitch: int)
    requires rate > 1.0 && Promised(rate, pitch, nudge, lcp, nudge') && Balance(rate, level0, out, in_len, fill, 0, nudge)
    ensures Balance(rate, level0, out + pitch, in_len, fill, lcp, nudge')
  {
    hide Level;
    InsertLevel(rate, fill, nudge, lcp, nudge', pitch);
    assert (out + pitch) as real == out as real + pitch as real;
  }

  lemma BufferSizes(sample_rate: nat)
    requires MAX_PITCH <= sample_rate <= MAX_SAMPLE_RATE
    ensures var min_pitch, max_pitch, buf_len := sample_rate / MIN_PITCH, sample_rate / MAX_PITCH, 2 * sample_rate / MIN_PITCH;
      1 <= max_pitch <= min_pitch <= 800 && 2 * min_pitch <= buf_len <= BUF_LEN
  {
  }

  lemma SomeSamples(s: seq<int>, n: nat)
    requires Samples(s) && n <= |s|
    ensures Samples(s[..n])
  {
  }

  lemma SamplesPart(s: seq<int>, out: seq<int>, n: nat)
    requires Samples(s) && Samples(out) && n <= |s|
    ensures Samples(out + s[..n])
  {
  }

  lemma FadedSamples(s: seq<int>, t: seq<int>, from: nat, to: nat, len: nat)
    requires Samples(s) && |s| == |t| && len > 0 && from + len <= |s| && to + len <= |s|
    requires forall k {:trigger t[k]} :: 0 <= k < |t| ==> t[k] == if to <= k < to + len then Faded(s[from + (k - to)], s[k], k - to, len) else s[k]
    ensures Samples(t)
  {
    hide Fade, Sample;
    forall k | 0 <= k < |t|
      ensures Sample(t[k])
    {
      assert Sample(s[k]);
      if to <= k < to + len {
        assert Sample(s[from + (k - to)]);
        FadedSample(s[from + (k - to)], s[k], k - to, len);
        assert t[k] == Faded(s[from + (k - to)], s[k], k - to, len);
      } else {
        assert t[k] == s[k];
      }
    }
  }

  lemma MovedSamples(s: seq<int>, t: seq<int>, to: nat, from: nat, n: nat)
    requires Samples(s) && |s| == |t| && to <= from && from + n <= |s|
    requires t[..to] == s[..to] && t[to..to + n] == s[from..from + n] && t[to + n..] == s[to + n..]
    ensures Samples(t)
  {
    hide Sample;
    forall k | 0 <= k < |t|
      ensures Sample(t[k])
    {
      if k < to {
        assert t[..to][k] == s[..to][k];
      } else if k < to + n {
        assert t[to..to + n][k - to] == s[from..from + n][k - to];
      } else {
        assert t[to + n..][k - to - n] == s[to + n..][k - to - n];
      }
    }
  }

  lemma LoadedSamples(s: seq<int>, t: seq<int>, to: nat, inp: seq<int>, at: nat, n: nat)
    requires Samples(s) && Samples(inp) && |s| == |t| && to + n <= |s| && at + n <= |inp|
    requires t[..to] == s[..to] && t[to..to + n] == inp[at..at + n] && t[to + n..] == s[to + n..]
    ensures Samples(t)
  {
    hide Sample;
    forall k | 0 <= k < |t|
      ensures Sample(t[k])
    {
      if k < to {
        assert t[..to][k] == s[..to][k];
      } else if k < to + n {
        assert t[to..to + n][k - to] == inp[at..at + n][k - to];
      } else {
        assert t[to + n..][k - to - n] == s[to + n..][k - to - n];
      }
    }
  }

  lemma ToppedUp(b: seq<int>, b': seq<int>, f: nat, inp: seq<int>, k: nat)
    requires |b| == |b'| && f + k <= |b| && k <= |inp| && b'[..f] == b[..f] && b'[f..f + k] == inp[0..0 + k]
    ensures [] + b'[..f + k] + inp[k..] == b[..f] + inp
  {
    assert b'[..f + k] == b[..f] + inp[..k];
    assert inp == inp[..k] + inp[k..];
  }

  lemma SamplesJoin(b: seq<int>, f: nat, inp: seq<int>)
    requires Samples(b) && f <= |b| && Samples(inp)
    ensures Samples(b[..f] + inp)
  {
  }

  lemma LeastChange(rate: real, max_pitch: nat)
    requires rate > 0.0 && rate != 1.0 && max_pitch >= 1
    ensures Stride(rate, max_pitch) > 0.0
  {
    CompPositive(rate);
    StrictlyPositive(max_pitch as real, Comp(rate));
  }

  lemma {:induction false} EditedTrans(a: seq<Edit>, b: seq<Edit>, s: seq<int>, t: seq<int>, u: seq<int>, insert: bool)
    requires Edited(a, s, t, insert) && Edited(b, t, u, insert)
    ensures Edited(a + b, s, u, insert)
  {
    if b == [] {
      assert a + b == a;
    } else {
      var n := |b| - 1;
      var e := b[n];
      var v :| Edited(b[..n], t, v, insert) && Fits(e, v) && u == Apply(e, v);
      hide Apply, Fits;
      EditedTrans(a, b[..n], s, t, v, insert);
      LastOfSum(a, b);
      OneMoreEdit(a + b[..n], e, s, v, insert);
    }
  }

  lemma LastOfSum(a: seq<Edit>, b: seq<Edit>)
    requires b != []
    ensures a + b == a + b[..|b| - 1] + [b[|b| - 1]]
  {
  }

  lemma OneMoreEdit(a: seq<Edit>, e: Edit, s: seq<int>, v: seq<int>, insert: bool)
    requires Edited(a, s, v, insert) && Fits(e, v) && e.insert == insert
    ensures Edited(a + [e], s, Apply(e, v), insert)
  {
    hide Apply, Fits;
    assert (a + [e])[..|a|] == a;
  }

  lemma NoEdit(s: seq<int>, insert: bool)
    ensures Edited([], s, s, insert)
  {
  }

  lemma SpinsDecrease(lcp: int, nudge: real, nudge': real, least: real)
    requires least > 0.0 && lcp >= 0 && -0.5 <= nudge <= 0.5 && -0.5 <= nudge' <= 0.5
    ensures lcp > 0 || nudge' <= nudge - least ==> 0 <= Spins(lcp, nudge', least) < Spins(0, nudge, least)
  {
    if lcp > 0 {
      SpinsPositive(nudge, least);
    } else if nudge' <= nudge - least {
      SpinsFall(nudge, nudge', least);
    }
  }

  lemma SpinsPositive(nudge: real, least: real)
    requires least > 0.0 && -0.5 <= nudge
    ensures Spins(0, nudge, least) >= 1
  {
    var a := (nudge + 0.5) / least;
    assert a * least == nudge + 0.5;
    if a < 0.0 {
      StrictlyPositive(-a, least);
    }
  }

  lemma OneEdit(e: Edit, s: seq<int>, insert: bool)
    requires Fits(e, s) && e.insert == insert
    ensures Edited([e], s, Apply(e, s), insert)
  {
    assert [e][..0] == [] && Edited([], s, s, insert);
  }

  // ------------------------------------------------------------ whole runs

  function Total(chunks: seq<seq<int>>): nat {
    if chunks == [] then 0 else Total(chunks[..|chunks| - 1]) + |chunks[|chunks| - 1]|
  }

  lemma TotalSnoc(chunks: seq<seq<int>>, k: nat)
    requires k < |chunks|
    ensures Total(chunks[..k + 1]) == Total(chunks[..k]) + |chunks[k]|
  {
    assert chunks[..k + 1][..k] == chunks[..k];
  }

  lemma PlaySum(rate: real, a: int, b: int)
    ensures Play(rate, a + b) == Play(rate, a) + Play(rate, b)
  {
    RateSplit(rate, a, b);
  }

  /** Any run from a fresh state: what has come out is exactly what the rate
      asks of the input taken from the buffer, up to the promise and the
      rounding carried over. */
  method Run(sample_rate: nat, rate: real, chunks: seq<seq<int>>) returns (s: TimeScaleState, total: nat)
    requires MAX_PITCH <= sample_rate <= MAX_SAMPLE_RATE && rate > 0.0
    requires forall k :: 0 <= k < |chunks| ==> Samples(chunks[k])
    ensures s.Valid() && s.playout_rate == if 0.99 <= rate <= 1.01 then 1.0 else rate
    ensures total as real == s.playout_rate * (Total(chunks) - s.fill) as real
                           + (s.playout_rate - 1.0) * (s.lcp as real - s.rate_nudge)
    ensures s.Bounded()
  {
    hide Play, Edited, Samples, Comp, Level, Total;
    var t := TimeScaleState.Init(sample_rate, rate);
    s := t;
    StartTotal(s.playout_rate);
    total := Feed(s, chunks);
    OwedIs(s, Total(chunks));
  }

  /** One call after the other. */
  method Feed(s: TimeScaleState, chunks: seq<seq<int>>) returns (total: nat)
    requires s.Valid() && s.Bounded() && s.Owed() == 0.0 && forall k :: 0 <= k < |chunks| ==> Samples(chunks[k])
    modifies s`fill, s`lcp, s`rate_nudge, s.buf
    ensures s.Valid() && s.Bounded() && total as real == Play(s.playout_rate, Total(chunks)) + s.Owed()
  {
    StartTotal(s.playout_rate);
    hide Play, Edited, Samples, Total;
    total := 0;
    assert chunks[..0] == [];
    for k := 0 to |chunks|
      invariant s.Valid() && s.Bounded()
      invariant total as real == Play(s.playout_rate, Total(chunks[..k])) + s.Owed()
    {
      total := FeedOne(s, chunks[k], total, Total(chunks[..k]));
      TotalSnoc(chunks, k);
    }
    assert chunks[..|chunks|] == chunks;
  }

  method FeedOne(s: TimeScaleState, inp: seq<int>, before: nat, ghost taken: nat) returns (total: nat)
    requires s.Valid() && s.Bounded() && Samples(inp) && before as real == Play(s.playout_rate, taken) + s.Owed()
    modifies s`fill, s`lcp, s`rate_nudge, s.buf
    ensures s.Valid() && s.Bounded() && total as real == Play(s.playout_rate, taken + |inp|) + s.Owed()
  {
    hide *;
    var out, edits := s.Scale(inp);
    total := before + |out|;
    PlaySum(s.playout_rate, taken, |inp|);
  }

  lemma StartTotal(rate: real)
    ensures Play(rate, Total([])) == 0.0
  {
  }

  lemma OwedIs(s: TimeScaleState, n: nat)
    ensures Play(s.playout_rate, n) + s.Owed()
         == s.playout_rate * (n - s.fill) as real + (s.playout_rate - 1.0) * (s.lcp as real - s.rate_nudge)
  {
    var r := s.playout_rate;
    assert r * (n as real - s.fill as real) == r * n as real - r * s.fill as real;
  }

  /** How far the output can be from the ideal length, at any time. */
  function Drift(rate: real, buf_len: nat, min_pitch: nat): real {
    if rate > 1.0 then rate * buf_len as real + min_pitch as real + 1.5 * (rate - 1.0)
    else rate * (buf_len + min_pitch) as real + 1.5 * (1.0 - rate)
  }

  /** So the length of the output never drifts: it is the ideal one within a
      constant, however long the run. */
  lemma NoDrift(s: TimeScaleState, total_in: nat, total_out: nat)
    requires s.Valid() && s.Bounded() && s.playout_rate != 1.0
    requires total_out as real == s.playout_rate * (total_in - s.fill) as real + (s.playout_rate - 1.0) * (s.lcp as real - s.rate_nudge)
    ensures var d := total_out as real - s.playout_rate * total_in as real; var D := Drift(s.playout_rate, s.buf_len, s.min_pitch);
      -D <= d <= D
  {
    hide Samples;
    OwedIs(s, total_in);
    CompPositive(s.playout_rate);
    DriftIs(s.playout_rate, s.fill, s.lcp, s.rate_nudge, s.buf_len, s.min_pitch, Comp(s.playout_rate));
  }

  lemma DriftIs(r: real, fill: int, lcp: int, nudge: real, buf_len: nat, min_pitch: nat, c: real)
    requires r > 0.0 && r != 1.0 && 0 <= fill <= buf_len && lcp >= 0 && -0.5 <= nudge <= 0.5
    requires lcp as real <= min_pitch as real * c + 1.0
    requires (r < 1.0 ==> (r - 1.0) * c == -r) && (r > 1.0 ==> (r - 1.0) * c == 1.0)
    ensures var D := Drift(r, buf_len, min_pitch); -D <= Level(r, fill, lcp, nudge) <= D
  {
    hide *;
    var p, b, f := min_pitch as real, buf_len as real, fill as real;
    var x := lcp as real - nudge;
    var g := if r > 1.0 then r - 1.0 else 1.0 - r;
    var w := if r > 1.0 then 1.0 else r;
    Flipped(r, c, g, w);
    LevelIs(r, fill, lcp, nudge, g, x);
    DriftAs(r, buf_len, min_pitch, g, w);
    var xg, rf, rb, wp := x * g, r * f, r * b, w * p;
    assert 0.0 <= rf <= rb by {
      BufferBound(r, f, b);
    }
    assert wp >= 0.0 by {
      NonnegativeProduct(w, p);
    }
    assert -0.5 * g <= xg <= wp + 1.5 * g by {
      PromiseBound(p, c, x, g, w);
    }
    WithinDrift(xg, rf, rb, wp, g, r > 1.0);
  }

  lemma BufferBound(r: real, f: real, b: real)
    requires r > 0.0 && 0.0 <= f <= b
    ensures 0.0 <= r * f <= r * b
  {
    NonnegativeProduct(r, f);
    NonnegativeProduct(r, b - f);
  }

  lemma Flipped(r: real, c: real, g: real, w: real)
    requires r > 0.0 && r != 1.0 && g == (if r > 1.0 then r - 1.0 else 1.0 - r) && w == (if r > 1.0 then 1.0 else r)
    requires (r < 1.0 ==> (r - 1.0) * c == -r) && (r > 1.0 ==> (r - 1.0) * c == 1.0)
    ensures c * g == w && g >= 0.0 && w >= 0.0
  {
  }

  lemma DriftAs(r: real, buf_len: nat, min_pitch: nat, g: real, w: real)
    requires g == (if r > 1.0 then r - 1.0 else 1.0 - r) && w == (if r > 1.0 then 1.0 else r)
    ensures Drift(r, buf_len, min_pitch) == r * buf_len as real + w * min_pitch as real + 1.5 * g
  {
    DistributeReal(r, buf_len as real, min_pitch as real);
  }

  lemma WithinDrift(xg: real, rf: real, rb: real, wp: real, g: real, faster: bool)
    requires g >= 0.0 && wp >= 0.0 && 0.0 <= rf <= rb && -0.5 * g <= xg <= wp + 1.5 * g
    ensures var d := (if faster then xg else -xg) - rf; -(rb + wp + 1.5 * g) <= d <= rb + wp + 1.5 * g
  {
  }

  lemma DistributeReal(a: real, x: real, y: real)
    ensures a * (x + y) == a * x + a * y
  {
  }

  lemma LevelIs(r: real, fill: int, lcp: int, nudge: real, g: real, x: real)
    requires g == (if r > 1.0 then r - 1.0 else 1.0 - r) && x == lcp as real - nudge
    ensures Level(r, fill, lcp, nudge) == (if r > 1.0 then x * g else -(x * g)) - r * fill as real
  {
  }

  /** What is promised, weighted by how far the rate is from 1. */
  lemma PromiseBound(p: real, c: real, x: real, g: real, w: real)
    requires g >= 0.0 && c * g == w && -0.5 <= x <= p * c + 1.5
    ensures -0.5 * g <= x * g <= w * p + 1.5 * g
  {
    Below(-0.5, x, g);
    Below(x, p * c + 1.5, g);
    Widened(p * c, g);
    assert p * c * g == p * (c * g);
  }

  lemma Widened(a: real, g: real)
    ensures (a + 1.5) * g == a * g + 1.5 * g
  {
  }

  /** What does bound one call's output: the buffered samples count as input too. */
  lemma OutputBound(r: real, min_pitch: nat, len: nat, out: nat, fill: nat, lcp: nat, nudge: real, fill': nat, lcp': nat, nudge': real)
    requires r > 0.0 && r != 1.0 && -0.5 <= nudge <= 0.5 && -0.5 <= nudge' <= 0.5
    requires lcp as real <= min_pitch as real * Comp(r) + 1.0 && lcp' as real <= min_pitch as real * Comp(r) + 1.0
    requires out as real == Play(r, len) + Level(r, fill', lcp', nudge') - Level(r, fill, lcp, nudge)
    ensures var g, w := (if r > 1.0 then r - 1.0 else 1.0 - r), (if r > 1.0 then 1.0 else r);
      out as real <= Play(r, len + fill) + w * min_pitch as real + 2.0 * g
  {
    var g, w := (if r > 1.0 then r - 1.0 else 1.0 - r), (if r > 1.0 then 1.0 else r);
    LevelBounds(r, min_pitch, fill, lcp, nudge, g, w);
    LevelBounds(r, min_pitch, fill', lcp', nudge', g, w);
    NonnegativeProduct(r, fill' as real);
    hide *;
    PlaySum(r, len, fill);
    PlayIs(r, fill);
    AddUp(out as real, Play(r, len), Level(r, fill, lcp, nudge), Level(r, fill', lcp', nudge'),
          r * fill as real, r * fill' as real, w * min_pitch as real, g, r > 1.0);
  }

  /** The level, up to what is in the buffer. */
  lemma LevelBounds(r: real, min_pitch: nat, fill: nat, lcp: nat, nudge: real, g: real, w: real)
    requires r > 0.0 && r != 1.0 && -0.5 <= nudge <= 0.5 && lcp as real <= min_pitch as real * Comp(r) + 1.0
    requires g == (if r > 1.0 then r - 1.0 else 1.0 - r) && w == (if r > 1.0 then 1.0 else r)
    ensures var v := Level(r, fill, lcp, nudge) + r * fill as real; var wp := w * min_pitch as real;
      if r > 1.0 then -0.5 * g <= v <= wp + 1.5 * g else -(wp + 1.5 * g) <= v <= 0.5 * g
  {
    CompPositive(r);
    var c, p := Comp(r), min_pitch as real;
    hide *;
    var x := lcp as real - nudge;
    Flipped(r, c, g, w);
    PromiseBound(p, c, x, g, w);
    LevelIs(r, fill, lcp, nudge, g, x);
  }

  lemma AddUp(out: real, P: real, l: real, l': real, rf: real, rf': real, wp: real, g: real, faster: bool)
    requires out == P + l' - l && rf' >= 0.0
    requires if faster then -0.5 * g <= l + rf <= wp + 1.5 * g else -(wp + 1.5 * g) <= l + rf <= 0.5 * g
    requires if faster then -0.5 * g <= l' + rf' <= wp + 1.5 * g else -(wp + 1.5 * g) <= l' + rf' <= 0.5 * g
    ensures out <= P + rf + wp + 2.0 * g
  {
  }

  lemma PlayIs(r: real, n: int)
    ensures Play(r, n) == r * n as real
  {
  }
}
