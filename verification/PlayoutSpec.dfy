/** The jitter buffer of playout.c as a state machine: what each call does to
    the queue, the counters and the adaptive delay. */
module PlayoutSpec {
  import opened IntArith

  const SPEECH := 2
  const FULL := 0x10000000

  datatype Result = Ok | Fillin | Drop

  datatype FrameData = FrameData(data: int, kind: int, len: int, stamp: int, received: int)

  /** The adaptive part. */
  datatype Delay = Delay(
    not_first: bool,
    latest_expected: int,
    state_late: int,
    state_just_in_time: int,
    since_last_step: int,
    target: int,
    last_stamp: int)

  datatype State = State(
    dynamic: bool, min_length: int, max_length: int, dropable_threshold: int, start: bool,
    queue: seq<FrameData>,
    frames_in: int, frames_out: int, frames_oos: int, frames_late: int, frames_missing: int,
    last_len: int,
    delay: Delay)

  /** playout_restart */
  function Restarted(min_length: int, max_length: int): State {
    var max := if max_length > min_length then max_length else min_length;
    State(min_length < max_length, min_length, max, FULL / 100, true, [], 0, 0, 0, 0, 0, 0,
          Delay(false, 0, 0, 0, 0x7FFFFFFF, (max - min_length) / 2, 0))
  }

  // --------------------------------------------------------------- putting

  /** Where the scan from the back stops: at the last frame not later than x,
      or at the first frame. */
  function ScanStop(q: seq<FrameData>, x: int, p: nat): nat
    requires p < |q|
  {
    if x < q[p].stamp && p > 0 then ScanStop(q, x, p - 1) else p
  }

  /** Where a frame stamped x goes. A scan that reaches the first frame puts it
      in front, whichever of the two is later. */
  function Place(q: seq<FrameData>, x: int): (k: nat)
    ensures k <= |q|
  {
    if q == [] || x >= q[|q| - 1].stamp then |q|
    else
      var p := ScanStop(q, x, |q| - 1);
      ScanBound(q, x, |q| - 1);
      if p > 0 then p + 1 else 0
  }

  lemma {:induction false} ScanBound(q: seq<FrameData>, x: int, p: nat)
    requires p < |q|
    ensures ScanStop(q, x, p) <= p
    ensures ScanStop(q, x, p) > 0 ==> q[ScanStop(q, x, p)].stamp <= x
    ensures forall k :: ScanStop(q, x, p) < k <= p ==> x < q[k].stamp
  {
    if x < q[p].stamp && p > 0 {
      ScanBound(q, x, p - 1);
    }
  }

  function Inserted(q: seq<FrameData>, k: nat, f: FrameData): seq<FrameData>
    requires k <= |q|
  {
    q[..k] + [f] + q[k..]
  }

  function Put(s: State, f: FrameData): State {
    var q := Inserted(s.queue, Place(s.queue, f.stamp), f);
    var oos := s.queue != [] && f.stamp < s.queue[|s.queue| - 1].stamp;
    var t := s.(queue := q, frames_in := s.frames_in + 1, frames_oos := s.frames_oos + if oos then 1 else 0);
    if s.start && f.kind == SPEECH
    then t.(delay := s.delay.(last_stamp := f.stamp - f.len - s.min_length), last_len := f.len, start := false)
    else t
  }

  ghost predicate Sorted(q: seq<FrameData>) {
    forall i, j :: 0 <= i < j < |q| ==> q[i].stamp <= q[j].stamp
  }

  /** Putting a frame keeps the order of the others. */
  lemma PutKeepsOrder(q: seq<FrameData>, f: FrameData)
    ensures var k := Place(q, f.stamp); var q' := Inserted(q, k, f);
      |q'| == |q| + 1 && q'[k] == f && q'[..k] + q'[k + 1..] == q
  {
    var k := Place(q, f.stamp);
    var q' := Inserted(q, k, f);
    assert q'[..k] == q[..k] && q'[k + 1..] == q[k..];
  }

  /** The frame that spoils the order: strictly between the first two. */
  predicate BetweenFirstTwo(q: seq<FrameData>, x: int) {
    |q| >= 2 && q[0].stamp < x < q[1].stamp
  }

  /** A sorted queue stays sorted exactly when the new frame does not fall
      strictly between the first two. */
  lemma PutSorted(q: seq<FrameData>, f: FrameData)
    requires Sorted(q)
    ensures Sorted(Inserted(q, Place(q, f.stamp), f)) <==> !BetweenFirstTwo(q, f.stamp)
  {
    var n, x, k := |q|, f.stamp, Place(q, f.stamp);
    var q' := Inserted(q, k, f);
    if q != [] && x < q[n - 1].stamp {
      ScanBound(q, x, n - 1);
    }
    if BetweenFirstTwo(q, x) {
      assert q[1].stamp <= q[n - 1].stamp;
      assert k == 0;
      assert q'[0] == f && q'[1] == q[0];
    } else {
      forall i, j | 0 <= i < j < |q'|
        ensures q'[i].stamp <= q'[j].stamp
      {
        InsertedPair(q, f, k, i, j);
      }
    }
  }

  /** Frames stamped 0, 320 and then 160 are queued as 160, 0, 320. */
  lemma PutOutOfOrder(s: State, a: FrameData, b: FrameData, c: FrameData)
    requires s.queue == [] && a.stamp == 0 && b.stamp == 320 && c.stamp == 160
    ensures Put(Put(Put(s, a), b), c).queue == [c, a, b] && !Sorted([c, a, b])
  {
    assert Put(s, a).queue == [a];
    assert Put(Put(s, a), b).queue == [a, b];
    assert ScanStop([a, b], 160, 1) == 0;
    assert [c, a, b][0].stamp > [c, a, b][1].stamp;
  }

  lemma InsertedPair(q: seq<FrameData>, f: FrameData, k: nat, i: nat, j: nat)
    requires Sorted(q) && !BetweenFirstTwo(q, f.stamp) && k == Place(q, f.stamp) && i < j <= |q|
    ensures var q' := Inserted(q, k, f); q'[i].stamp <= q'[j].stamp
  {
    PlaceAmong(q, f.stamp);
    hide Place, BetweenFirstTwo;
    if j == k {
      assert i == k - 1 || q[i].stamp <= q[k - 1].stamp;
    } else if i == k {
      assert j == k + 1 || q[k].stamp <= q[j - 1].stamp;
    }
  }

  /** What comes before the place is no later, what comes after no earlier. */
  lemma PlaceAmong(q: seq<FrameData>, x: int)
    requires Sorted(q) && !BetweenFirstTwo(q, x)
    ensures var k := Place(q, x); (k > 0 ==> q[k - 1].stamp <= x) && (k < |q| ==> x <= q[k].stamp)
  {
    var n := |q|;
    if q != [] && x < q[n - 1].stamp {
      ScanBound(q, x, n - 1);
      hide ScanStop;
      assert n == 1 || q[1].stamp <= q[n - 1].stamp;
    }
  }

  // --------------------------------------------------------------- getting

  /** One step of a leaky integrator; the shift rounds down. */
  function Leak(state: int, hit: bool): int {
    state + ((if hit then FULL else 0) - state) / 256
  }

  predicate InRange(x: int) {
    0 <= x <= FULL
  }

  lemma LeakInRange(state: int, hit: bool)
    requires InRange(state)
    ensures InRange(Leak(state, hit))
    ensures if hit then state <= Leak(state, hit) else Leak(state, hit) <= state
  {
  }

  /** A timestamp counter one up, in 32 bits. */
  function Next32(x: int): int {
    if x == 0x7FFFFFFF then -0x80000000 else x + 1
  }

  /** What the adaptation depends on besides its own state. */
  datatype Settings = Settings(min_length: int, max_length: int, dropable_threshold: int, last_len: int)

  function SettingsOf(s: State): Settings {
    Settings(s.min_length, s.max_length, s.dropable_threshold, s.last_len)
  }

  /** How many frame lengths the buffer grows by: 3, 1, 0 or -1. */
  function Growth(c: Settings, d: Delay): int {
    if d.state_late > c.dropable_threshold then
      if d.since_last_step < 10 then (if d.target < c.max_length - 2 then 3 else 0)
      else if d.target < c.max_length then 1 else 0
    else if d.since_last_step > 500 && d.state_just_in_time < c.dropable_threshold && d.target > c.min_length then -1
    else 0
  }

  /** The integrators, once a speech frame is seen. */
  function Sensed(c: Settings, f: FrameData, d: Delay): Delay {
    var expected := if d.not_first then d.latest_expected else f.received + c.min_length;
    d.(not_first := true,
       state_late := Leak(d.state_late, f.received > expected),
       state_just_in_time := Leak(d.state_just_in_time, f.received > expected - f.len),
       latest_expected := expected + f.len)
  }

  /** The whole adaptation for one speech frame. */
  function Adapt(c: Settings, f: FrameData, d: Delay): Delay {
    var g := Grown(c, f.len, Sensed(c, f, d));
    g.(since_last_step := Next32(g.since_last_step))
  }

  /** The buffer a number of frame lengths longer, or one shorter. */
  function Grown(c: Settings, len: int, e: Delay): Delay {
    var k := Growth(c, e);
    if k == 0 then e
    else e.(target := e.target + k * len, latest_expected := e.latest_expected + k * len,
            state_just_in_time := c.dropable_threshold, state_late := 0, since_last_step := 0,
            last_stamp := e.last_stamp - k * c.last_len)
  }

  /** When the target moves, and by how much: up by three frames or by one when
      too many frames are late and there is room, down by one when hardly any are
      just in time, a while after the last change, and there is more than the
      minimum. */
  lemma TargetMoves(c: Settings, f: FrameData, d: Delay)
    requires f.len > 0
    ensures var e, t := Sensed(c, f, d), Adapt(c, f, d).target;
      && (t > d.target <==> e.state_late > c.dropable_threshold && d.target < (if d.since_last_step < 10 then c.max_length - 2 else c.max_length))
      && (t < d.target <==> e.state_late <= c.dropable_threshold && e.state_just_in_time < c.dropable_threshold
                            && d.since_last_step > 500 && d.target > c.min_length)
      && (t > d.target ==> t - d.target == if d.since_last_step < 10 then 3 * f.len else f.len)
      && (t < d.target ==> d.target - t == f.len)
  {
    hide Leak, Next32;
  }

  /** The frames since the last change are counted, in 32 bits: so a buffer that
      was never changed counts from the largest number, which the first frame
      takes to the smallest. */
  lemma CountsFrames(c: Settings, f: FrameData, d: Delay)
    requires f.len > 0
    ensures var e := Adapt(c, f, d);
      e.since_last_step == if e.target != d.target then 1 else if d.since_last_step == 0x7FFFFFFF then -0x80000000 else d.since_last_step + 1
  {
    hide Leak;
  }

  /** With the threshold of a hundredth it takes three late frames in a row to be
      too many. */
  lemma ThreeLate()
    ensures var one := Leak(0, true); var two := Leak(one, true); var three := Leak(two, true);
      one == 0x100000 && two < FULL / 100 < three
  {
  }

  /** A late frame moves an integrator a 256th of the way up, any other one a
      256th of the way down, rounded down. */
  lemma LeakMoves(state: int, hit: bool)
    ensures var d := (if hit then 0x10000000 else 0) - state; var m := Leak(state, hit) - state; 256 * m <= d < 256 * m + 256
  {
  }

  /** The first speech frame always takes a frame off a buffer whose target is
      above the minimum: a fresh buffer counts as long unchanged. */
  lemma FirstShrinks(min_length: int, max_length: int, f: FrameData)
    requires f.len > 0
    ensures var s := Restarted(min_length, max_length); var t := s.delay.target;
      Adapt(SettingsOf(s), f, s.delay).target == if t > min_length then t - f.len else t
  {
    ThreeLate();
  }

  function Due(s: State): int {
    s.delay.last_stamp + s.last_len
  }

  predicate Ready(s: State) {
    s.queue != [] && Due(s) >= s.queue[0].stamp
  }

  /** The delay after the first frame has been looked at. */
  function Looked(s: State): Delay
    requires s.queue != []
  {
    var d := s.delay.(last_stamp := Due(s));
    if s.dynamic && s.queue[0].kind == SPEECH then Adapt(SettingsOf(s), s.queue[0], d) else d
  }

  function ResultOf(s: State): Result {
    if !Ready(s) then Fillin
    else if s.queue[0].kind == SPEECH && s.queue[0].stamp < Looked(s).last_stamp then Drop
    else Ok
  }

  predicate SpeechOk(s: State) {
    ResultOf(s) == Ok && Ready(s) && s.queue[0].kind == SPEECH
  }

  /** playout_get */
  function Get(s: State): State {
    if !Ready(s) then s.(delay := s.delay.(last_stamp := Due(s)), frames_missing := s.frames_missing + 1)
    else
      var f, d := s.queue[0], Looked(s);
      var t := s.(queue := s.queue[1..], frames_out := s.frames_out + 1);
      var rewound := d.(last_stamp := d.last_stamp - s.last_len);
      match ResultOf(s)
      case Drop => t.(delay := rewound, frames_late := s.frames_late + 1, frames_missing := s.frames_missing - 1)
      case _ =>
        if f.kind != SPEECH then t.(delay := rewound)
        else t.(delay := d, last_len := if f.len > 0 then f.len else s.last_len)
  }

  /** playout_get_unconditional: the frame at the head, if its stamp fits in 31
      bits. */
  predicate Takes(s: State) {
    s.queue != [] && 0x7FFFFFFF >= s.queue[0].stamp
  }

  function Take(s: State): State {
    if Takes(s) then s.(queue := s.queue[1..]) else s
  }

  // ------------------------------------------------------------ whole runs

  datatype Op = PutOp(frame: FrameData) | GetOp | TakeOp

  function Step(s: State, op: Op): State {
    match op
    case PutOp(f) => Put(s, f)
    case GetOp => Get(s)
    case TakeOp => Take(s)
  }

  function Run(s: State, ops: seq<Op>): State {
    if ops == [] then s else Step(Run(s, ops[..|ops| - 1]), ops[|ops| - 1])
  }

  /** How many of the calls made from s had a property. */
  function Count(s: State, ops: seq<Op>, p: (State, Op) -> bool): nat {
    if ops == [] then 0
    else Count(s, ops[..|ops| - 1], p) + if p(Run(s, ops[..|ops| - 1]), ops[|ops| - 1]) then 1 else 0
  }

  function IsFillin(): (State, Op) -> bool {
    (s, op) => op == GetOp && ResultOf(s) == Fillin
  }

  function IsTaken(): (State, Op) -> bool {
    (s, op) => op == TakeOp && Takes(s)
  }

  function IsSpeechOkOrFillin(): (State, Op) -> bool {
    (s, op) => op == GetOp && (ResultOf(s) == Fillin || SpeechOk(s))
  }

  /** Every frame put is queued, came out of a get, or was taken. */
  lemma {:induction false} FramesBalance(s: State, ops: seq<Op>)
    ensures var t := Run(s, ops);
      t.frames_in - t.frames_out - |t.queue| == s.frames_in - s.frames_out - |s.queue| + Count(s, ops, IsTaken())
  {
    if ops != [] {
      FramesBalance(s, ops[..|ops| - 1]);
      hide *;
      RunStep(s, ops);
      CountStep(s, ops, IsTaken());
      StepBalance(Run(s, ops[..|ops| - 1]), ops[|ops| - 1]);
    } else {
      RunNone(s, IsTaken());
    }
  }

  lemma RunStep(s: State, ops: seq<Op>)
    requires ops != []
    ensures Run(s, ops) == Step(Run(s, ops[..|ops| - 1]), ops[|ops| - 1])
  {
  }

  lemma StepBalance(s: State, op: Op)
    ensures var t := Step(s, op);
      t.frames_in - t.frames_out - |t.queue| == s.frames_in - s.frames_out - |s.queue| + if IsTaken()(s, op) then 1 else 0
  {
    hide Adapt, Place;
  }

  /** Missing and late frames together are the fill-ins asked for. */
  lemma {:induction false} MissingAndLate(s: State, ops: seq<Op>)
    ensures var t := Run(s, ops);
      t.frames_missing + t.frames_late == s.frames_missing + s.frames_late + Count(s, ops, IsFillin())
  {
    if ops != [] {
      MissingAndLate(s, ops[..|ops| - 1]);
      hide *;
      RunStep(s, ops);
      CountStep(s, ops, IsFillin());
      StepMissing(Run(s, ops[..|ops| - 1]), ops[|ops| - 1]);
    } else {
      RunNone(s, IsFillin());
    }
  }

  lemma RunNone(s: State, p: (State, Op) -> bool)
    ensures Run(s, []) == s && Count(s, [], p) == 0
  {
  }

  lemma CountStep(s: State, ops: seq<Op>, p: (State, Op) -> bool)
    requires ops != []
    ensures Count(s, ops, p) == Count(s, ops[..|ops| - 1], p) + if p(Run(s, ops[..|ops| - 1]), ops[|ops| - 1]) then 1 else 0
  {
  }

  function IsDropped(): (State, Op) -> bool {
    (s, op) => op == GetOp && ResultOf(s) == Drop
  }

  /** The frames counted late are those dropped, and each of them takes back a
      frame counted missing. */
  lemma {:induction false} LateAreDropped(s: State, ops: seq<Op>)
    ensures var t := Run(s, ops);
      && t.frames_late == s.frames_late + Count(s, ops, IsDropped())
      && t.frames_missing == s.frames_missing + Count(s, ops, IsFillin()) - Count(s, ops, IsDropped())
  {
    if ops != [] {
      LateAreDropped(s, ops[..|ops| - 1]);
      MissingAndLate(s, ops);
      hide *;
      RunStep(s, ops);
      CountStep(s, ops, IsDropped());
      StepLate(Run(s, ops[..|ops| - 1]), ops[|ops| - 1]);
    } else {
      RunNone(s, IsFillin());
      RunNone(s, IsDropped());
    }
  }

  lemma StepLate(s: State, op: Op)
    ensures Step(s, op).frames_late == s.frames_late + if IsDropped()(s, op) then 1 else 0
  {
    hide Adapt, Place;
  }

  /** The frames counted out of sequence are those that did not go to the back of
      the queue. */
  lemma OutOfSequence(s: State, f: FrameData)
    ensures Put(s, f).frames_oos == s.frames_oos + if Place(s.queue, f.stamp) < |s.queue| then 1 else 0
    ensures Put(s, f).frames_in == s.frames_in + 1
  {
    var n := |s.queue|;
    if n > 0 && f.stamp < s.queue[n - 1].stamp {
      ScanBound(s.queue, f.stamp, n - 1);
      hide ScanStop;
      if ScanStop(s.queue, f.stamp, n - 1) == n - 1 && n > 1 {
        assert false;
      }
    }
  }

  lemma StepMissing(s: State, op: Op)
    ensures var t := Step(s, op);
      t.frames_missing + t.frames_late == s.frames_missing + s.frames_late + if IsFillin()(s, op) then 1 else 0
  {
    hide Adapt, Place;
  }

  // --------------------------------------------- the delay over whole runs

  /** All speech frames last L. */
  predicate SpeechLasts(op: Op, L: int) {
    op.PutOp? && op.frame.kind == SPEECH ==> op.frame.len == L
  }

  ghost predicate ConstantLength(s: State, L: int) {
    !s.start && s.last_len == L && forall k :: 0 <= k < |s.queue| && s.queue[k].kind == SPEECH ==> s.queue[k].len == L
  }

  lemma StepConstant(s: State, op: Op, L: int)
    requires L > 0 && ConstantLength(s, L) && SpeechLasts(op, L)
    ensures ConstantLength(Step(s, op), L)
  {
    hide Adapt;
  }

  /** What growing the buffer adds to the target it takes from the stamp. */
  lemma AdaptKeepsSum(c: Settings, f: FrameData, d: Delay)
    requires f.len == c.last_len
    ensures Adapt(c, f, d).last_stamp + Adapt(c, f, d).target == d.last_stamp + d.target
  {
    hide Leak;
  }

  lemma StepStamp(s: State, op: Op, L: int)
    requires L > 0 && ConstantLength(s, L)
    ensures var t := Step(s, op);
      t.delay.last_stamp + t.delay.target == s.delay.last_stamp + s.delay.target + if IsSpeechOkOrFillin()(s, op) then L else 0
  {
    if op == GetOp && Ready(s) && s.queue[0].kind == SPEECH {
      AdaptKeepsSum(SettingsOf(s), s.queue[0], s.delay.(last_stamp := Due(s)));
    }
    hide Adapt, Place;
  }

  ghost predicate AllLast(ops: seq<Op>, L: int) {
    forall k :: 0 <= k < |ops| ==> SpeechLasts(ops[k], L)
  }

  /** With frames of one length, the stamp and the target together advance by
      exactly one frame for each speech frame delivered and each fill-in. */
  lemma {:induction false} StampAdvances(s: State, ops: seq<Op>, L: int)
    requires L > 0 && ConstantLength(s, L) && AllLast(ops, L)
    ensures var t := Run(s, ops);
      && ConstantLength(t, L)
      && t.delay.last_stamp + t.delay.target == s.delay.last_stamp + s.delay.target + L * Count(s, ops, IsSpeechOkOrFillin())
  {
    if ops == [] {
      RunNone(s, IsSpeechOkOrFillin());
    } else {
      var front, op := ops[..|ops| - 1], ops[|ops| - 1];
      assert SpeechLasts(op, L) && AllLast(front, L);
      hide *;
      StampAdvances(s, front, L);
      var u := Run(s, front);
      StepConstant(u, op, L);
      StepStamp(u, op, L);
      RunStep(s, ops);
      CountStep(s, ops, IsSpeechOkOrFillin());
      MulNext(L, Count(s, front, IsSpeechOkOrFillin()));
    }
  }

  lemma MulNext(L: int, n: int)
    ensures L * (n + 1) == L * n + L
  {
  }

  /** A speech frame that reaches the adaptation. */
  function IsSensed(): (State, Op) -> bool {
    (s, op) => op == GetOp && Ready(s) && s.dynamic && s.queue[0].kind == SPEECH
  }

  lemma StepExpected(s: State, op: Op, L: int)
    requires ConstantLength(s, L) && s.delay.not_first
    ensures var t := Step(s, op);
      t.delay.not_first
      && t.delay.latest_expected - t.delay.target == s.delay.latest_expected - s.delay.target + if IsSensed()(s, op) then L else 0
  {
    hide Leak, Place;
  }

  /** Once primed, the latest time a frame is expected, less the target, also
      advances by one frame for each speech frame taken. */
  lemma {:induction false} ExpectedAdvances(s: State, ops: seq<Op>, L: int)
    requires L > 0 && ConstantLength(s, L) && AllLast(ops, L) && s.delay.not_first
    ensures var t := Run(s, ops);
      t.delay.not_first
      && t.delay.latest_expected - t.delay.target == s.delay.latest_expected - s.delay.target + L * Count(s, ops, IsSensed())
  {
    if ops == [] {
      RunNone(s, IsSensed());
    } else {
      var front, op := ops[..|ops| - 1], ops[|ops| - 1];
      assert SpeechLasts(op, L) && AllLast(front, L);
      hide *;
      ExpectedAdvances(s, front, L);
      StampAdvances(s, front, L);
      StepExpected(Run(s, front), op, L);
      RunStep(s, ops);
      CountStep(s, ops, IsSensed());
      MulNext(L, Count(s, front, IsSensed()));
    }
  }

  predicate Integrators(s: State) {
    InRange(s.delay.state_late) && InRange(s.delay.state_just_in_time) && InRange(s.dropable_threshold)
  }

  lemma StepIntegrators(s: State, op: Op)
    requires Integrators(s)
    ensures Integrators(Step(s, op))
  {
    if op == GetOp && Ready(s) {
      AdaptIntegrators(SettingsOf(s), s.queue[0], s.delay.(last_stamp := Due(s)));
    }
    hide Adapt, Place;
  }

  lemma AdaptIntegrators(c: Settings, f: FrameData, d: Delay)
    requires InRange(c.dropable_threshold) && InRange(d.state_late) && InRange(d.state_just_in_time)
    ensures InRange(Adapt(c, f, d).state_late) && InRange(Adapt(c, f, d).state_just_in_time)
  {
    var expected := if d.not_first then d.latest_expected else f.received + c.min_length;
    LeakInRange(d.state_late, f.received > expected);
    LeakInRange(d.state_just_in_time, f.received > expected - f.len);
    hide Leak;
  }

  /** Both leaky integrators stay between 0 and full scale, in every run of a
      restarted buffer. */
  lemma {:induction false} IntegratorsInRange(min_length: int, max_length: int, ops: seq<Op>)
    ensures Integrators(Run(Restarted(min_length, max_length), ops))
  {
    var s := Restarted(min_length, max_length);
    if ops != [] {
      IntegratorsInRange(min_length, max_length, ops[..|ops| - 1]);
      StepIntegrators(Run(s, ops[..|ops| - 1]), ops[|ops| - 1]);
    }
  }

  // ------------------------------------------------------ how far it moves

  ghost predicate FramesLast(s: State, L: int) {
    forall k :: 0 <= k < |s.queue| && s.queue[k].kind == SPEECH ==> s.queue[k].len == L
  }

  lemma StepFramesLast(s: State, op: Op, L: int)
    requires FramesLast(s, L) && SpeechLasts(op, L)
    ensures FramesLast(Step(s, op), L)
  {
    hide Adapt;
  }

  lemma StepTarget(s: State, op: Op, L: int, lo: int, hi: int)
    requires L > 0 && FramesLast(s, L)
    requires lo <= s.delay.target <= hi && lo <= s.min_length - L && s.max_length + 3 * L <= hi
    ensures var t := Step(s, op); lo <= t.delay.target <= hi && t.min_length == s.min_length && t.max_length == s.max_length
  {
    if op == GetOp && Ready(s) && s.queue[0].kind == SPEECH {
      TargetMoves(SettingsOf(s), s.queue[0], s.delay.(last_stamp := Due(s)));
    }
    hide Adapt, Place, Sensed;
  }

  /** Over every run with frames of one length the target stays within a frame
      below the minimum and three above the maximum, or where it was. */
  lemma {:induction false} TargetInRange(s: State, ops: seq<Op>, L: int)
    requires L > 0 && FramesLast(s, L) && AllLast(ops, L)
    ensures var t := Run(s, ops);
      && FramesLast(t, L) && t.min_length == s.min_length && t.max_length == s.max_length
      && (if s.delay.target < s.min_length - L then s.delay.target else s.min_length - L) <= t.delay.target
      && t.delay.target <= (if s.delay.target > s.max_length + 3 * L then s.delay.target else s.max_length + 3 * L)
  {
    var lo := if s.delay.target < s.min_length - L then s.delay.target else s.min_length - L;
    var hi := if s.delay.target > s.max_length + 3 * L then s.delay.target else s.max_length + 3 * L;
    if ops == [] {
      RunNone(s, IsSensed());
    } else {
      var front, op := ops[..|ops| - 1], ops[|ops| - 1];
      assert SpeechLasts(op, L) && AllLast(front, L);
      hide *;
      TargetInRange(s, front, L);
      StepFramesLast(Run(s, front), op, L);
      StepTarget(Run(s, front), op, L, lo, hi);
      RunStep(s, ops);
    }
  }

  // --------------------------------------------- frames off the buffer's grid

  /** A speech frame handed out to be played. */
  function IsSpeechOk(): (State, Op) -> bool {
    (s, op) => op == GetOp && SpeechOk(s)
  }

  /** A get at which the target rises. */
  function IsRise(): (State, Op) -> bool {
    (s: State, op: Op) => op == GetOp && s.dynamic && Get(s).delay.target > s.delay.target
  }

  /** Speech frames of one length L, stamped in steps of it. */
  predicate OnGrid(f: FrameData, L: int, r: int)
    requires L > 0
  {
    f.kind == SPEECH ==> f.len == L && (f.stamp - r) % L == 0
  }

  ghost predicate AllOnGrid(ops: seq<Op>, L: int, r: int)
    requires L > 0
  {
    forall k :: 0 <= k < |ops| && ops[k].PutOp? ==> OnGrid(ops[k].frame, L, r)
  }

  /** The buffer is off that grid by its minimum length. */
  ghost predicate OffBy(s: State, L: int, r: int)
    requires L > 0
  {
    && (forall k :: 0 <= k < |s.queue| ==> OnGrid(s.queue[k], L, r))
    && (if s.start then forall k :: 0 <= k < |s.queue| ==> s.queue[k].kind != SPEECH
        else s.last_len == L && (s.delay.last_stamp + s.min_length - r) % L == 0)
  }

  lemma Stepped(x: int, L: int)
    requires L > 0
    ensures (x + L) % L == x % L && (x - L) % L == x % L
  {
    assert x == L * (x / L) + x % L;
    ModUnique(x + L, L, x / L + 1, x % L);
    ModUnique(x - L, L, x / L - 1, x % L);
  }

  lemma Less(x: int, y: int, L: int)
    requires L > 0 && x % L == 0 && y % L == 0
    ensures (x - y) % L == 0
  {
    assert x == L * (x / L) && y == L * (y / L);
    ModUnique(x - y, L, x / L - y / L, 0);
  }

  lemma StepOffBy(s: State, op: Op, L: int, r: int)
    requires L > 0 && OffBy(s, L, r) && (op.PutOp? ==> OnGrid(op.frame, L, r))
    ensures OffBy(Step(s, op), L, r) && Step(s, op).min_length == s.min_length && Step(s, op).dynamic == s.dynamic
  {
    match op
    case PutOp(f) => PutOffBy(s, f, L, r);
    case GetOp => GetOffBy(s, L, r);
    case TakeOp => hide Place;
  }

  lemma PutOffBy(s: State, f: FrameData, L: int, r: int)
    requires L > 0 && OffBy(s, L, r) && OnGrid(f, L, r)
    ensures OffBy(Put(s, f), L, r) && Put(s, f).min_length == s.min_length && Put(s, f).dynamic == s.dynamic
  {
    var k := Place(s.queue, f.stamp);
    hide Place;
    Stepped(f.stamp - r, L);
    var q := Inserted(s.queue, k, f);
    assert forall i :: 0 <= i < |q| ==> q[i] == if i < k then s.queue[i] else if i == k then f else s.queue[i - 1];
    hide Inserted;
  }

  lemma GetOffBy(s: State, L: int, r: int)
    requires L > 0 && OffBy(s, L, r)
    ensures OffBy(Get(s), L, r) && Get(s).min_length == s.min_length && Get(s).dynamic == s.dynamic
  {
    Stepped(s.delay.last_stamp + s.min_length - r, L);
    if Ready(s) {
      assert OnGrid(s.queue[0], L, r);
      assert forall i :: 0 <= i < |s.queue[1..]| ==> s.queue[1..][i] == s.queue[i + 1];
      if s.queue[0].kind == SPEECH {
        AdaptOnGrid(SettingsOf(s), s.queue[0], s.delay.(last_stamp := Due(s)), L, r - s.min_length);
        Stepped(Looked(s).last_stamp + s.min_length - r, L);
      }
    }
    hide Adapt;
  }

  /** A change of the target moves the stamp by whole frames. */
  lemma AdaptOnGrid(c: Settings, f: FrameData, d: Delay, L: int, r: int)
    requires L > 0 && c.last_len == L && (d.last_stamp - r) % L == 0
    ensures (Adapt(c, f, d).last_stamp - r) % L == 0
  {
    hide Leak, Next32;
    var x := d.last_stamp - r;
    Stepped(x, L);
    Stepped(x - L, L);
    Stepped(x - 2 * L, L);
  }

  /** A frame is played only if it is due to the sample, or if the target rises
      at that very frame. */
  lemma PlayedOnGrid(s: State, L: int, r: int)
    requires L > 0 && OffBy(s, L, r) && SpeechOk(s)
    ensures s.min_length % L == 0 || IsRise()(s, GetOp)
  {
    HeadOnGrid(s, L, r);
    hide *;
    DueExactly(s);
    if s.queue[0].stamp == Due(s) {
      Less(Due(s) + s.min_length - r, s.queue[0].stamp - r, L);
    }
  }

  lemma HeadOnGrid(s: State, L: int, r: int)
    requires L > 0 && OffBy(s, L, r) && SpeechOk(s)
    ensures s.queue != [] && s.queue[0].len == L == s.last_len
    ensures (s.queue[0].stamp - r) % L == 0 && (Due(s) + s.min_length - r) % L == 0
  {
    hide ResultOf;
    assert OnGrid(s.queue[0], L, r);
    Stepped(s.delay.last_stamp + s.min_length - r, L);
  }

  lemma DueExactly(s: State)
    requires SpeechOk(s) && s.queue != [] && s.queue[0].len == s.last_len
    ensures s.queue[0].stamp == Due(s) || IsRise()(s, GetOp)
  {
    GotLooked(s);
    LookedKeepsSum(s);
    hide Looked, Get;
    assert s.queue[0].stamp >= Looked(s).last_stamp;
    if Looked(s).target > s.delay.target {
      assert s.dynamic;
      assert IsRise()(s, GetOp);
    }
  }

  lemma GotLooked(s: State)
    requires SpeechOk(s)
    ensures Get(s).delay == Looked(s)
  {
    hide Looked;
  }

  lemma LookedKeepsSum(s: State)
    requires s.queue != [] && s.queue[0].kind == SPEECH && s.queue[0].len == s.last_len
    ensures Looked(s).last_stamp + Looked(s).target == Due(s) + s.delay.target
    ensures !s.dynamic ==> Looked(s).target == s.delay.target
  {
    hide Adapt;
    AdaptKeepsSum(SettingsOf(s), s.queue[0], s.delay.(last_stamp := Due(s)));
  }

  /** Where the minimum length is not a whole number of frames, no more frames of
      a regular stream are played than times the target rises, whatever is lost
      or late; by a buffer of fixed length none, ever. */
  lemma {:induction false} NeverPlayed(min_length: int, max_length: int, ops: seq<Op>, L: int, r: int)
    requires L > 0 && min_length % L != 0 && AllOnGrid(ops, L, r)
    ensures var s := Restarted(min_length, max_length); var t := Run(s, ops);
      && OffBy(t, L, r) && t.min_length == min_length && t.dynamic == (min_length < max_length)
      && Count(s, ops, IsSpeechOk()) <= Count(s, ops, IsRise())
      && (max_length <= min_length ==> Count(s, ops, IsSpeechOk()) == 0)
  {
    var s := Restarted(min_length, max_length);
    if ops == [] {
      RunNone(s, IsSpeechOk());
      RunNone(s, IsRise());
    } else {
      var front, op := ops[..|ops| - 1], ops[|ops| - 1];
      assert op.PutOp? ==> OnGrid(op.frame, L, r);
      assert AllOnGrid(front, L, r);
      hide *;
      NeverPlayed(min_length, max_length, front, L, r);
      var t := Run(s, front);
      StepOffBy(t, op, L, r);
      NotPlayed(t, op, L, r);
      RunStep(s, ops);
      CountStep(s, ops, IsSpeechOk());
      CountStep(s, ops, IsRise());
    }
  }

  lemma NotPlayed(s: State, op: Op, L: int, r: int)
    requires L > 0 && OffBy(s, L, r) && s.min_length % L != 0
    ensures IsSpeechOk()(s, op) ==> IsRise()(s, op)
    ensures IsRise()(s, op) ==> s.dynamic
  {
    hide OffBy, SpeechOk, Get;
    if op == GetOp && SpeechOk(s) {
      PlayedOnGrid(s, L, r);
    }
  }

  // ------------------------------------------------- nothing lost, nothing made

  /** The frame a call hands out. */
  function Delivered(s: State, op: Op): seq<FrameData> {
    if op == GetOp && Ready(s) then [s.queue[0]] else if op == TakeOp && Takes(s) then [s.queue[0]] else []
  }

  function Outputs(s: State, ops: seq<Op>): seq<FrameData> {
    if ops == [] then [] else Outputs(s, ops[..|ops| - 1]) + Delivered(Run(s, ops[..|ops| - 1]), ops[|ops| - 1])
  }

  function Inputs(ops: seq<Op>): seq<FrameData> {
    if ops == [] then []
    else Inputs(ops[..|ops| - 1]) + PutFrames(ops[|ops| - 1])
  }

  function PutFrames(op: Op): seq<FrameData> {
    if op.PutOp? then [op.frame] else []
  }

  lemma StepFrames(s: State, op: Op)
    ensures multiset(s.queue) + multiset(PutFrames(op)) == multiset(Step(s, op).queue) + multiset(Delivered(s, op))
  {
    if op.PutOp? {
      InsertedFrames(s.queue, Place(s.queue, op.frame.stamp), op.frame);
      PutQueue(s, op.frame);
    } else {
      PopFrames(s.queue);
      NextQueue(s, op);
    }
  }

  lemma InsertedFrames(q: seq<FrameData>, k: nat, f: FrameData)
    requires k <= |q|
    ensures multiset(Inserted(q, k, f)) == multiset(q) + multiset([f])
  {
    assert q == q[..k] + q[k..];
  }

  lemma PopFrames(q: seq<FrameData>)
    ensures q != [] ==> multiset(q) == multiset(q[1..]) + multiset([q[0]])
  {
    if q != [] {
      assert q == [q[0]] + q[1..];
    }
  }

  lemma PutQueue(s: State, f: FrameData)
    ensures Put(s, f).queue == Inserted(s.queue, Place(s.queue, f.stamp), f)
  {
  }

  lemma NextQueue(s: State, op: Op)
    requires !op.PutOp?
    ensures if Delivered(s, op) == [] then Step(s, op).queue == s.queue
            else s.queue != [] && Delivered(s, op) == [s.queue[0]] && Step(s, op).queue == s.queue[1..]
  {
    hide Adapt;
  }

  /** Every frame put is delivered once or still queued. */
  lemma {:induction false} FramesConserved(s: State, ops: seq<Op>)
    ensures multiset(s.queue) + multiset(Inputs(ops)) == multiset(Run(s, ops).queue) + multiset(Outputs(s, ops))
  {
    if ops != [] {
      var front, op := ops[..|ops| - 1], ops[|ops| - 1];
      hide *;
      FramesConserved(s, front);
      StepFrames(Run(s, front), op);
      RunStep(s, ops);
      FramesStep(s, ops);
      Combine(multiset(s.queue), multiset(Inputs(front)), multiset(PutFrames(op)), multiset(Run(s, front).queue),
              multiset(Outputs(s, front)), multiset(Run(s, ops).queue), multiset(Delivered(Run(s, front), op)));
    }
  }

  lemma FramesStep(s: State, ops: seq<Op>)
    requires ops != []
    ensures var front, op := ops[..|ops| - 1], ops[|ops| - 1];
      && multiset(Inputs(ops)) == multiset(Inputs(front)) + multiset(PutFrames(op))
      && multiset(Outputs(s, ops)) == multiset(Outputs(s, front)) + multiset(Delivered(Run(s, front), op))
  {
    hide Run, Delivered, PutFrames;
  }

  lemma Combine(q0: multiset<FrameData>, i: multiset<FrameData>, p: multiset<FrameData>, q: multiset<FrameData>,
                o: multiset<FrameData>, q': multiset<FrameData>, d: multiset<FrameData>)
    requires q0 + i == q + o && q + p == q' + d
    ensures q0 + (i + p) == q' + (o + d)
  {
    assert q0 + (i + p) == (q0 + i) + p;
    assert (q + o) + p == (q + p) + o;
    assert (q' + d) + o == q' + (o + d);
  }

  // ------------------------------- a fixed buffer of a whole number of frames

  /** The first frame, and n gets. */
  function Waiting(f: FrameData, n: nat): seq<Op> {
    if n == 0 then [PutOp(f)] else Waiting(f, n - 1) + [GetOp]
  }

  /** Frame after frame, each got before the next one comes. */
  function Feeding(frames: seq<FrameData>, wait: nat): seq<Op>
    requires frames != []
  {
    if |frames| == 1 then Waiting(frames[0], wait) + [GetOp]
    else Feeding(frames[..|frames| - 1], wait) + [PutOp(frames[|frames| - 1])] + [GetOp]
  }

  /** A regular stream of speech. */
  ghost predicate Regular(frames: seq<FrameData>, L: int) {
    && (forall k :: 0 <= k < |frames| ==> frames[k].kind == SPEECH && frames[k].len == L)
    && (forall k :: 0 < k < |frames| ==> frames[k].stamp == frames[k - 1].stamp + L)
  }

  lemma Snoc(s: State, ops: seq<Op>, op: Op)
    ensures Run(s, ops + [op]) == Step(Run(s, ops), op)
    ensures Outputs(s, ops + [op]) == Outputs(s, ops) + Delivered(Run(s, ops), op)
    ensures Count(s, ops + [op], IsSpeechOk()) == Count(s, ops, IsSpeechOk()) + if IsSpeechOk()(Run(s, ops), op) then 1 else 0
  {
    assert (ops + [op])[..|ops|] == ops;
    hide Step, Delivered;
  }

  /** A fixed buffer that waits with one frame. */
  predicate WaitsWith(t: State, f: FrameData, L: int) {
    !t.dynamic && !t.start && t.queue == [f] && t.last_len == L == f.len && f.kind == SPEECH
  }

  /** The calls ops have given out nothing, and the buffer waits with f. */
  ghost predicate Waited(s: State, ops: seq<Op>, f: FrameData, L: int, missing: int, last_stamp: int) {
    var t := Run(s, ops);
    && WaitsWith(t, f, L) && t.delay.last_stamp == last_stamp && t.frames_missing == missing && t.frames_late == 0
    && Outputs(s, ops) == [] && Count(s, ops, IsSpeechOk()) == 0
  }

  lemma WaitFirst(min_length: int, max_length: int, f: FrameData, L: int)
    requires L > 0 && max_length <= min_length && f.kind == SPEECH && f.len == L
    ensures Waited(Restarted(min_length, max_length), Waiting(f, 0), f, L, 0, f.stamp - L - min_length)
  {
    var s := Restarted(min_length, max_length);
    Snoc(s, [], PutOp(f));
    assert Waiting(f, 0) == [] + [PutOp(f)];
    PutFirst(s, f, L);
    RunNone(s, IsSpeechOk());
    assert Outputs(s, []) == [];
    hide Restarted, Run, Outputs, Count, Step, Delivered, WaitsWith, IsSpeechOk;
  }

  lemma PutFirst(s: State, f: FrameData, L: int)
    requires s.queue == [] && s.start && !s.dynamic && s.frames_missing == 0 && s.frames_late == 0 && f.kind == SPEECH && f.len == L
    ensures var u := Step(s, PutOp(f));
      && WaitsWith(u, f, L) && u.delay.last_stamp == f.stamp - L - s.min_length && u.frames_missing == 0 && u.frames_late == 0
      && Delivered(s, PutOp(f)) == [] && !IsSpeechOk()(s, PutOp(f))
  {
  }

  lemma WaitNext(s: State, ops: seq<Op>, f: FrameData, L: int, missing: int, ahead: int)
    requires L > 0 && ahead > 0 && Waited(s, ops, f, L, missing, f.stamp - L - ahead * L)
    ensures Waited(s, ops + [GetOp], f, L, missing + 1, f.stamp - L - (ahead - 1) * L)
  {
    hide Run, Step, Outputs, Count, WaitsWith, Delivered;
    Snoc(s, ops, GetOp);
    NotYet(Run(s, ops), f, L, ahead);
    Distribute(ahead - 1, L);
  }

  lemma {:induction false} WaitingRun(min_length: int, max_length: int, f: FrameData, L: int, wait: nat, n: nat)
    requires L > 0 && max_length <= min_length == wait * L && f.kind == SPEECH && f.len == L && n <= wait
    ensures Waited(Restarted(min_length, max_length), Waiting(f, n), f, L, n, f.stamp - L - (wait - n) * L)
  {
    if n == 0 {
      WaitFirst(min_length, max_length, f, L);
    } else {
      hide Waited;
      WaitingRun(min_length, max_length, f, L, wait, n - 1);
      WaitNext(Restarted(min_length, max_length), Waiting(f, n - 1), f, L, n - 1, wait - n + 1);
    }
  }

  lemma Distribute(n: int, L: int)
    ensures (n + 1) * L == n * L + L
  {
  }

  /** Before its time a frame is not given out. */
  lemma NotYet(t: State, f: FrameData, L: int, ahead: int)
    requires L > 0 && ahead > 0 && WaitsWith(t, f, L) && t.delay.last_stamp == f.stamp - L - ahead * L
    ensures var u := Step(t, GetOp);
      && WaitsWith(u, f, L) && u.delay.last_stamp == t.delay.last_stamp + L && u.frames_missing == t.frames_missing + 1
      && u.frames_late == t.frames_late && Delivered(t, GetOp) == [] && !IsSpeechOk()(t, GetOp)
  {
    assert ahead * L > 0;
  }

  /** In its time it is played. */
  lemma NowPlayed(t: State, f: FrameData, L: int)
    requires L > 0 && WaitsWith(t, f, L) && t.delay.last_stamp == f.stamp - L
    ensures var u := Step(t, GetOp);
      && !u.dynamic && !u.start && u.queue == [] && u.last_len == L && u.delay.last_stamp == f.stamp
      && u.frames_missing == t.frames_missing && u.frames_late == t.frames_late && Delivered(t, GetOp) == [f] && IsSpeechOk()(t, GetOp)
  {
  }

  /** The calls ops have played all of the frames, and nothing is left. */
  ghost predicate Played(s: State, ops: seq<Op>, frames: seq<FrameData>, L: int, missing: int)
    requires frames != []
  {
    var t := Run(s, ops);
    && Outputs(s, ops) == frames && Count(s, ops, IsSpeechOk()) == |frames| && t.frames_missing == missing && t.frames_late == 0
    && !t.dynamic && !t.start && t.queue == [] && t.last_len == L && t.delay.last_stamp == frames[|frames| - 1].stamp
  }

  lemma PlayFirst(s: State, ops: seq<Op>, f: FrameData, L: int, missing: int)
    requires L > 0 && Waited(s, ops, f, L, missing, f.stamp - L)
    ensures Played(s, ops + [GetOp], [f], L, missing)
  {
    hide Run, Step, Outputs, Count, WaitsWith, Delivered;
    Snoc(s, ops, GetOp);
    NowPlayed(Run(s, ops), f, L);
    assert [] + [f] == [f];
  }

  lemma PlayNext(s: State, ops: seq<Op>, frames: seq<FrameData>, f: FrameData, L: int, missing: int)
    requires L > 0 && frames != [] && Played(s, ops, frames, L, missing)
    requires f.kind == SPEECH && f.len == L && f.stamp == frames[|frames| - 1].stamp + L
    ensures Played(s, ops + [PutOp(f)] + [GetOp], frames + [f], L, missing)
  {
    hide Run, Step, Outputs, Count, WaitsWith, Delivered;
    Snoc(s, ops, PutOp(f));
    Snoc(s, ops + [PutOp(f)], GetOp);
    PutAlone(Run(s, ops), f, L);
    NowPlayed(Run(s, ops + [PutOp(f)]), f, L);
    assert frames + [] + [f] == frames + [f];
  }

  /** A fixed buffer of a whole number of frames plays every frame of a regular
      stream, in order and with no gap, once it has waited for that number. */
  lemma {:induction false} AllPlayed(min_length: int, max_length: int, frames: seq<FrameData>, L: int, wait: nat)
    requires L > 0 && max_length <= min_length == wait * L && frames != [] && Regular(frames, L)
    ensures Played(Restarted(min_length, max_length), Feeding(frames, wait), frames, L, wait)
    decreases |frames|
  {
    hide Played, Waited, Run, Regular;
    var s, n := Restarted(min_length, max_length), |frames| - 1;
    var f := frames[n];
    RegularAt(frames, L, n);
    FeedingIs(frames, wait);
    if n == 0 {
      WaitingRun(min_length, max_length, f, L, wait, wait);
      PlayFirst(s, Waiting(f, wait), f, L, wait);
      assert [f] == frames;
    } else {
      AllPlayed(min_length, max_length, frames[..n], L, wait);
      PlayNext(s, Feeding(frames[..n], wait), frames[..n], f, L, wait);
      assert frames[..n] + [f] == frames;
    }
  }

  lemma RegularAt(frames: seq<FrameData>, L: int, n: nat)
    requires Regular(frames, L) && n < |frames|
    ensures frames[n].kind == SPEECH && frames[n].len == L && (n > 0 ==> frames[n].stamp == frames[n - 1].stamp + L)
    ensures Regular(frames[..n], L)
  {
  }

  lemma FeedingIs(frames: seq<FrameData>, wait: nat)
    requires frames != []
    ensures Feeding(frames, wait) == if |frames| == 1 then Waiting(frames[0], wait) + [GetOp]
      else Feeding(frames[..|frames| - 1], wait) + [PutOp(frames[|frames| - 1])] + [GetOp]
  {
  }

  lemma PutAlone(t: State, f: FrameData, L: int)
    requires !t.dynamic && !t.start && t.queue == [] && t.last_len == L && f.kind == SPEECH && f.len == L
    ensures var u := Step(t, PutOp(f));
      && WaitsWith(u, f, L) && u.delay == t.delay && u.frames_missing == t.frames_missing && u.frames_late == t.frames_late
      && Delivered(t, PutOp(f)) == [] && !IsSpeechOk()(t, PutOp(f))
  {
  }
}
