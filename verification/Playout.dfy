/** The linked queue and free list of playout.c. */
module Playout {
  import opened PlayoutSpec

  class Frame {
    var data: int
    var kind: int
    var len: int
    var stamp: int
    var received: int
    var earlier: Frame?
    var later: Frame?

    constructor () {
      data, kind, len, stamp, received := 0, 0, 0, 0, 0;
      earlier, later := null, null;
    }

    function Data(): FrameData
      reads this`data, this`kind, this`len, this`stamp, this`received
    {
      FrameData(data, kind, len, stamp, received)
    }
  }

  function DataOf(q: seq<Frame>): (d: seq<FrameData>)
    reads q`data, q`kind, q`len, q`stamp, q`received
    ensures |d| == |q| && forall i :: 0 <= i < |q| ==> d[i] == q[i].Data()
    decreases |q|
  {
    if q == [] then [] else [q[0].Data()] + DataOf(q[1..])
  }

  function At(q: seq<Frame>, i: int): Frame? {
    if 0 <= i < |q| then q[i] else null
  }

  ghost predicate Laters(q: seq<Frame>)
    reads q`later
  {
    forall i :: 0 <= i < |q| ==> q[i].later == At(q, i + 1)
  }

  ghost predicate Earliers(q: seq<Frame>)
    reads q`earlier
  {
    forall i :: 0 <= i < |q| ==> q[i].earlier == At(q, i - 1)
  }

  /** The links of a queue are each other's inverse, from null to null. */
  ghost predicate Linked(q: seq<Frame>)
    reads q`later, q`earlier
  {
    Laters(q) && Earliers(q)
  }

  /** The free list only uses the later links. */
  ghost predicate Chained(q: seq<Frame>)
    reads q`later
  {
    Laters(q)
  }

  ghost predicate AllDistinct(q: seq<Frame>) {
    forall i, j :: 0 <= i < j < |q| ==> q[i] != q[j]
  }

  lemma TailData(q: seq<Frame>, d: seq<FrameData>)
    requires |d| == |q| > 0 && forall i :: 0 <= i < |q| ==> d[i] == q[i].Data()
    ensures DataOf(q[1..]) == d[1..]
  {
    assert forall i :: 0 <= i < |q[1..]| ==> DataOf(q[1..])[i] == d[i + 1];
  }

  lemma TakeIs(s: State)
    ensures Takes(s) <==> s.queue != [] && 0x7FFFFFFF >= s.queue[0].stamp
    ensures Take(s) == if Takes(s) then s.(queue := s.queue[1..]) else s
  {
  }

  lemma InsertedData(q: seq<Frame>, d: seq<FrameData>, f: Frame, k: nat)
    requires k <= |q| == |d| && forall i :: 0 <= i < |q| ==> d[i] == q[i].Data()
    ensures DataOf(q[..k] + [f] + q[k..]) == Inserted(d, k, f.Data())
  {
    var t := q[..k] + [f] + q[k..];
    forall i | 0 <= i < |t|
      ensures DataOf(t)[i] == Inserted(d, k, f.Data())[i]
    {
      if i < k {
        assert t[i] == q[i];
      } else if i > k {
        assert t[i] == q[i - 1];
      }
    }
  }

  lemma AtIs(q: seq<Frame>, i: int)
    requires i < |q|
    ensures At(q, i) == if i < 0 then null else q[i]
  {
  }

  /** The scan for a frame earlier than the last. */
  lemma PlaceIs(q: seq<FrameData>, x: int)
    requires q != [] && x < q[|q| - 1].stamp
    ensures Place(q, x) == var p := ScanStop(q, x, |q| - 1); if p > 0 then p + 1 else 0
  {
    hide ScanStop;
  }

  lemma PlaceLast(q: seq<FrameData>, x: int)
    ensures q == [] || x >= q[|q| - 1].stamp ==> Place(q, x) == |q|
  {
    hide ScanStop;
  }

  lemma ScanOn(q: seq<FrameData>, x: int, p: nat)
    requires p < |q|
    ensures ScanStop(q, x, p) == if x < q[p].stamp && p > 0 then ScanStop(q, x, p - 1) else p
  {
  }

  /** Where the first speech frame starts the clock. */
  function Begun(s: State, f: FrameData): State {
    if s.start && f.kind == SPEECH
    then s.(delay := s.delay.(last_stamp := f.stamp - f.len - s.min_length), last_len := f.len, start := false)
    else s
  }

  lemma PutIs(s: State, f: FrameData)
    ensures PlayoutSpec.Put(s, f) == Begun(s.(queue := Inserted(s.queue, Place(s.queue, f.stamp), f), frames_in := s.frames_in + 1,
      frames_oos := s.frames_oos + (if s.queue != [] && f.stamp < s.queue[|s.queue| - 1].stamp then 1 else 0)), f)
  {
    hide Place, Inserted;
  }

  lemma SameSettings(s: State, q: seq<FrameData>, d: Delay)
    ensures SettingsOf(s.(queue := q, delay := d)) == SettingsOf(s)
  {
  }

  lemma GetEarly(s: State)
    ensures s.queue == [] || s.delay.last_stamp + s.last_len < s.queue[0].stamp ==>
      ResultOf(s) == Fillin
      && PlayoutSpec.Get(s) == s.(delay := s.delay.(last_stamp := s.delay.last_stamp + s.last_len), frames_missing := s.frames_missing + 1)
  {
  }

  lemma GetDue(s: State, d: Delay, result: Result, len: int)
    requires s.queue != [] && s.delay.last_stamp + s.last_len >= s.queue[0].stamp
    requires var f, d0 := s.queue[0], s.delay.(last_stamp := s.delay.last_stamp + s.last_len);
      && d == (if s.dynamic && f.kind == SPEECH then Adapt(SettingsOf(s), f, d0) else d0)
      && result == (if f.kind == SPEECH && f.stamp < d.last_stamp then Drop else Ok)
      && len == if result == Ok && f.kind == SPEECH && f.len > 0 then f.len else s.last_len
    ensures ResultOf(s) == result
    ensures PlayoutSpec.Get(s) == s.(queue := s.queue[1..], frames_out := s.frames_out + 1,
      delay := d.(last_stamp := if result == Drop || s.queue[0].kind != SPEECH then d.last_stamp - s.last_len else d.last_stamp),
      last_len := len, frames_late := s.frames_late + (if result == Drop then 1 else 0),
      frames_missing := s.frames_missing - (if result == Drop then 1 else 0))
  {
    hide Adapt;
  }

  class PlayoutState {
    var dynamic: bool
    var min_length: int
    var max_length: int
    var dropable_threshold: int
    var start: bool
    var first_frame: Frame?
    var last_frame: Frame?
    var free_frames: Frame?
    var frames_in: int
    var frames_out: int
    var frames_oos: int
    var frames_late: int
    var frames_missing: int
    var latest_expected: int
    var last_stamp: int
    var last_len: int
    var not_first: bool
    var since_last_step: int
    var state_just_in_time: int
    var state_late: int
    var target: int
    ghost var Queue: seq<Frame>
    ghost var Free: seq<Frame>

    /** The queue and the free list are well formed and share no frame. */
    ghost predicate Valid()
      reads this`first_frame, this`last_frame, this`free_frames, this`Queue, this`Free, Queue`earlier, Queue`later, Free`later
    {
      && first_frame == At(Queue, 0) && last_frame == At(Queue, |Queue| - 1) && Linked(Queue)
      && free_frames == At(Free, 0) && Chained(Free)
      && AllDistinct(Queue + Free)
    }

    function DelayNow(): Delay
      reads this
    {
      Delay(not_first, latest_expected, state_late, state_just_in_time, since_last_step, target, last_stamp)
    }

    /** The state as a value. */
    ghost function Abs(): State
      reads this, Queue`data, Queue`kind, Queue`len, Queue`stamp, Queue`received
    {
      State(dynamic, min_length, max_length, dropable_threshold, start, DataOf(Queue),
            frames_in, frames_out, frames_oos, frames_late, frames_missing, last_len, DelayNow())
    }

    /** playout_restart on a new state */
    constructor (min_len: int, max_len: int)
      ensures Valid() && Queue == [] && Free == [] && Abs() == Restarted(min_len, max_len)
    {
      dynamic := min_len < max_len;
      min_length := min_len;
      var max := if max_len > min_len then max_len else min_len;
      max_length := max;
      dropable_threshold := 0x10000000 / 100;
      start := true;
      first_frame, last_frame, free_frames := null, null, null;
      frames_in, frames_out, frames_oos, frames_late, frames_missing := 0, 0, 0, 0, 0;
      latest_expected, last_stamp, last_len, not_first := 0, 0, 0, false;
      since_last_step := 0x7FFFFFFF;
      state_just_in_time, state_late := 0, 0;
      target := (max - min_len) / 2;
      Queue, Free := [], [];
    }

    /** queue_get: unlinks the first frame if it is due. */
    method QueueGet(sender_stamp: int) returns (frame: Frame?)
      requires Valid()
      modifies this`first_frame, this`last_frame, this`Queue, Queue`earlier
      ensures Valid() && Free == old(Free)
      ensures frame == null <==> old(Queue) == [] || sender_stamp < old(Queue[0].stamp)
      ensures frame == null ==> Queue == old(Queue)
      ensures frame != null ==> old(Queue) == [frame] + Queue && frame !in Queue + Free
      ensures DataOf(Queue) == if frame == null then old(DataOf(Queue)) else old(DataOf(Queue))[1..]
    {
      hide Linked, Chained, AllDistinct;
      frame := first_frame;
      if frame == null {
        return;
      }
      if sender_stamp >= frame.stamp {
        ghost var q, d := Queue, DataOf(Queue);
        UnlinkFirst();
        TailData(q, d);
        return;
      }
      frame := null;
    }

    method UnlinkFirst()
      requires Valid() && Queue != []
      modifies this`first_frame, this`last_frame, this`Queue, Queue`earlier
      ensures Valid() && Free == old(Free) && old(Queue) == [old(first_frame)] + Queue && old(first_frame) !in Queue + Free
    {
      ghost var q := Queue;
      Unlinked(Queue, Free);
      if first_frame.later != null {
        first_frame.later.earlier := null;
        first_frame := first_frame.later;
      } else {
        first_frame := null;
        last_frame := null;
      }
      Queue := Queue[1..];
      assert Linked(Queue) by {
        forall i | 0 <= i < |Queue|
          ensures Queue[i].later == At(Queue, i + 1) && Queue[i].earlier == At(Queue, i - 1)
        {
          assert Queue[i] == q[i + 1];
        }
      }
    }

    /** Puts a frame on the free list. */
    method Release(frame: Frame)
      requires Valid() && frame !in Queue + Free
      modifies this`free_frames, this`Free, frame`later
      ensures Valid() && Queue == old(Queue) && Free == [frame] + old(Free)
    {
      ghost var q, r := Queue, Free;
      frame.later := free_frames;
      free_frames := frame;
      Free := [frame] + Free;
      Released(q, r, frame);
      assert Chained(Free) by {
        forall i | 0 <= i < |Free|
          ensures Free[i].later == At(Free, i + 1)
        {
          assert i > 0 ==> Free[i] == r[i - 1];
        }
      }
    }

    lemma Released(q: seq<Frame>, r: seq<Frame>, f: Frame)
      requires AllDistinct(q + r) && f !in q + r
      ensures AllDistinct(q + ([f] + r)) && f !in q && f !in r
    {
      var s, t := q + r, q + ([f] + r);
      forall i, j | 0 <= i < j < |t|
        ensures t[i] != t[j]
      {
        assert t[i] == if i < |q| then s[i] else if i == |q| then f else s[i - 1];
        assert t[j] == if j < |q| then s[j] else if j == |q| then f else s[j - 1];
      }
      forall i | 0 <= i < |q|
        ensures q[i] != f
      {
        assert q[i] == s[i];
      }
      forall i | 0 <= i < |r|
        ensures r[i] != f
      {
        assert r[i] == s[|q| + i];
      }
    }

    function SettingsNow(): Settings
      reads this
    {
      Settings(min_length, max_length, dropable_threshold, last_len)
    }

    /** The adaptation of playout_get for a speech frame. */
    method AdaptDelay(f: FrameData)
      modifies this`not_first, this`latest_expected, this`state_late, this`state_just_in_time, this`since_last_step, this`target, this`last_stamp
      ensures DelayNow() == Adapt(SettingsNow(), f, old(DelayNow()))
    {
      hide Sensed, Grown;
      Sense(f);
      Grow(f.len);
      since_last_step := Next32(since_last_step);
    }

    /** Primes the expectation and steps the integrators. */
    method Sense(f: FrameData)
      modifies this`not_first, this`latest_expected, this`state_late, this`state_just_in_time
      ensures DelayNow() == Sensed(SettingsNow(), f, old(DelayNow()))
    {
      if !not_first {
        not_first := true;
        latest_expected := f.received + min_length;
      }
      state_late := state_late + ((if f.received > latest_expected then 0x10000000 else 0) - state_late) / 256;
      state_just_in_time := state_just_in_time
        + ((if f.received > latest_expected - f.len then 0x10000000 else 0) - state_just_in_time) / 256;
      latest_expected := latest_expected + f.len;
    }

    /** Changes the target when too many frames are late, or hardly any just in
        time. */
    method Grow(len: int)
      modifies this`latest_expected, this`state_late, this`state_just_in_time, this`since_last_step, this`target, this`last_stamp
      ensures DelayNow() == Grown(SettingsNow(), len, old(DelayNow()))
    {
      if state_late > dropable_threshold {
        if since_last_step < 10 {
          if target < max_length - 2 {
            Step(len, 3);
          }
        } else {
          if target < max_length {
            Step(len, 1);
          }
        }
      } else if since_last_step > 500 && state_just_in_time < dropable_threshold {
        if target > min_length {
          Step(len, -1);
        }
      }
    }

    /** Grows the target by k frames, or shrinks it. */
    method Step(len: int, k: int)
      modifies this`latest_expected, this`state_late, this`state_just_in_time, this`since_last_step, this`target, this`last_stamp
      ensures DelayNow() == old(DelayNow()).(target := old(target) + k * len, latest_expected := old(latest_expected) + k * len,
        state_just_in_time := dropable_threshold, state_late := 0, since_last_step := 0, last_stamp := old(last_stamp) - k * last_len)
    {
      target := target + k * len;
      latest_expected := latest_expected + k * len;
      state_just_in_time := dropable_threshold;
      state_late := 0;
      since_last_step := 0;
      last_stamp := last_stamp - k * last_len;
    }

    /** playout_get */
    method Get() returns (result: Result, frameout: FrameData)
      requires Valid()
      modifies this, Queue`earlier, Queue`later
      ensures Valid() && Abs() == PlayoutSpec.Get(old(Abs())) && result == ResultOf(old(Abs()))
      ensures result != Fillin ==> old(Queue) != [] && frameout == old(Abs()).queue[0]
      ensures result == Fillin ==> Queue == old(Queue) && Free == old(Free)
      ensures result != Fillin ==> Queue == old(Queue)[1..] && Free == [old(Queue)[0]] + old(Free)
    {
      hide *;
      ghost var s0 := Abs();
      var due;
      due, frameout := Advance();
      if !due {
        Missed(s0);
        result := Fillin;
      } else {
        result := AdaptAndDeliver(frameout, s0);
      }
    }

    /** Moves on by one frame and takes the first frame off if it is due. */
    method Advance() returns (due: bool, f: FrameData)
      requires Valid()
      modifies this`last_stamp, this`first_frame, this`last_frame, this`free_frames, this`Queue, this`Free, Queue`earlier, Queue`later
      ensures Valid()
      ensures var s := old(Abs()); var t := s.(delay := s.delay.(last_stamp := s.delay.last_stamp + s.last_len));
        && due == (s.queue != [] && t.delay.last_stamp >= s.queue[0].stamp)
        && Abs() == (if due then t.(queue := s.queue[1..]) else t) && (due ==> f == s.queue[0])
      ensures !due ==> Queue == old(Queue) && Free == old(Free)
      ensures due ==> old(Queue) != [] && Free == [old(Queue)[0]] + old(Free) && Queue == old(Queue)[1..]
    {
      hide *;
      MoveOn();
      DelayIs();
      due, f := PopDue(last_stamp);
    }

    method MoveOn()
      modifies this`last_stamp
      ensures last_stamp == old(last_stamp) + last_len
      ensures Abs() == old(Abs()).(delay := old(Abs()).delay.(last_stamp := last_stamp))
      ensures Abs().delay.last_stamp == last_stamp && old(Abs()).last_len == last_len && old(Abs()).delay.last_stamp == old(last_stamp)
    {
      hide DataOf;
      last_stamp := last_stamp + last_len;
    }

    /** Counts a frame that was not there in time. */
    method Missed(ghost s0: State)
      requires s0.queue == [] || s0.delay.last_stamp + s0.last_len < s0.queue[0].stamp
      requires Abs() == s0.(delay := s0.delay.(last_stamp := s0.delay.last_stamp + s0.last_len))
      modifies this`frames_missing
      ensures Abs() == PlayoutSpec.Get(s0) && ResultOf(s0) == Fillin
    {
      hide *;
      AbsIs();
      frames_missing := frames_missing + 1;
      DelayIs();
      AbsIs();
      GetEarly(s0);
    }

    /** The rest of playout_get, once a frame is off the queue. */
    method AdaptAndDeliver(f: FrameData, ghost s0: State) returns (result: Result)
      requires s0.queue != [] && f == s0.queue[0]
      requires s0.delay.last_stamp + s0.last_len >= f.stamp
      requires Abs() == s0.(queue := s0.queue[1..], delay := s0.delay.(last_stamp := s0.delay.last_stamp + s0.last_len))
      modifies this`not_first, this`latest_expected, this`state_late, this`state_just_in_time, this`since_last_step, this`target
      modifies this`last_stamp, this`last_len, this`frames_out, this`frames_late, this`frames_missing
      ensures Abs() == PlayoutSpec.Get(s0) && result == ResultOf(s0) != Fillin
    {
      hide *;
      AbsIs();
      SameSettings(s0, s0.queue[1..], DelayNow());
      Adjust(f);
      AbsIs();
      result := Finish(f, s0, DelayNow());
    }

    method Finish(f: FrameData, ghost s0: State, ghost d: Delay) returns (result: Result)
      requires s0.queue != [] && f == s0.queue[0] && s0.delay.last_stamp + s0.last_len >= f.stamp
      requires Abs() == s0.(queue := s0.queue[1..], delay := d)
      requires d == var d0 := s0.delay.(last_stamp := s0.delay.last_stamp + s0.last_len);
        if s0.dynamic && f.kind == SPEECH then Adapt(SettingsOf(s0), f, d0) else d0
      modifies this`last_stamp, this`last_len, this`frames_out, this`frames_late, this`frames_missing
      ensures Abs() == PlayoutSpec.Get(s0) && result == ResultOf(s0) != Fillin
    {
      hide *;
      AbsIs();
      result := Deliver(f);
      AbsIs();
      GetDue(s0, d, result, last_len);
    }

    /** Adapts to a speech frame, if the buffer is dynamic. */
    method Adjust(f: FrameData)
      modifies this`not_first, this`latest_expected, this`state_late, this`state_just_in_time, this`since_last_step, this`target, this`last_stamp
      ensures DelayNow() == if dynamic && f.kind == SPEECH then Adapt(old(SettingsNow()), f, old(DelayNow())) else old(DelayNow())
    {
      hide Adapt;
      if dynamic && f.kind == SPEECH {
        AdaptDelay(f);
      }
    }

    lemma AbsIs()
      ensures Abs() == State(dynamic, min_length, max_length, dropable_threshold, start, DataOf(Queue),
        frames_in, frames_out, frames_oos, frames_late, frames_missing, last_len, DelayNow())
      ensures SettingsOf(Abs()) == SettingsNow() && |DataOf(Queue)| == |Queue|
      ensures DelayNow() == Delay(not_first, latest_expected, state_late, state_just_in_time, since_last_step, target, last_stamp)
    {
      hide DataOf;
    }

    lemma DelayIs()
      ensures DelayNow() == Delay(not_first, latest_expected, state_late, state_just_in_time, since_last_step, target, last_stamp)
      ensures SettingsNow() == Settings(min_length, max_length, dropable_threshold, last_len)
    {
    }

    /** Takes the first frame off the queue if it is due, copies it and frees it. */
    method PopDue(sender_stamp: int) returns (due: bool, f: FrameData)
      requires Valid()
      modifies this`first_frame, this`last_frame, this`free_frames, this`Queue, this`Free, Queue`earlier, Queue`later
      ensures Valid()
      ensures due <==> old(Abs()).queue != [] && sender_stamp >= old(Abs()).queue[0].stamp
      ensures due ==> f == old(Abs()).queue[0] && Abs() == old(Abs()).(queue := old(Abs()).queue[1..])
      ensures !due ==> Queue == old(Queue) && Free == old(Free) && Abs() == old(Abs())
      ensures due ==> old(Queue) != [] && Free == [old(Queue)[0]] + old(Free) && Queue == old(Queue)[1..]
    {
      hide *;
      f := FrameData(0, 0, 0, 0, 0);
      var frame := PopFirst(sender_stamp);
      due := frame != null;
      if frame != null {
        f := FrameData(frame.data, frame.kind, frame.len, frame.stamp, frame.received);
      }
    }

    /** Moves the first frame to the free list if it is due. */
    method PopFirst(sender_stamp: int) returns (frame: Frame?)
      requires Valid()
      modifies this`first_frame, this`last_frame, this`free_frames, this`Queue, this`Free, Queue`earlier, Queue`later
      ensures Valid()
      ensures frame != null <==> old(Abs()).queue != [] && sender_stamp >= old(Abs()).queue[0].stamp
      ensures frame == null ==> Queue == old(Queue) && Free == old(Free) && Abs() == old(Abs())
      ensures frame != null ==> old(Queue) != [] && frame == old(Queue)[0] && Free == [frame] + old(Free) && Queue == old(Queue)[1..]
      ensures frame != null ==> Abs() == old(Abs()).(queue := old(Abs()).queue[1..])
      ensures frame != null ==>
        FrameData(frame.data, frame.kind, frame.len, frame.stamp, frame.received) == old(Abs()).queue[0]
    {
      hide *;
      AbsAround();
      ghost var d := DataOf(Queue);
      frame := QueueGet(sender_stamp);
      if frame != null {
        assert frame == old(Queue)[0] && Queue == old(Queue)[1..];
        Release(frame);
        Requeued(d, d[1..]);
      }
      AbsAround();
    }

    /** The state around a queue. */
    ghost function Around(q: seq<FrameData>): State
      reads this`dynamic, this`min_length, this`max_length, this`dropable_threshold, this`start, this`frames_in, this`frames_out
      reads this`frames_oos, this`frames_late, this`frames_missing, this`last_len, this`not_first, this`latest_expected
      reads this`state_late, this`state_just_in_time, this`since_last_step, this`target, this`last_stamp
    {
      State(dynamic, min_length, max_length, dropable_threshold, start, q, frames_in, frames_out, frames_oos, frames_late,
            frames_missing, last_len, Delay(not_first, latest_expected, state_late, state_just_in_time, since_last_step, target, last_stamp))
    }

    lemma AbsAround()
      ensures Abs() == Around(DataOf(Queue)) && Abs().queue == DataOf(Queue) && |DataOf(Queue)| == |Queue|
      ensures Queue != [] ==> DataOf(Queue)[0] == FrameData(Queue[0].data, Queue[0].kind, Queue[0].len, Queue[0].stamp, Queue[0].received)
    {
      hide DataOf;
    }

    lemma Requeued(q: seq<FrameData>, q': seq<FrameData>)
      ensures Around(q') == Around(q).(queue := q')
    {
    }

    /** Counts a frame that came off the queue. */
    method Deliver(f: FrameData) returns (result: Result)
      modifies this`last_stamp, this`last_len, this`frames_out, this`frames_late, this`frames_missing
      ensures frames_out == old(frames_out) + 1
      ensures result == if f.kind == SPEECH && f.stamp < old(last_stamp) then Drop else Ok
      ensures last_stamp == if result == Drop || f.kind != SPEECH then old(last_stamp) - old(last_len) else old(last_stamp)
      ensures last_len == if result == Ok && f.kind == SPEECH && f.len > 0 then f.len else old(last_len)
      ensures frames_late == old(frames_late) + (if result == Drop then 1 else 0)
      ensures frames_missing == old(frames_missing) - (if result == Drop then 1 else 0)
    {
      if f.kind != SPEECH {
        last_stamp := last_stamp - last_len;
        frames_out := frames_out + 1;
        return Ok;
      }
      if f.stamp < last_stamp {
        last_stamp := last_stamp - last_len;
        frames_out := frames_out + 1;
        frames_late := frames_late + 1;
        frames_missing := frames_missing - 1;
        return Drop;
      }
      if f.len > 0 {
        last_len := f.len;
      }
      frames_out := frames_out + 1;
      return Ok;
    }

    /** playout_get_unconditional */
    method GetUnconditional() returns (frame: Frame?)
      requires Valid()
      modifies this`first_frame, this`last_frame, this`free_frames, this`Queue, this`Free, Queue`earlier, Queue`later
      ensures Valid() && Abs() == Take(old(Abs()))
      ensures frame != null <==> Takes(old(Abs()))
      ensures frame != null ==> frame == old(Queue)[0] && Free == [frame] + old(Free) && Queue == old(Queue)[1..]
      ensures frame == null ==> Queue == old(Queue) && Free == old(Free)
    {
      hide *;
      TakeIs(Abs());
      frame := PopFirst(0x7FFFFFFF);
    }

    // ------------------------------------------------------------- putting

    /** A frame from the free list, or a new one. */
    method Acquire() returns (frame: Frame)
      requires Valid()
      modifies this`free_frames, this`Free
      ensures Valid() && Queue == old(Queue) && frame !in Queue + Free
      ensures if old(Free) == [] then fresh(frame) && Free == [] else old(Free) == [frame] + Free
    {
      if free_frames != null {
        frame := free_frames;
        Acquired(Queue, Free);
        ghost var r := Free;
        free_frames := frame.later;
        Free := Free[1..];
        assert Chained(Free) by {
          forall i | 0 <= i < |Free|
            ensures Free[i].later == At(Free, i + 1)
          {
            assert Free[i] == r[i + 1];
          }
        }
      } else {
        frame := new Frame();
      }
    }

    lemma Acquired(q: seq<Frame>, r: seq<Frame>)
      requires r != [] && AllDistinct(q + r)
      ensures AllDistinct(q + r[1..]) && r[0] !in q + r[1..] && r == [r[0]] + r[1..]
    {
      var s, t := q + r, q + r[1..];
      forall i, j | 0 <= i < j < |t|
        ensures t[i] != t[j]
      {
        assert t[i] == if i < |q| then s[i] else s[i + 1];
        assert t[j] == if j < |q| then s[j] else s[j + 1];
      }
      forall i | 0 <= i < |t|
        ensures t[i] != r[0]
      {
        assert t[i] == (if i < |q| then s[i] else s[i + 1]) && r[0] == s[|q|];
      }
    }

    /** Links a frame in before place k. */
    method Link(frame: Frame, p: Frame?, ghost k: nat)
      requires Valid() && frame !in Queue + Free && k <= |Queue| && p == At(Queue, k - 1)
      modifies this`first_frame, this`last_frame, this`Queue, Queue`earlier, Queue`later, frame`earlier, frame`later
      ensures Valid() && Queue == old(Queue[..k]) + [frame] + old(Queue[k..]) && Free == old(Free)
    {
      hide Laters, Earliers, LatersAround, EarliersAround, AllDistinct;
      ghost var q := Queue;
      OnlyOne(q, Free, frame);
      LinkFields(frame, p, k);
      LinkedIn(q, Free, frame, k);
      LinksIn(q, frame, k);
      Queue := Queue[..k] + [frame] + Queue[k..];
    }

    method LinkFields(frame: Frame, p: Frame?, ghost k: nat)
      requires first_frame == At(Queue, 0) && last_frame == At(Queue, |Queue| - 1) && Linked(Queue) && AllDistinct(Queue)
      requires frame !in Queue && k <= |Queue| && p == At(Queue, k - 1)
      modifies this`first_frame, this`last_frame, Queue`earlier, Queue`later, frame`earlier, frame`later
      ensures LatersAround(Queue, frame, k) && EarliersAround(Queue, frame, k)
      ensures first_frame == (if k == 0 then frame else At(Queue, 0))
      ensures last_frame == (if k == |Queue| then frame else At(Queue, |Queue| - 1))
    {
      hide Laters, Earliers, LatersAround, EarliersAround, AllDistinct;
      LinkLater(frame, p, k);
      LinkEarlier(frame, k);
    }

    method LinkLater(frame: Frame, p: Frame?, ghost k: nat)
      requires first_frame == At(Queue, 0) && Laters(Queue) && AllDistinct(Queue)
      requires frame !in Queue && k <= |Queue| && p == At(Queue, k - 1)
      modifies this`first_frame, Queue`later, frame`earlier, frame`later
      ensures LatersAround(Queue, frame, k) && frame.earlier == At(Queue, k - 1) && frame.later == At(Queue, k)
      ensures first_frame == (if k == 0 then frame else At(Queue, 0))
    {
      frame.earlier := p;
      if p != null {
        frame.later := p.later;
        p.later := frame;
      } else {
        frame.later := first_frame;
        first_frame := frame;
      }
    }

    method LinkEarlier(frame: Frame, ghost k: nat)
      requires last_frame == At(Queue, |Queue| - 1) && AllDistinct(Queue) && frame !in Queue && k <= |Queue|
      requires frame.later == At(Queue, k) && frame.earlier == At(Queue, k - 1) && Earliers(Queue)
      modifies this`last_frame, Queue`earlier
      ensures EarliersAround(Queue, frame, k)
      ensures last_frame == (if k == |Queue| then frame else At(Queue, |Queue| - 1))
    {
      if frame.later != null {
        frame.later.earlier := frame;
      } else {
        last_frame := frame;
      }
    }

    /** The links once frame f is in before place k of q. */
    ghost predicate LatersAround(q: seq<Frame>, f: Frame, k: nat)
      reads q`later, f`later
    {
      f.later == At(q, k) && forall i :: 0 <= i < |q| ==> q[i].later == if i == k - 1 then f else At(q, i + 1)
    }

    ghost predicate EarliersAround(q: seq<Frame>, f: Frame, k: nat)
      reads q`earlier, f`earlier
    {
      f.earlier == At(q, k - 1) && forall i :: 0 <= i < |q| ==> q[i].earlier == if i == k then f else At(q, i - 1)
    }

    lemma LinksIn(q: seq<Frame>, f: Frame, k: nat)
      requires LatersAround(q, f, k) && EarliersAround(q, f, k) && k <= |q|
      ensures Linked(q[..k] + [f] + q[k..])
      ensures At(q[..k] + [f] + q[k..], 0) == if k == 0 then f else At(q, 0)
      ensures At(q[..k] + [f] + q[k..], |q|) == if k == |q| then f else At(q, |q| - 1)
    {
      var t := q[..k] + [f] + q[k..];
      forall i | 0 <= i < |t|
        ensures t[i].later == At(t, i + 1) && t[i].earlier == At(t, i - 1)
      {
        if i < k {
          assert t[i] == q[i];
        } else if i > k {
          assert t[i] == q[i - 1];
        }
      }
    }

    lemma OnlyOne(q: seq<Frame>, r: seq<Frame>, f: Frame)
      requires AllDistinct(q + r) && f !in q + r
      ensures AllDistinct(q) && f !in q && f !in r
      ensures forall i :: 0 <= i < |r| ==> r[i] !in q
    {
      var s := q + r;
      assert forall i :: 0 <= i < |q| ==> q[i] == s[i];
      assert forall i :: 0 <= i < |r| ==> r[i] == s[|q| + i];
    }

    /** The scan from the back for the place of a frame out of sequence. */
    method FindPlace(sender_stamp: int) returns (p: Frame?, ghost k: nat)
      requires Valid() && Queue != [] && sender_stamp < Queue[|Queue| - 1].stamp
      ensures k == Place(DataOf(Queue), sender_stamp) && p == At(Queue, k - 1)
    {
      hide *;
      ghost var q := DataOf(Queue);
      ghost var i: nat := |Queue| - 1;
      LinkAt(i);
      PlaceIs(q, sender_stamp);
      p := last_frame;
      while sender_stamp < p.stamp && p.earlier != null
        invariant i < |Queue| && p == Queue[i] && p.earlier == (if i == 0 then null else Queue[i - 1])
        invariant ScanStop(q, sender_stamp, |q| - 1) == ScanStop(q, sender_stamp, i)
        decreases i
      {
        LinkAt(i);
        LinkAt(i - 1);
        ScanOn(q, sender_stamp, i);
        p := p.earlier;
        i := i - 1;
      }
      LinkAt(i);
      ScanOn(q, sender_stamp, i);
      k := if i > 0 then i + 1 else 0;
      if p.earlier == null {
        p := null;
      }
      AtIs(Queue, k - 1);
    }

    lemma LinkAt(i: nat)
      requires Valid() && i < |Queue|
      ensures |DataOf(Queue)| == |Queue| && DataOf(Queue)[i].stamp == Queue[i].stamp && last_frame == Queue[|Queue| - 1]
      ensures Queue[i].earlier == if i == 0 then null else Queue[i - 1]
    {
      hide DataOf, AllDistinct, Chained;
    }

    /** playout_put */
    method Put(data: int, kind: int, len: int, sender_stamp: int, receiver_stamp: int)
      requires Valid()
      modifies this, Queue`earlier, Queue`later, Free
      ensures Valid() && Abs() == PlayoutSpec.Put(old(Abs()), FrameData(data, kind, len, sender_stamp, receiver_stamp))
      ensures if old(Free) == [] then Free == [] else Free == old(Free)[1..]
      ensures forall f :: f in Queue ==> f in old(Queue) || f in old(Free) || fresh(f)
    {
      hide *;
      ghost var s0 := Abs();
      Admit(data, kind, len, sender_stamp, receiver_stamp);
      CountPut(FrameData(data, kind, len, sender_stamp, receiver_stamp), s0);
    }

    /** Counts a frame put; the first speech frame sets the clock. */
    method CountPut(f: FrameData, ghost s0: State)
      requires Abs() == s0.(queue := Inserted(s0.queue, Place(s0.queue, f.stamp), f), frames_oos := frames_oos)
      requires frames_oos == s0.frames_oos + if s0.queue != [] && f.stamp < s0.queue[|s0.queue| - 1].stamp then 1 else 0
      modifies this`frames_in, this`last_stamp, this`last_len, this`start
      ensures Abs() == PlayoutSpec.Put(s0, f)
    {
      hide *;
      CountIn();
      Begin(f);
      PutIs(s0, f);
    }

    method CountIn()
      modifies this`frames_in
      ensures Abs() == old(Abs()).(frames_in := old(Abs()).frames_in + 1)
    {
      hide DataOf;
      frames_in := frames_in + 1;
    }

    method Begin(f: FrameData)
      modifies this`last_stamp, this`last_len, this`start
      ensures Abs() == Begun(old(Abs()), f)
    {
      hide DataOf;
      if start && f.kind == SPEECH {
        last_stamp := f.stamp - f.len - min_length;
        last_len := f.len;
        start := false;
      }
    }

    /** Fills a frame and queues it. */
    method Admit(data: int, kind: int, len: int, sender_stamp: int, receiver_stamp: int)
      requires Valid()
      modifies this`first_frame, this`last_frame, this`Queue, this`free_frames, this`Free, this`frames_oos, Queue`earlier, Queue`later, Free
      ensures Valid() && if old(Free) == [] then Free == [] else Free == old(Free)[1..]
      ensures var s, f := old(Abs()), FrameData(data, kind, len, sender_stamp, receiver_stamp);
        && Abs() == s.(queue := Inserted(s.queue, Place(s.queue, sender_stamp), f), frames_oos := frames_oos)
        && frames_oos == s.frames_oos + if s.queue != [] && sender_stamp < s.queue[|s.queue| - 1].stamp then 1 else 0
      ensures forall f :: f in Queue ==> f in old(Queue) || f in old(Free) || fresh(f)
    {
      hide *;
      AbsIs();
      AdmitFrame(data, kind, len, sender_stamp, receiver_stamp);
      AbsIs();
    }

    method AdmitFrame(data: int, kind: int, len: int, sender_stamp: int, receiver_stamp: int)
      requires Valid()
      modifies this`first_frame, this`last_frame, this`Queue, this`free_frames, this`Free, this`frames_oos, Queue`earlier, Queue`later, Free
      ensures Valid() && if old(Free) == [] then Free == [] else Free == old(Free)[1..]
      ensures var d, f := old(DataOf(Queue)), FrameData(data, kind, len, sender_stamp, receiver_stamp);
        && DataOf(Queue) == Inserted(d, Place(d, sender_stamp), f)
        && frames_oos == old(frames_oos) + if d != [] && sender_stamp < d[|d| - 1].stamp then 1 else 0
      ensures forall f :: f in Queue ==> f in old(Queue) || f in old(Free) || fresh(f)
    {
      hide *;
      ghost var d := DataOf(Queue);
      var frame := Acquire();
      assert old(Free) != [] ==> frame == old(Free)[0];
      Fill(frame, data, kind, len, sender_stamp, receiver_stamp);
      assert DataOf(Queue) == d;
      Enqueue(frame);
    }

    method Fill(frame: Frame, data: int, kind: int, len: int, sender_stamp: int, receiver_stamp: int)
      modifies frame`data, frame`kind, frame`len, frame`stamp, frame`received
      ensures frame.Data() == FrameData(data, kind, len, sender_stamp, receiver_stamp) && frame.stamp == sender_stamp
    {
      frame.data := data;
      frame.kind := kind;
      frame.stamp := sender_stamp;
      frame.len := len;
      frame.received := receiver_stamp;
    }

    /** Queues a frame: at the end if it is no earlier than the last, else where
        the scan says. */
    method Enqueue(frame: Frame)
      requires Valid() && frame !in Queue + Free
      modifies this`first_frame, this`last_frame, this`Queue, this`frames_oos, Queue`earlier, Queue`later, frame`earlier, frame`later
      ensures Valid() && Free == old(Free)
      ensures var d := old(DataOf(Queue));
        && DataOf(Queue) == Inserted(d, Place(d, frame.stamp), frame.Data())
        && frames_oos == old(frames_oos) + if d != [] && frame.stamp < d[|d| - 1].stamp then 1 else 0
      ensures forall f :: f in Queue ==> f in old(Queue) || f == frame
    {
      hide *;
      Ends();
      ghost var q, d := Queue, DataOf(Queue);
      PlaceLast(d, frame.stamp);
      AtIs(q, |q| - 1);
      ghost var k: nat := |Queue|;
      if last_frame == null {
        Link(frame, null, k);
      } else if frame.stamp >= last_frame.stamp {
        Link(frame, last_frame, k);
      } else {
        frames_oos := frames_oos + 1;
        var p;
        p, k := FindPlace(frame.stamp);
        Link(frame, p, k);
      }
      InsertedData(q, d, frame, k);
      assert Queue == q[..k] + [frame] + q[k..];
    }

    lemma Ends()
      requires Valid()
      ensures last_frame == At(Queue, |Queue| - 1)
      ensures |DataOf(Queue)| == |Queue| && (Queue != [] ==> DataOf(Queue)[|Queue| - 1].stamp == Queue[|Queue| - 1].stamp)
    {
    }

    lemma LinkedIn(q: seq<Frame>, r: seq<Frame>, f: Frame, k: nat)
      requires AllDistinct(q + r) && f !in q + r && k <= |q|
      ensures AllDistinct(q[..k] + [f] + q[k..] + r)
    {
      var s, t := q + r, q[..k] + [f] + q[k..] + r;
      forall i, j | 0 <= i < j < |t|
        ensures t[i] != t[j]
      {
        assert t[i] == if i < k then s[i] else if i == k then f else s[i - 1];
        assert t[j] == if j < k then s[j] else if j == k then f else s[j - 1];
      }
    }
    lemma Unlinked(q: seq<Frame>, r: seq<Frame>)
      requires q != [] && AllDistinct(q + r)
      ensures AllDistinct(q[1..] + r) && q[0] !in q[1..] + r && q == [q[0]] + q[1..]
      ensures forall k :: 0 <= k < |r| ==> r[k] !in q
    {
      forall i, j | 0 <= i < j < |q[1..] + r|
        ensures (q[1..] + r)[i] != (q[1..] + r)[j]
      {
        assert (q[1..] + r)[i] == (q + r)[i + 1] && (q[1..] + r)[j] == (q + r)[j + 1];
      }
      forall i | 0 <= i < |q[1..] + r|
        ensures (q[1..] + r)[i] != q[0]
      {
        assert (q[1..] + r)[i] == (q + r)[i + 1] && q[0] == (q + r)[0];
      }
      forall k, i | 0 <= k < |r| && 0 <= i < |q|
        ensures r[k] != q[i]
      {
        assert r[k] == (q + r)[|q| + k] && q[i] == (q + r)[i];
      }
    }
  }

  /** No frame in s that was not there or is not new. */
  twostate predicate Owns(s: PlayoutState)
    reads s
  {
    && (forall f :: f in s.Queue ==> f in old(s.Queue) || f in old(s.Free) || fresh(f))
    && (forall f :: f in s.Free ==> f in old(s.Queue) || f in old(s.Free) || fresh(f))
  }

  /** Replays calls on a buffer, in any order: its state is that of the state
      machine after the same calls, and it hands out the same frames. */
  method Replay(s: PlayoutState, ops: seq<Op>) returns (outputs: seq<FrameData>)
    requires s.Valid()
    modifies s, s.Queue, s.Free
    ensures s.Valid() && s.Abs() == Run(old(s.Abs()), ops) && outputs == Outputs(old(s.Abs()), ops)
    ensures Owns(s)
  {
    hide PlayoutState.Abs, PlayoutState.Valid, PlayoutSpec.Get, PlayoutSpec.Put, Take;
    ghost var s0 := s.Abs();
    outputs := [];
    assert ops[..0] == [];
    for k := 0 to |ops|
      invariant s.Valid() && s.Abs() == Run(s0, ops[..k]) && outputs == Outputs(s0, ops[..k])
      invariant Owns(s)
    {
      assert ops[..k + 1][..k] == ops[..k];
      assert forall i :: 0 <= i < |s.Queue| ==> s.Queue[i] in old(s.Queue) || s.Queue[i] in old(s.Free) || fresh(s.Queue[i]);
      assert forall i :: 0 <= i < |s.Free| ==> s.Free[i] in old(s.Queue) || s.Free[i] in old(s.Free) || fresh(s.Free[i]);
      var more := Call(s, ops[k]);
      outputs := outputs + more;
    }
    assert ops[..|ops|] == ops;
  }

  /** One call. */
  method Call(s: PlayoutState, op: Op) returns (outputs: seq<FrameData>)
    requires s.Valid()
    modifies s, s.Queue, s.Free
    ensures s.Valid() && s.Abs() == Step(old(s.Abs()), op) && outputs == Delivered(old(s.Abs()), op)
    ensures Owns(s)
  {
    match op
    case PutOp(f) => outputs := CallPut(s, f);
    case GetOp => outputs := CallGet(s);
    case TakeOp => outputs := CallTake(s);
  }

  method CallPut(s: PlayoutState, f: FrameData) returns (outputs: seq<FrameData>)
    requires s.Valid()
    modifies s, s.Queue, s.Free
    ensures s.Valid() && s.Abs() == Step(old(s.Abs()), PutOp(f)) && outputs == Delivered(old(s.Abs()), PutOp(f))
    ensures Owns(s)
  {
    hide PlayoutState.Abs, PlayoutState.Valid, PlayoutSpec.Put;
    s.Put(f.data, f.kind, f.len, f.stamp, f.received);
    outputs := [];
  }

  method CallGet(s: PlayoutState) returns (outputs: seq<FrameData>)
    requires s.Valid()
    modifies s, s.Queue, s.Free
    ensures s.Valid() && s.Abs() == Step(old(s.Abs()), GetOp) && outputs == Delivered(old(s.Abs()), GetOp)
    ensures Owns(s)
  {
    hide *;
    GetDelivers(s.Abs());
    var result, frame := s.Get();
    outputs := if result == Fillin then [] else [frame];
    Moved(s);
  }

  /** What a get does to the two lists. */
  twostate lemma Moved(s: PlayoutState)
    requires (s.Queue == old(s.Queue) && s.Free == old(s.Free))
          || (old(s.Queue) != [] && s.Queue == old(s.Queue)[1..] && s.Free == [old(s.Queue)[0]] + old(s.Free))
    ensures Owns(s)
  {
  }

  lemma GetDelivers(s: State)
    ensures PlayoutSpec.Step(s, GetOp) == PlayoutSpec.Get(s)
    ensures Delivered(s, GetOp) == if ResultOf(s) == Fillin then [] else [s.queue[0]]
  {
  }

  method CallTake(s: PlayoutState) returns (outputs: seq<FrameData>)
    requires s.Valid()
    modifies s, s.Queue, s.Free
    ensures s.Valid() && s.Abs() == Step(old(s.Abs()), TakeOp) && outputs == Delivered(old(s.Abs()), TakeOp)
    ensures Owns(s)
  {
    FirstData(s);
    hide PlayoutState.Abs, PlayoutState.Valid, Take, Takes;
    var frame := s.GetUnconditional();
    outputs := if frame == null then [] else [frame.Data()];
  }

  lemma FirstData(s: PlayoutState)
    requires s.Valid()
    ensures s.Queue != [] ==> s.Abs().queue != [] && s.Abs().queue[0] == s.Queue[0].Data()
    ensures Takes(s.Abs()) ==> s.Queue != []
  {
  }
}
