/** No field the coder uses is cut: each is as wide as the table its value
    indexes, the pitch as wide as the range of lags. */
module FieldRange {
  import opened IntArith
  import opened BitSeqs
  import opened Bits
  import opened Fields
  import opened Framing
  import opened Packets
  import opened Wideband
  import opened WbDecoder

  /** How many values a field of submode m has: lags from 17 to 144, LSP
      codebooks of 64 entries, 32 or 128 sets of pitch gains, 2 or 8 subframe
      gains, and the codewords of exc_10_16_table and so on. */
  function NbValues(m: int, x: Field): nat {
    match x
    case Lsp(_) => 64
    case OpenPitch => 144 - 17 + 1
    case ForcedGain => 16
    case Gain => 32
    case Extra => 16
    case Pitch(_) => if m == 2 then 1 else 144 - 17 + 1
    case PitchGain(_) => if m <= 4 then 32 else 128
    case SubGain(_) => if m <= 4 then 2 else 8
    case Shape(_, _, _) =>
      if m == 2 then 16
      else if m == 3 || m == 8 then 32
      else if m == 4 then 128
      else if m == 6 then 256
      else 64
    case _ => 0
  }

  /** The same for a wideband layer; the sign of a codeword counts. */
  function WbValues(s: int, x: Field): nat {
    match x
    case Lsp(_) => 64
    case Fold(_) => 32
    case HighGain(_) => 16
    case Shape(_, _, _) => if s == 2 then 32 else 2 * 128
    case _ => 0
  }

  /** Every field has room for exactly its values. */
  ghost predicate Roomy(slots: seq<Slot>, values: Field -> nat) {
    forall i :: 0 <= i < |slots| ==> Pow2(slots[i].width) == values(slots[i].field)
  }

  lemma RoomyBoth(a: seq<Slot>, b: seq<Slot>, values: Field -> nat)
    requires Roomy(a, values) && Roomy(b, values)
    ensures Roomy(a + b, values)
  {
    hide Pow2;
  }

  function NbRoom(m: int): Field -> nat {
    x => NbValues(m, x)
  }

  function WbRoom(s: int): Field -> nat {
    x => WbValues(s, x)
  }

  lemma Powers()
    ensures Pow2(0) == 1 && Pow2(1) == 2 && Pow2(3) == 8 && Pow2(4) == 16 && Pow2(5) == 32 && Pow2(6) == 64 && Pow2(7) == 128 && Pow2(8) == 256
  {
    assert Pow2(2) == 4;
  }

  lemma {:induction false} LspRoom(n: nat, values: Field -> nat)
    requires forall k :: values(Lsp(k)) == 64
    ensures Roomy(LspSlots(n), values)
  {
    if n > 0 {
      Powers();
      LspRoom(n - 1, values);
      hide Pow2;
    }
  }

  lemma {:induction false} ShapeRoom(c: Submode, sub: nat, book: nat, n: nat, values: Field -> nat)
    requires forall k :: values(Shape(sub, book, k)) == Pow2(c.shapeBits + if c.sign then 1 else 0)
    ensures Roomy(ShapeSlots(c, sub, book, n), values)
  {
    hide Pow2;
    if n > 0 {
      ShapeRoom(c, sub, book, n - 1, values);
    }
  }

  lemma InnovationRoom(c: Submode, sub: nat, values: Field -> nat)
    requires c.vectors > 0 ==> forall book, k :: values(Shape(sub, book, k)) == Pow2(c.shapeBits + if c.sign then 1 else 0)
    ensures Roomy(InnovationSlots(c, sub), values)
  {
    hide Pow2;
    if c.vectors > 0 {
      ShapeRoom(c, sub, 0, c.vectors, values);
      ShapeRoom(c, sub, 1, c.vectors, values);
      hide ShapeSlots;
    }
  }

  lemma NbSubframeRoom(m: int, sub: nat)
    requires 1 <= m <= 8
    ensures Roomy(NbSubframe(NbSubmode(m), sub), NbRoom(m))
  {
    Powers();
    InnovationRoom(NbSubmode(m), sub, NbRoom(m));
    hide Pow2, InnovationSlots;
  }

  lemma {:induction false} NbSubframesRoom(m: int, n: nat)
    requires 1 <= m <= 8
    ensures Roomy(NbSubframes(NbSubmode(m), n), NbRoom(m))
  {
    hide Roomy, NbSubframe, NbSubmode, NbRoom;
    if n > 0 {
      NbSubframesRoom(m, n - 1);
      NbSubframeRoom(m, n - 1);
      RoomyBoth(NbSubframes(NbSubmode(m), n - 1), NbSubframe(NbSubmode(m), n - 1), NbRoom(m));
    } else {
      NoSlots(NbRoom(m));
    }
  }

  lemma NoSlots(values: Field -> nat)
    ensures Roomy([], values)
  {
  }

  lemma NbHeadRoom(m: int)
    requires 1 <= m <= 8
    ensures Roomy(NbHead(NbSubmode(m)), NbRoom(m)) && Roomy([Slot(Extra, 4)], NbRoom(m))
  {
    Powers();
    LspRoom(NbSubmode(m).lspStages, NbRoom(m));
    hide Pow2, LspSlots;
  }

  /** Every field of a narrowband frame has room for exactly the values it can
      take. */
  lemma NbRoomy(m: int)
    requires 0 <= m <= 8
    ensures Roomy(NbEncoded(m), NbRoom(m))
  {
    hide Roomy, NbHead, NbSubframes, NbSubmode, NbRoom;
    NoSlots(NbRoom(m));
    if m > 0 {
      NbHeadRoom(m);
      NbSubframesRoom(m, 4);
      RoomyBoth(NbHead(NbSubmode(m)), NbSubframes(NbSubmode(m), 4), NbRoom(m));
      RoomyBoth(NbHead(NbSubmode(m)) + NbSubframes(NbSubmode(m), 4), if m == 1 then [Slot(Extra, 4)] else [], NbRoom(m));
    }
  }

  lemma WbSubframeRoom(s: int, sub: nat)
    requires 1 <= s <= 4
    ensures Roomy(WbSubframe(WbSubmode(s), sub), WbRoom(s))
  {
    Powers();
    InnovationRoom(WbSubmode(s), sub, WbRoom(s));
    hide Pow2, InnovationSlots;
  }

  lemma {:induction false} WbSubframesRoom(s: int, n: nat)
    requires 1 <= s <= 4
    ensures Roomy(WbSubframes(WbSubmode(s), n), WbRoom(s))
  {
    hide Roomy, WbSubframe, WbSubmode, WbRoom;
    if n > 0 {
      WbSubframesRoom(s, n - 1);
      WbSubframeRoom(s, n - 1);
      RoomyBoth(WbSubframes(WbSubmode(s), n - 1), WbSubframe(WbSubmode(s), n - 1), WbRoom(s));
    } else {
      NoSlots(WbRoom(s));
    }
  }

  /** And every field of a wideband layer. */
  lemma WbRoomy(s: int)
    ensures Roomy(WbCoded(s), WbRoom(s))
  {
    NoSlots(WbRoom(s));
    if 1 <= s <= 4 {
      LspRoom(2, WbRoom(s));
      WbSubframesRoom(s, 4);
      hide Roomy, WbSubframes, WbRoom, LspSlots;
      RoomyBoth(LspSlots(2), WbSubframes(WbSubmode(s), 4), WbRoom(s));
    }
  }

  // --------------------------------------------------- nothing is cut

  /** The values an encoder may choose. */
  ghost predicate Chosen(slots: seq<Slot>, values: Field -> nat, f: FieldValues) {
    forall i :: 0 <= i < |slots| ==> 0 <= f(slots[i].field) < values(slots[i].field)
  }

  /** What a reader finds in a field: y, wherever the field stands. */
  ghost predicate Reads(slots: seq<Slot>, v: seq<nat>, x: Field, y: int) {
    |v| == |slots| && Present(slots, x) && forall i :: 0 <= i < |slots| && slots[i].field == x ==> v[i] == y
  }

  ghost predicate Present(slots: seq<Slot>, x: Field) {
    exists i :: 0 <= i < |slots| && slots[i].field == x
  }

  /** A value that is one of a field's values comes back itself. */
  lemma ComesBack(slots: seq<Slot>, values: Field -> nat, f: FieldValues, x: Field)
    requires Roomy(slots, values) && Present(slots, x) && 0 <= f(x) < values(x)
    ensures Reads(slots, Masked(slots, f), x, f(x))
  {
    hide Pow2;
    forall i | 0 <= i < |slots| && slots[i].field == x
      ensures Masked(slots, f)[i] == f(x)
    {
      Small(f(x), values(x));
    }
  }

  lemma Small(v: int, n: nat)
    requires 0 <= v < n
    ensures v % n == v
  {
  }

  /** Whatever the bits, no reader gets more than a field's values. */
  lemma {:induction false} ReadsBelow(b: seq<bool>, p: nat, slots: seq<Slot>, values: Field -> nat, i: nat)
    requires Roomy(slots, values) && p + Width(slots) <= |b| && i < |slots|
    ensures SlotValues(b, p, slots)[i] < values(slots[i].field)
  {
    hide *;
    var n := |slots| - 1;
    var front, x := slots[..n], slots[n];
    assert slots == front + [x];
    WidthSnoc(front, x);
    SlotValuesSnoc(b, p, front, x);
    RoomAt(slots, values, n);
    if i < n {
      RoomFront(slots, values, n);
      ReadsBelow(b, p, front, values, i);
    } else {
      ValueBound(b[p + Width(front)..p + Width(front) + x.width]);
    }
  }

  lemma RoomAt(slots: seq<Slot>, values: Field -> nat, i: nat)
    requires Roomy(slots, values) && i < |slots|
    ensures Pow2(slots[i].width) == values(slots[i].field)
  {
    hide Pow2;
  }

  lemma RoomFront(slots: seq<Slot>, values: Field -> nat, n: nat)
    requires Roomy(slots, values) && n <= |slots|
    ensures Roomy(slots[..n], values)
  {
    hide Pow2;
  }

  // ------------------------------------------------- what a frame holds

  /** The length of a codeword in submode m; a subframe of 40 samples is made of
      whole ones. */
  function CodewordSize(m: int): nat {
    match m
    case 2 => 10
    case 3 => 10
    case 4 => 8
    case 8 => 20
    case _ => 5
  }

  /** The fields of subframe sub: a pitch lag and its gains in submodes 2 to 7,
      a gain in 3 to 7, and one codeword for each part of the subframe in 2 to
      8, twice over in 7. */
  predicate Holds(m: int, sub: nat, x: Field) {
    match x
    case Pitch(i) => i == sub && 2 <= m <= 7
    case PitchGain(i) => i == sub && 2 <= m <= 7
    case SubGain(i) => i == sub && 3 <= m <= 7
    case Shape(i, book, k) => i == sub && 2 <= m <= 8 && book <= (if m == 7 then 1 else 0) && k < 40 / CodewordSize(m)
    case _ => false
  }

  lemma PresentIn(a: seq<Slot>, b: seq<Slot>, x: Field)
    requires Present(a, x) || Present(b, x)
    ensures Present(a + b, x)
  {
    if Present(a, x) {
      var i :| 0 <= i < |a| && a[i].field == x;
      assert (a + b)[i].field == x;
    } else {
      var i :| 0 <= i < |b| && b[i].field == x;
      assert (a + b)[|a| + i].field == x;
    }
  }

  lemma PresentHere(x: Slot)
    ensures Present([x], x.field)
  {
    assert [x][0].field == x.field;
  }

  lemma {:induction false} ShapePresent(c: Submode, sub: nat, book: nat, n: nat, k: nat)
    requires k < n
    ensures Present(ShapeSlots(c, sub, book, n), Shape(sub, book, k))
  {
    hide Present;
    var x := Slot(Shape(sub, book, n - 1), c.shapeBits + if c.sign then 1 else 0);
    if k < n - 1 {
      ShapePresent(c, sub, book, n - 1, k);
    } else {
      PresentHere(x);
    }
    PresentIn(ShapeSlots(c, sub, book, n - 1), [x], Shape(sub, book, k));
  }

  lemma InnovationPresent(c: Submode, sub: nat, book: nat, k: nat)
    requires k < c.vectors && book <= (if c.doubleBook then 1 else 0)
    ensures Present(InnovationSlots(c, sub), Shape(sub, book, k))
  {
    hide Present, ShapeSlots;
    ShapePresent(c, sub, book, c.vectors, k);
    PresentIn(ShapeSlots(c, sub, 0, c.vectors), if c.doubleBook then ShapeSlots(c, sub, 1, c.vectors) else [], Shape(sub, book, k));
  }

  lemma SubframeHolds(m: int, sub: nat, x: Field)
    requires Holds(m, sub, x)
    ensures 1 <= m <= 8 && Present(NbSubframe(NbSubmode(m), sub), x)
  {
    hide Present, InnovationSlots;
    var c := NbSubmode(m);
    var a := if c.threeTap then [Slot(Pitch(sub), c.pitchBits), Slot(PitchGain(sub), c.pitchGainBits)] else [];
    var b := if c.subGainBits > 0 then [Slot(SubGain(sub), c.subGainBits)] else [];
    if x.Shape? {
      InnovationPresent(c, sub, x.book, x.k);
    } else if x.SubGain? {
      PresentHere(Slot(SubGain(sub), c.subGainBits));
      PresentIn(a, b, x);
    } else {
      PresentHere(Slot(Pitch(sub), c.pitchBits));
      PresentHere(Slot(PitchGain(sub), c.pitchGainBits));
      PresentIn([Slot(Pitch(sub), c.pitchBits)], [Slot(PitchGain(sub), c.pitchGainBits)], x);
      assert a == [Slot(Pitch(sub), c.pitchBits)] + [Slot(PitchGain(sub), c.pitchGainBits)];
      PresentIn(a, b, x);
    }
    PresentIn(a + b, InnovationSlots(c, sub), x);
  }

  lemma {:induction false} SubframesHold(m: int, n: nat, sub: nat, x: Field)
    requires sub < n && Holds(m, sub, x)
    ensures 1 <= m <= 8 && Present(NbSubframes(NbSubmode(m), n), x)
  {
    hide Present, NbSubframe, NbSubmode, Holds;
    SubframeHolds(m, sub, x);
    if sub < n - 1 {
      SubframesHold(m, n - 1, sub, x);
    }
    PresentIn(NbSubframes(NbSubmode(m), n - 1), NbSubframe(NbSubmode(m), n - 1), x);
  }

  /** A frame holds the fields of all four subframes. */
  lemma FrameHolds(m: int, sub: nat, x: Field)
    requires sub < 4 && Holds(m, sub, x)
    ensures 1 <= m <= 8 && Present(NbEncoded(m), x)
  {
    hide Present, NbSubframes, NbHead, NbSubmode, Holds;
    SubframesHold(m, 4, sub, x);
    var c := NbSubmode(m);
    PresentIn(NbHead(c), NbSubframes(c, 4), x);
    PresentIn(NbHead(c) + NbSubframes(c, 4), if m == 1 then [Slot(Extra, 4)] else [], x);
  }

  // ------------------------------------------------------- the main results

  /** Any field of any subframe comes back as it was chosen, from every value it
      can take. */
  lemma FieldComesBack(m: int, f: FieldValues, sub: nat, x: Field)
    requires sub < 4 && Holds(m, sub, x) && 0 <= f(x) < NbValues(m, x)
    ensures 1 <= m <= 8 && Reads(NbDecoded(m), Masked(NbEncoded(m), f), x, f(x))
  {
    FrameHolds(m, sub, x);
    NbRoomy(m);
    hide Roomy, NbEncoded, NbDecoded, Masked, Reads, Present, NbValues;
    ComesBack(NbEncoded(m), NbRoom(m), f, x);
    SameFields(m);
  }

  /** And whatever is received, what is read of a field indexes its table. */
  lemma FieldInTable(b: seq<bool>, p: nat, m: int, i: nat)
    requires 0 <= m <= 8 && p + Width(NbDecoded(m)) <= |b| && i < |NbDecoded(m)|
    ensures SlotValues(b, p, NbDecoded(m))[i] < NbValues(m, NbDecoded(m)[i].field)
  {
    NbRoomy(m);
    SameFields(m);
    hide Roomy, NbEncoded, NbDecoded, SlotValues, Width, NbValues;
    ReadsBelow(b, p, NbDecoded(m), NbRoom(m), i);
  }

  lemma LayerInTable(b: seq<bool>, p: nat, s: int, i: nat)
    requires p + Width(WbCoded(s)) <= |b| && i < |WbCoded(s)|
    ensures SlotValues(b, p, WbCoded(s))[i] < WbValues(s, WbCoded(s)[i].field)
  {
    WbRoomy(s);
    hide Roomy, WbCoded, SlotValues, Width, WbValues;
    ReadsBelow(b, p, WbCoded(s), WbRoom(s), i);
  }

  lemma {:induction false} NbFrameAt(es: seq<Encoded>, j: nat)
    requires j < |es|
    ensures |NbFrames(es)| == |es| && NbFrames(es)[j] == Decoded(es[j].m, Masked(NbEncoded(es[j].m), es[j].f))
  {
    hide Masked, NbEncoded;
    FrameTotal(es);
    if j > 0 {
      NbFrameAt(es[1..], j - 1);
    }
  }

  lemma {:induction false} FrameTotal(es: seq<Encoded>)
    ensures |NbFrames(es)| == |es|
  {
    if es != [] {
      FrameTotal(es[1..]);
    }
  }

  /** What a packet received says of the packet sent, whatever the range of a
      field is. */
  ghost predicate Faithful(es: seq<Encoded>, low: seq<Decoded>) {
    |low| == |es| && forall j :: 0 <= j < |es| ==> low[j].m == es[j].m && FieldsFaithful(es[j], low[j].values)
  }

  ghost predicate FieldsFaithful(e: Encoded, v: seq<nat>) {
    forall sub, x :: 0 <= sub < 4 && Holds(e.m, sub, x) && 0 <= e.f(x) < NbValues(e.m, x) ==> Reads(NbDecoded(e.m), v, x, e.f(x))
  }

  lemma AllFaithful(es: seq<Encoded>)
    ensures Faithful(es, NbFrames(es))
  {
    hide NbFrames, Masked, NbEncoded, NbDecoded, Reads, Holds, NbValues;
    FrameTotal(es);
    forall j | 0 <= j < |es|
      ensures NbFrames(es)[j].m == es[j].m && FieldsFaithful(es[j], NbFrames(es)[j].values)
    {
      NbFrameAt(es, j);
      forall sub: nat, x | sub < 4 && Holds(es[j].m, sub, x) && 0 <= es[j].f(x) < NbValues(es[j].m, x)
        ensures Reads(NbDecoded(es[j].m), NbFrames(es)[j].values, x, es[j].f(x))
      {
        FieldComesBack(es[j].m, es[j].f, sub, x);
      }
    }
  }

  /** A lag from 17 to 144 comes back as it is from every subframe of submodes 3
      to 7. */
  lemma LagComesBack(es: seq<Encoded>, low: seq<Decoded>, j: nat, sub: nat, lag: int)
    requires Faithful(es, low) && j < |es| && sub < 4 && 3 <= es[j].m <= 7
    requires 17 <= lag <= 144 && es[j].f(Pitch(sub)) == lag - 17
    ensures Reads(NbDecoded(es[j].m), low[j].values, Pitch(sub), lag - 17)
  {
    hide Reads, NbDecoded;
    assert Holds(es[j].m, sub, Pitch(sub)) && FieldsFaithful(es[j], low[j].values);
  }

  /** So does an index of pitch gains: below 32 in submodes 2 to 4, below 128 in
      5 to 7. */
  lemma GainComesBack(es: seq<Encoded>, low: seq<Decoded>, j: nat, sub: nat, g: int)
    requires Faithful(es, low) && j < |es| && sub < 4 && 2 <= es[j].m <= 7
    requires 0 <= g < (if es[j].m <= 4 then 32 else 128) && es[j].f(PitchGain(sub)) == g
    ensures Reads(NbDecoded(es[j].m), low[j].values, PitchGain(sub), g)
  {
    hide Reads, NbDecoded;
    assert Holds(es[j].m, sub, PitchGain(sub)) && FieldsFaithful(es[j], low[j].values);
  }

  /** Sends a packet and receives it with a narrowband decoder. */
  method Conveyed(es: seq<Encoded>, max: nat) returns (low: seq<Decoded>, code: int)
    requires AllEncodable(es) && NoneSilent(es) && |PacketBits(es)| + 8 <= 8 * max
    ensures code == NO_MORE && Faithful(es, low)
  {
    hide *;
    var wide, wideCode;
    low, code, wide, wideCode := RoundTrip(es, max);
    AllFaithful(es);
  }

  // ------------------------------------------------ where the fields stand

  /** The bits of a frame, after its five bits of header, before the first
      subframe, and of one subframe. */
  function HeadLength(m: int): nat {
    if m <= 4 then 3 * 6 + 5 else 5 * 6 + 5
  }

  function SubframeLength(m: int): nat {
    match m
    case 3 => 33
    case 4 => 48
    case 5 => 65
    case 6 => 81
    case _ => 113
  }

  /** A subframe starts with 7 bits of lag, 5 or 7 of pitch gain, and 1 or 3 of
      gain. */
  function SubframeStart(m: int, sub: nat, f: FieldValues): seq<bool> {
    BitsOf(f(Pitch(sub)), 7) + BitsOf(f(PitchGain(sub)), if m <= 4 then 5 else 7) + BitsOf(f(SubGain(sub)), if m <= 4 then 1 else 3)
  }

  lemma TwoSlots(x: Slot, y: Slot, f: FieldValues)
    ensures SlotBits([x, y], f) == BitsOf(f(x.field), x.width) + BitsOf(f(y.field), y.width)
    ensures SlotBits([x], f) == BitsOf(f(x.field), x.width)
  {
    assert SlotBits([], f) == [];
    SlotBitsSnoc([], x, f);
    SlotBitsSnoc([x], y, f);
    assert [] + [x] == [x] && [x] + [y] == [x, y];
    hide SlotBits;
    assert [] + BitsOf(f(x.field), x.width) == BitsOf(f(x.field), x.width);
  }

  lemma SubframeStarts(m: int, sub: nat, f: FieldValues)
    requires 3 <= m <= 7
    ensures SubframeStart(m, sub, f) <= SlotBits(NbSubframe(NbSubmode(m), sub), f)
    ensures NbSubframeWidth(NbSubmode(m)) == SubframeLength(m) == |SlotBits(NbSubframe(NbSubmode(m), sub), f)|
  {
    hide SlotBits, BitsOf, InnovationSlots;
    var c := NbSubmode(m);
    var a, b := [Slot(Pitch(sub), c.pitchBits), Slot(PitchGain(sub), c.pitchGainBits)], [Slot(SubGain(sub), c.subGainBits)];
    SlotBitsConcat(a + b, InnovationSlots(c, sub), f);
    SlotBitsConcat(a, b, f);
    TwoSlots(a[0], a[1], f);
    TwoSlots(b[0], b[0], f);
    SlotBitsLength(NbSubframe(c, sub), f);
    NbSubframeIs(c, sub);
    hide Width;
    assert NbSubframe(c, sub) == a + b + InnovationSlots(c, sub);
  }

  /** Piece k of b, cut into pieces of W bits. */
  function Piece(b: seq<bool>, W: nat, k: nat): seq<bool> {
    if Times(k, W) + W <= |b| then b[Times(k, W)..Times(k, W) + W] else []
  }

  lemma PieceFront(a: seq<bool>, b: seq<bool>, W: nat, k: nat, n: nat)
    requires k < n && |a| == Times(n, W)
    ensures Piece(a + b, W, k) == Piece(a, W, k)
  {
    RowBound(k, n, W);
  }

  lemma PieceBack(a: seq<bool>, b: seq<bool>, W: nat, n: nat)
    requires |a| == Times(n, W) && |b| == W
    ensures Piece(a + b, W, n) == b
  {
    hide Times;
  }

  lemma TimesNext(n: nat, W: nat)
    ensures Times(n + 1, W) == Times(n, W) + W && Times(0, W) == 0
  {
  }

  lemma {:induction false} SubframeAt(m: int, n: nat, sub: nat, f: FieldValues)
    requires 3 <= m <= 7
    ensures var b, W := SlotBits(NbSubframes(NbSubmode(m), n), f), SubframeLength(m);
      |b| == Times(n, W) && (sub < n ==> Piece(b, W, sub) == SlotBits(NbSubframe(NbSubmode(m), sub), f))
    decreases n
  {
    hide *;
    var c, W := NbSubmode(m), SubframeLength(m);
    if n == 0 {
      TimesNext(0, W);
      NoSubframes(c, f);
    } else {
      TimesNext(n - 1, W);
      SubframeStarts(m, n - 1, f);
      MoreSubframes(c, n - 1, f);
      SubframeAt(m, n - 1, sub, f);
      var front, last := SlotBits(NbSubframes(c, n - 1), f), SlotBits(NbSubframe(c, n - 1), f);
      if sub < n - 1 {
        PieceFront(front, last, W, sub, n - 1);
      } else {
        PieceBack(front, last, W, n - 1);
      }
    }
  }

  lemma NoSubframes(c: Submode, f: FieldValues)
    ensures SlotBits(NbSubframes(c, 0), f) == []
  {
  }

  lemma MoreSubframes(c: Submode, n: nat, f: FieldValues)
    ensures SlotBits(NbSubframes(c, n + 1), f) == SlotBits(NbSubframes(c, n), f) + SlotBits(NbSubframe(c, n), f)
  {
    hide SlotBits, NbSubframe;
    SlotBitsConcat(NbSubframes(c, n), NbSubframe(c, n), f);
  }

  lemma HeadBits(m: int, f: FieldValues)
    requires 3 <= m <= 7
    ensures |SlotBits(NbHead(NbSubmode(m)), f)| == HeadLength(m)
    ensures NbEncoded(m) == NbHead(NbSubmode(m)) + NbSubframes(NbSubmode(m), 4)
  {
    hide SlotBits, NbHead, NbSubframes, Width;
    SlotBitsLength(NbHead(NbSubmode(m)), f);
    NbHeadIs(NbSubmode(m));
    assert NbHead(NbSubmode(m)) + NbSubframes(NbSubmode(m), 4) + [] == NbHead(NbSubmode(m)) + NbSubframes(NbSubmode(m), 4);
  }

  /** Where a subframe of a frame of submode 3 to 7 starts, and with what: after
      the LSP indices and the gain, 33, 48, 65, 81 or 113 bits apart. */
  lemma FrameLayout(m: int, sub: nat, f: FieldValues)
    requires 3 <= m <= 7 && sub < 4
    ensures var b := SlotBits(NbEncoded(m), f); var p := HeadLength(m) + sub * SubframeLength(m);
      p + SubframeLength(m) <= |b| && SubframeStart(m, sub, f) <= b[p..]
  {
    hide *;
    var c, W := NbSubmode(m), SubframeLength(m);
    HeadBits(m, f);
    SlotBitsConcat(NbHead(c), NbSubframes(c, 4), f);
    SubframeAt(m, 4, sub, f);
    SubframeStarts(m, sub, f);
    PieceAt(SlotBits(NbHead(c), f), SlotBits(NbSubframes(c, 4), f), W, sub, 4, SubframeStart(m, sub, f));
  }

  lemma PieceAt(head: seq<bool>, b: seq<bool>, W: nat, k: nat, n: nat, start: seq<bool>)
    requires k < n && |b| == Times(n, W) && start <= Piece(b, W, k)
    ensures var p := |head| + k * W; p + W <= |head + b| && start <= (head + b)[p..]
  {
    RowBound(k, n, W);
    TimesIs(k, W);
    TimesIs(n, W);
    hide Times;
    Behind(head, b, Times(k, W), W, start);
  }

  lemma Behind(head: seq<bool>, b: seq<bool>, t: nat, W: nat, start: seq<bool>)
    requires t + W <= |b| && start <= b[t..t + W]
    ensures start <= (head + b)[|head| + t..]
  {
    assert (head + b)[|head| + t..] == b[t..];
    assert b[t..][..W] == b[t..t + W];
  }

  lemma TimesIs(k: int, W: int)
    ensures Times(k, W) == k * W
  {
  }
}
