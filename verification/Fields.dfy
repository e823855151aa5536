/** Which fields a frame holds: the tables of modes.c and modes_wb.c, what the
    encoders pack and what the decoders unpack. */
module Fields {
  import opened IntArith
  import opened BitSeqs
  import opened Bits

  datatype Field =
    | Lsp(stage: nat)
    | OpenPitch
    | ForcedGain
    | Gain
    | Extra
    | Pitch(sub: nat)
    | PitchGain(sub: nat)
    | SubGain(sub: nat)
    | Fold(sub: nat)
    | HighGain(sub: nat)
    | Shape(sub: nat, book: nat, k: nat)

  datatype Slot = Slot(field: Field, width: nat)

  /** Everything an encoder decided for one frame, before it is packed. */
  type FieldValues = Field -> int

  function SlotBits(slots: seq<Slot>, f: FieldValues): seq<bool> {
    if slots == [] then []
    else SlotBits(slots[..|slots| - 1], f) + BitsOf(f(slots[|slots| - 1].field), slots[|slots| - 1].width)
  }

  function Width(slots: seq<Slot>): nat {
    if slots == [] then 0 else Width(slots[..|slots| - 1]) + slots[|slots| - 1].width
  }

  lemma {:induction false} SlotBitsLength(slots: seq<Slot>, f: FieldValues)
    ensures |SlotBits(slots, f)| == Width(slots)
  {
    if slots != [] {
      SlotBitsLength(slots[..|slots| - 1], f);
    }
  }

  lemma SlotBitsSnoc(slots: seq<Slot>, x: Slot, f: FieldValues)
    ensures SlotBits(slots + [x], f) == SlotBits(slots, f) + BitsOf(f(x.field), x.width)
    ensures Width(slots + [x]) == Width(slots) + x.width
  {
    assert (slots + [x])[..|slots|] == slots;
  }

  lemma {:induction false} SlotBitsConcat(a: seq<Slot>, b: seq<Slot>, f: FieldValues)
    ensures SlotBits(a + b, f) == SlotBits(a, f) + SlotBits(b, f)
    ensures Width(a + b) == Width(a) + Width(b)
    decreases |b|
  {
    hide *;
    if b == [] {
      EmptyAppended(a, f);
    } else {
      var n := |b| - 1;
      SlotBitsConcat(a, b[..n], f);
      SlotBitsSnoc(a + b[..n], b[n], f);
      SlotBitsSnoc(b[..n], b[n], f);
      assert a + b == a + b[..n] + [b[n]] && b == b[..n] + [b[n]];
    }
  }

  lemma EmptyAppended(a: seq<Slot>, f: FieldValues)
    ensures SlotBits(a + [], f) == SlotBits(a, f) + SlotBits([], f) && Width(a + []) == Width(a) + Width([])
  {
    assert a + [] == a;
  }

  /** The values of the slots laid out in b from p. */
  function SlotValues(b: seq<bool>, p: nat, slots: seq<Slot>): (v: seq<nat>)
    requires p + Width(slots) <= |b|
    ensures |v| == |slots|
  {
    if slots == [] then []
    else
      var n := |slots| - 1;
      var q := p + Width(slots[..n]);
      SlotValues(b, p, slots[..n]) + [ValueOf(b[q..q + slots[n].width])]
  }

  lemma SlotValuesSnoc(b: seq<bool>, p: nat, slots: seq<Slot>, x: Slot)
    requires p + Width(slots) + x.width <= |b|
    ensures Width(slots + [x]) == Width(slots) + x.width
    ensures SlotValues(b, p, slots + [x])
         == SlotValues(b, p, slots) + [ValueOf(b[p + Width(slots)..p + Width(slots) + x.width])]
  {
    assert (slots + [x])[..|slots|] == slots;
  }

  /** Reading back what was packed gives every field modulo its width. */
  lemma {:induction false} SlotRoundTrip(b: seq<bool>, p: nat, slots: seq<Slot>, f: FieldValues)
    requires p + Width(slots) <= |b| && b[p..p + Width(slots)] == SlotBits(slots, f)
    ensures forall i :: 0 <= i < |slots| ==> SlotValues(b, p, slots)[i] == f(slots[i].field) % Pow2(slots[i].width)
  {
    hide *;
    if slots != [] {
      var n := |slots| - 1;
      var front, x := slots[..n], slots[n];
      assert slots == front + [x];
      SlotBitsSnoc(front, x, f);
      SlotValuesSnoc(b, p, front, x);
      SlotBitsLength(front, f);
      SplitSlice(b, p, Width(front), x.width, SlotBits(front, f), BitsOf(f(x.field), x.width));
      SlotRoundTrip(b, p, front, f);
      ValueOfBits(f(x.field), x.width);
    }
  }

  lemma SplitSlice(b: seq<bool>, p: nat, w: nat, n: nat, u: seq<bool>, v: seq<bool>)
    requires p + w + n <= |b| && |u| == w && b[p..p + (w + n)] == u + v
    ensures b[p..p + w] == u && b[p + w..p + w + n] == v
  {
    var s := b[p..p + (w + n)];
    assert s[..w] == u && s[w..] == v;
    assert b[p..p + w] == s[..w] && b[p + w..p + w + n] == s[w..];
  }

  // ------------------------------------------------- tables of modes.c

  /** A submode: how its LSPs, pitch, gains and innovation are coded. */
  datatype Submode = Submode(
    lspStages: nat,          // 5 for the full, 3 for the low-rate, 2 for the high-band quantiser
    openPitch: bool,         // lbr_pitch != -1
    forcedGain: bool,
    subGainBits: nat,        // have_subframe_gain
    doubleBook: bool,
    threeTap: bool,
    pitchBits: nat,
    pitchGainBits: nat,
    vectors: nat,            // nb_subvect, 0 for the noise innovation
    shapeBits: nat,
    sign: bool)

  const Silent := Submode(0, false, false, 0, false, false, 0, 0, 0, 0, false)

  function NbSubmode(m: int): Submode {
    match m
    case 1 => Submode(3, true, true, 0, false, false, 0, 0, 0, 0, false)
    case 2 => Submode(3, true, false, 0, false, true, 0, 5, 4, 4, false)
    case 3 => Submode(3, false, false, 1, false, true, 7, 5, 4, 5, false)
    case 4 => Submode(3, false, false, 1, false, true, 7, 5, 5, 7, false)
    case 5 => Submode(5, false, false, 3, false, true, 7, 7, 8, 6, false)
    case 6 => Submode(5, false, false, 3, false, true, 7, 7, 8, 8, false)
    case 7 => Submode(5, false, false, 3, true, true, 7, 7, 8, 6, false)
    case 8 => Submode(3, true, true, 0, false, false, 0, 0, 2, 5, false)
    case _ => Silent
  }

  function NbBitsPerFrame(m: int): nat {
    match m
    case 1 => 43
    case 2 => 119
    case 3 => 160
    case 4 => 220
    case 5 => 300
    case 6 => 364
    case 7 => 492
    case 8 => 79
    case _ => 5
  }

  function WbSubmode(s: int): Submode {
    match s
    case 1 => Submode(2, false, false, 0, false, false, 0, 0, 0, 0, false)
    case 2 => Submode(2, false, false, 0, false, false, 0, 0, 4, 5, false)
    case 3 => Submode(2, false, false, 0, false, false, 0, 0, 5, 7, true)
    case 4 => Submode(2, false, false, 0, true, false, 0, 0, 5, 7, true)
    case _ => Silent
  }

  function WbBitsPerFrame(s: int): nat {
    match s
    case 1 => 36
    case 2 => 112
    case 3 => 192
    case 4 => 352
    case _ => 4
  }

  /** wb_skip_table of nb_celp.c */
  function WbSkip(s: int): nat {
    match s
    case 1 => 36
    case 2 => 112
    case 3 => 192
    case 4 => 352
    case _ => 0
  }

  // ----------------------------------------------- what the encoders pack

  function LspSlots(n: nat): (s: seq<Slot>)
    ensures |s| == n
  {
    if n == 0 then [] else LspSlots(n - 1) + [Slot(Lsp(n - 1), 6)]
  }

  /** The indices of one codebook search, the sign in the top bit. */
  function ShapeSlots(c: Submode, sub: nat, book: nat, n: nat): seq<Slot> {
    if n == 0 then []
    else ShapeSlots(c, sub, book, n - 1) + [Slot(Shape(sub, book, n - 1), c.shapeBits + if c.sign then 1 else 0)]
  }

  function InnovationSlots(c: Submode, sub: nat): seq<Slot> {
    ShapeSlots(c, sub, 0, c.vectors) + (if c.doubleBook then ShapeSlots(c, sub, 1, c.vectors) else [])
  }

  function NbSubframe(c: Submode, sub: nat): seq<Slot> {
    (if c.threeTap then [Slot(Pitch(sub), c.pitchBits), Slot(PitchGain(sub), c.pitchGainBits)] else [])
    + (if c.subGainBits > 0 then [Slot(SubGain(sub), c.subGainBits)] else [])
    + InnovationSlots(c, sub)
  }

  function NbSubframes(c: Submode, n: nat): seq<Slot> {
    if n == 0 then [] else NbSubframes(c, n - 1) + NbSubframe(c, n - 1)
  }

  function NbHead(c: Submode): seq<Slot> {
    LspSlots(c.lspStages)
    + (if c.openPitch then [Slot(OpenPitch, 7)] else [])
    + (if c.forcedGain then [Slot(ForcedGain, 4)] else [])
    + [Slot(Gain, 5)]
  }

  /** nb_encode after the submode number: submode 1 ends with 4 more bits. */
  function NbEncoded(m: int): seq<Slot> {
    if m == 0 then []
    else NbHead(NbSubmode(m)) + NbSubframes(NbSubmode(m), 4) + (if m == 1 then [Slot(Extra, 4)] else [])
  }

  /** nb_decode after the submode number: submode 1 has its 4 bits before the
      subframes. */
  function NbDecoded(m: int): seq<Slot> {
    if m == 0 then []
    else NbHead(NbSubmode(m)) + (if m == 1 then [Slot(Extra, 4)] else []) + NbSubframes(NbSubmode(m), 4)
  }

  function WbSubframe(c: Submode, sub: nat): seq<Slot> {
    if c.vectors == 0 then [Slot(Fold(sub), 5)] else [Slot(HighGain(sub), 4)] + InnovationSlots(c, sub)
  }

  function WbSubframes(c: Submode, n: nat): seq<Slot> {
    if n == 0 then [] else WbSubframes(c, n - 1) + WbSubframe(c, n - 1)
  }

  /** sb_encode after the submode number, and sb_decode up to sign bits being
      read apart. */
  function WbCoded(s: int): seq<Slot> {
    if 1 <= s <= 4 then LspSlots(2) + WbSubframes(WbSubmode(s), 4) else []
  }

  /** The two programs put submode 1's extra bits in different places, and
      agree because its subframes are empty. */
  lemma SameFields(m: int)
    requires 0 <= m <= 8
    ensures NbEncoded(m) == NbDecoded(m)
  {
    if m == 1 {
      var c := NbSubmode(1);
      assert ShapeSlots(c, 0, 0, 0) == [] && ShapeSlots(c, 1, 0, 0) == [];
      assert forall sub :: NbSubframe(c, sub) == [];
      assert NbSubframes(c, 0) == [] && NbSubframes(c, 1) == [] && NbSubframes(c, 2) == [];
      assert NbSubframes(c, 3) == [] && NbSubframes(c, 4) == [];
    } else if m > 0 {
      assert NbHead(NbSubmode(m)) + [] == NbHead(NbSubmode(m));
    }
  }

  lemma {:induction false} LspWidth(n: nat)
    ensures Width(LspSlots(n)) == 6 * n
  {
    if n > 0 {
      LspWidth(n - 1);
      WidthSnoc(LspSlots(n - 1), Slot(Lsp(n - 1), 6));
    }
  }

  lemma WidthSnoc(s: seq<Slot>, x: Slot)
    ensures Width(s + [x]) == Width(s) + x.width
  {
    assert (s + [x])[..|s|] == s;
  }

  lemma {:induction false} ShapeWidth(c: Submode, sub: nat, book: nat, n: nat)
    ensures Width(ShapeSlots(c, sub, book, n)) == n * (c.shapeBits + if c.sign then 1 else 0)
  {
    if n > 0 {
      var w := c.shapeBits + if c.sign then 1 else 0;
      ShapeWidth(c, sub, book, n - 1);
      WidthSnoc(ShapeSlots(c, sub, book, n - 1), Slot(Shape(sub, book, n - 1), w));
      assert n * w == (n - 1) * w + w;
    }
  }

  lemma WidthConcat(a: seq<Slot>, b: seq<Slot>)
    ensures Width(a + b) == Width(a) + Width(b)
  {
    SlotBitsConcat(a, b, _ => 0);
  }

  function InnovationWidth(c: Submode): nat {
    var w := c.vectors * (c.shapeBits + if c.sign then 1 else 0);
    if c.doubleBook then 2 * w else w
  }

  lemma InnovationIs(c: Submode, sub: nat)
    ensures Width(InnovationSlots(c, sub)) == InnovationWidth(c)
  {
    ShapeWidth(c, sub, 0, c.vectors);
    ShapeWidth(c, sub, 1, c.vectors);
    WidthConcat(ShapeSlots(c, sub, 0, c.vectors), if c.doubleBook then ShapeSlots(c, sub, 1, c.vectors) else []);
  }

  function NbSubframeWidth(c: Submode): nat {
    (if c.threeTap then c.pitchBits + c.pitchGainBits else 0) + c.subGainBits + InnovationWidth(c)
  }

  lemma NbSubframeIs(c: Submode, sub: nat)
    ensures Width(NbSubframe(c, sub)) == NbSubframeWidth(c)
  {
    var a := if c.threeTap then [Slot(Pitch(sub), c.pitchBits), Slot(PitchGain(sub), c.pitchGainBits)] else [];
    var b := if c.subGainBits > 0 then [Slot(SubGain(sub), c.subGainBits)] else [];
    InnovationIs(c, sub);
    WidthConcat(a + b, InnovationSlots(c, sub));
    WidthConcat(a, b);
    if c.threeTap {
      WidthSnoc([Slot(Pitch(sub), c.pitchBits)], Slot(PitchGain(sub), c.pitchGainBits));
      WidthSnoc([], Slot(Pitch(sub), c.pitchBits));
      assert [] + [Slot(Pitch(sub), c.pitchBits)] == [Slot(Pitch(sub), c.pitchBits)];
      assert [Slot(Pitch(sub), c.pitchBits)] + [Slot(PitchGain(sub), c.pitchGainBits)] == a;
    }
  }

  lemma {:induction false} NbSubframesAre(c: Submode, n: nat)
    ensures Width(NbSubframes(c, n)) == n * NbSubframeWidth(c)
  {
    if n > 0 {
      NbSubframesAre(c, n - 1);
      NbSubframeIs(c, n - 1);
      WidthConcat(NbSubframes(c, n - 1), NbSubframe(c, n - 1));
      var w := NbSubframeWidth(c);
      assert n * w == (n - 1) * w + w;
    }
  }

  lemma NbHeadIs(c: Submode)
    ensures Width(NbHead(c))
         == 6 * c.lspStages + (if c.openPitch then 7 else 0) + (if c.forcedGain then 4 else 0) + 5
  {
    var a := LspSlots(c.lspStages);
    var b := if c.openPitch then [Slot(OpenPitch, 7)] else [];
    var d := if c.forcedGain then [Slot(ForcedGain, 4)] else [];
    LspWidth(c.lspStages);
    WidthConcat(a, b);
    WidthConcat(a + b, d);
    WidthSnoc(a + b + d, Slot(Gain, 5));
  }

  function NbHeadWidth(c: Submode): nat {
    6 * c.lspStages + (if c.openPitch then 7 else 0) + (if c.forcedGain then 4 else 0) + 5
  }

  lemma NbBodyWidth(m: int)
    requires 1 <= m <= 8
    ensures Width(NbEncoded(m))
         == NbHeadWidth(NbSubmode(m)) + 4 * NbSubframeWidth(NbSubmode(m)) + (if m == 1 then 4 else 0)
  {
    hide NbHead, NbSubframes, NbSubframeWidth, NbSubmode, Width;
    var c := NbSubmode(m);
    NbHeadIs(c);
    NbSubframesAre(c, 4);
    WidthConcat(NbHead(c), NbSubframes(c, 4));
    var e := if m == 1 then [Slot(Extra, 4)] else [];
    ExtraWidth(e);
    WidthConcat(NbHead(c) + NbSubframes(c, 4), e);
  }

  lemma ExtraWidth(e: seq<Slot>)
    requires e == [] || e == [Slot(Extra, 4)]
    ensures Width(e) == 4 * |e|
  {
    if e != [] {
      WidthSnoc([], Slot(Extra, 4));
      assert [] + [Slot(Extra, 4)] == e;
    }
  }

  /** The header and the fields of a narrowband frame fill bits_per_frame. */
  lemma NbFrameSize(m: int)
    requires 0 <= m <= 8
    ensures 5 + Width(NbEncoded(m)) == NbBitsPerFrame(m)
  {
    if m > 0 {
      NbBodyWidth(m);
      hide NbEncoded, Width;
      NbTable(m);
    }
  }

  lemma NbTable(m: int)
    requires 1 <= m <= 8
    ensures 5 + NbHeadWidth(NbSubmode(m)) + 4 * NbSubframeWidth(NbSubmode(m)) + (if m == 1 then 4 else 0) == NbBitsPerFrame(m)
  {
  }

  function WbSubframeWidth(c: Submode): nat {
    if c.vectors == 0 then 5 else 4 + InnovationWidth(c)
  }

  lemma WbSubframeIs(c: Submode, sub: nat)
    ensures Width(WbSubframe(c, sub)) == WbSubframeWidth(c)
  {
    InnovationIs(c, sub);
    WidthConcat([Slot(HighGain(sub), 4)], InnovationSlots(c, sub));
    hide InnovationSlots, InnovationWidth;
    WidthSnoc([], Slot(HighGain(sub), 4));
    WidthSnoc([], Slot(Fold(sub), 5));
    assert [] + [Slot(HighGain(sub), 4)] == [Slot(HighGain(sub), 4)] && [] + [Slot(Fold(sub), 5)] == [Slot(Fold(sub), 5)];
  }

  lemma {:induction false} WbSubframesAre(c: Submode, n: nat)
    ensures Width(WbSubframes(c, n)) == n * WbSubframeWidth(c)
  {
    hide Width, WbSubframe, WbSubframeWidth, InnovationWidth;
    if n > 0 {
      WbSubframesAre(c, n - 1);
      WbSubframeIs(c, n - 1);
      WidthConcat(WbSubframes(c, n - 1), WbSubframe(c, n - 1));
      OneMore(n, WbSubframeWidth(c));
    } else {
      NoWidth();
    }
  }

  lemma NoWidth()
    ensures Width([]) == 0
  {
  }

  lemma OneMore(n: nat, w: nat)
    requires n > 0
    ensures n * w == (n - 1) * w + w
  {
  }

  /** The header and the fields of a wideband layer fill bits_per_frame, which
      is also what the narrowband decoder skips: except for submode 0, where
      it skips nothing. */
  lemma WbLayerSize(s: int)
    requires 0 <= s < 8
    ensures 4 + Width(WbCoded(s)) == WbBitsPerFrame(s)
    ensures WbSkip(s) == WbBitsPerFrame(s) <==> 1 <= s <= 4
  {
    if 1 <= s <= 4 {
      LspWidth(2);
      WbSubframesAre(WbSubmode(s), 4);
      WidthConcat(LspSlots(2), WbSubframes(WbSubmode(s), 4));
      hide LspSlots, WbSubframes, Width;
    }
  }

  // --------------------------------------------------------- the programs

  /** Packs one field after those already done. */
  method PackField(bits: SpeexBits, x: Slot, f: FieldValues, ghost before: seq<bool>, ghost done: seq<Slot>)
    requires bits.Writing() && bits.owner && x.width <= 32
    requires bits.Contents() == before + SlotBits(done, f)
    modifies bits, bits.chars
    ensures bits.Writing() && (bits.chars == old(bits.chars) || fresh(bits.chars))
    ensures bits.Contents() == before + SlotBits(done + [x], f)
  {
    hide BitsOf;
    bits.Pack(f(x.field), x.width);
    SlotBitsSnoc(done, x, f);
  }

  method PackShapes(bits: SpeexBits, c: Submode, sub: nat, book: nat, f: FieldValues, ghost before: seq<bool>, ghost done: seq<Slot>)
    requires bits.Writing() && bits.owner && c.shapeBits <= 8
    requires bits.Contents() == before + SlotBits(done, f)
    modifies bits, bits.chars
    ensures bits.Writing() && (bits.chars == old(bits.chars) || fresh(bits.chars))
    ensures bits.Contents() == before + SlotBits(done + ShapeSlots(c, sub, book, c.vectors), f)
  {
    hide SlotBits;
    assert done + ShapeSlots(c, sub, book, 0) == done;
    for k := 0 to c.vectors
      invariant bits.Writing() && (bits.chars == old(bits.chars) || fresh(bits.chars))
      invariant bits.Contents() == before + SlotBits(done + ShapeSlots(c, sub, book, k), f)
    {
      var x := Slot(Shape(sub, book, k), c.shapeBits + if c.sign then 1 else 0);
      PackField(bits, x, f, before, done + ShapeSlots(c, sub, book, k));
      assert done + ShapeSlots(c, sub, book, k) + [x] == done + ShapeSlots(c, sub, book, k + 1);
    }
  }

  method PackInnovation(bits: SpeexBits, c: Submode, sub: nat, f: FieldValues, ghost before: seq<bool>, ghost done: seq<Slot>)
    requires bits.Writing() && bits.owner && c.shapeBits <= 8
    requires bits.Contents() == before + SlotBits(done, f)
    modifies bits, bits.chars
    ensures bits.Writing() && (bits.chars == old(bits.chars) || fresh(bits.chars))
    ensures bits.Contents() == before + SlotBits(done + InnovationSlots(c, sub), f)
  {
    hide SlotBits, ShapeSlots;
    PackShapes(bits, c, sub, 0, f, before, done);
    if c.doubleBook {
      PackShapes(bits, c, sub, 1, f, before, done + ShapeSlots(c, sub, 0, c.vectors));
      assert done + ShapeSlots(c, sub, 0, c.vectors) + ShapeSlots(c, sub, 1, c.vectors) == done + InnovationSlots(c, sub);
    } else {
      assert done + ShapeSlots(c, sub, 0, c.vectors) == done + InnovationSlots(c, sub);
    }
  }

  /** One subframe of nb_encode. */
  method NbEncodeSubframe(bits: SpeexBits, c: Submode, sub: nat, f: FieldValues, ghost before: seq<bool>, ghost done: seq<Slot>)
    requires bits.Writing() && bits.owner && c.shapeBits <= 8 && c.pitchBits <= 7 && c.pitchGainBits <= 7 && c.subGainBits <= 3
    requires bits.Contents() == before + SlotBits(done, f)
    modifies bits, bits.chars
    ensures bits.Writing() && (bits.chars == old(bits.chars) || fresh(bits.chars))
    ensures bits.Contents() == before + SlotBits(done + NbSubframe(c, sub), f)
  {
    hide SlotBits, InnovationSlots;
    ghost var d := done;
    if c.threeTap {
      PackField(bits, Slot(Pitch(sub), c.pitchBits), f, before, d);
      PackField(bits, Slot(PitchGain(sub), c.pitchGainBits), f, before, d + [Slot(Pitch(sub), c.pitchBits)]);
      d := d + [Slot(Pitch(sub), c.pitchBits)] + [Slot(PitchGain(sub), c.pitchGainBits)];
    }
    if c.subGainBits > 0 {
      PackField(bits, Slot(SubGain(sub), c.subGainBits), f, before, d);
      d := d + [Slot(SubGain(sub), c.subGainBits)];
    }
    PackInnovation(bits, c, sub, f, before, d);
    assert d + InnovationSlots(c, sub) == done + NbSubframe(c, sub);
  }

  method PackLsp(bits: SpeexBits, n: nat, f: FieldValues, ghost before: seq<bool>)
    requires bits.Writing() && bits.owner && bits.Contents() == before
    modifies bits, bits.chars
    ensures bits.Writing() && (bits.chars == old(bits.chars) || fresh(bits.chars))
    ensures bits.Contents() == before + SlotBits(LspSlots(n), f)
  {
    assert before + SlotBits(LspSlots(0), f) == before;
    hide SlotBits;
    for k := 0 to n
      invariant bits.Writing() && (bits.chars == old(bits.chars) || fresh(bits.chars))
      invariant bits.Contents() == before + SlotBits(LspSlots(k), f)
    {
      PackField(bits, Slot(Lsp(k), 6), f, before, LspSlots(k));
    }
  }

  method NbEncodeHead(bits: SpeexBits, c: Submode, f: FieldValues, ghost before: seq<bool>)
    requires bits.Writing() && bits.owner && bits.Contents() == before
    modifies bits, bits.chars
    ensures bits.Writing() && (bits.chars == old(bits.chars) || fresh(bits.chars))
    ensures bits.Contents() == before + SlotBits(NbHead(c), f)
  {
    hide SlotBits, LspSlots;
    PackLsp(bits, c.lspStages, f, before);
    ghost var d := LspSlots(c.lspStages);
    if c.openPitch {
      PackField(bits, Slot(OpenPitch, 7), f, before, d);
      d := d + [Slot(OpenPitch, 7)];
    }
    if c.forcedGain {
      PackField(bits, Slot(ForcedGain, 4), f, before, d);
      d := d + [Slot(ForcedGain, 4)];
    }
    PackField(bits, Slot(Gain, 5), f, before, d);
    assert d + [Slot(Gain, 5)] == NbHead(c);
  }

  /** The layer bit and the submode number. */
  method PackHeader(bits: SpeexBits, wide: nat, v: nat, n: nat)
    requires bits.Writing() && bits.owner && wide <= 1 && n <= 4
    modifies bits, bits.chars
    ensures bits.Writing() && (bits.chars == old(bits.chars) || fresh(bits.chars))
    ensures bits.Contents() == old(bits.Contents()) + [wide == 1] + BitsOf(v, n)
  {
    SingleBit(wide);
    hide BitsOf;
    bits.Pack(wide, 1);
    bits.Pack(v, n);
  }

  /** nb_encode, from the mode bits on. */
  method NbEncode(bits: SpeexBits, m: nat, f: FieldValues)
    requires bits.Writing() && bits.owner && m <= 8
    modifies bits, bits.chars
    ensures bits.Writing() && (bits.chars == old(bits.chars) || fresh(bits.chars))
    ensures bits.Contents() == old(bits.Contents()) + [false] + BitsOf(m, 4) + SlotBits(NbEncoded(m), f)
  {
    hide SlotBits, BitsOf, NbEncoded;
    PackHeader(bits, 0, m, 4);
    NbEncodeBody(bits, m, f);
  }

  method NbEncodeBody(bits: SpeexBits, m: nat, f: FieldValues)
    requires bits.Writing() && bits.owner && m <= 8
    modifies bits, bits.chars
    ensures bits.Writing() && (bits.chars == old(bits.chars) || fresh(bits.chars))
    ensures bits.Contents() == old(bits.Contents()) + SlotBits(NbEncoded(m), f)
  {
    hide SlotBits, BitsOf, NbHead, NbSubframe;
    ghost var before := bits.Contents();
    if m == 0 {
      NoSlots(f);
      return;
    }
    var c := NbSubmode(m);
    NbEncodeHead(bits, c, f, before);
    NbEncodeSubframes(bits, c, f, before);
    ghost var d := NbHead(c) + NbSubframes(c, 4);
    if m == 1 {
      PackField(bits, Slot(Extra, 4), f, before, d);
      assert d + [Slot(Extra, 4)] == NbEncoded(m);
    } else {
      assert d == NbEncoded(m);
    }
  }

  method NbEncodeSubframes(bits: SpeexBits, c: Submode, f: FieldValues, ghost before: seq<bool>)
    requires bits.Writing() && bits.owner && c.shapeBits <= 8 && c.pitchBits <= 7 && c.pitchGainBits <= 7 && c.subGainBits <= 3
    requires bits.Contents() == before + SlotBits(NbHead(c), f)
    modifies bits, bits.chars
    ensures bits.Writing() && (bits.chars == old(bits.chars) || fresh(bits.chars))
    ensures bits.Contents() == before + SlotBits(NbHead(c) + NbSubframes(c, 4), f)
  {
    hide SlotBits, BitsOf, NbHead, NbSubframe;
    ghost var head := NbHead(c);
    assert head + NbSubframes(c, 0) == head;
    for sub := 0 to 4
      invariant bits.Writing() && (bits.chars == old(bits.chars) || fresh(bits.chars))
      invariant bits.Contents() == before + SlotBits(head + NbSubframes(c, sub), f)
    {
      NbEncodeSubframe(bits, c, sub, f, before, head + NbSubframes(c, sub));
      assert head + NbSubframes(c, sub) + NbSubframe(c, sub) == head + NbSubframes(c, sub + 1);
    }
  }

  lemma NoSlots(f: FieldValues)
    ensures SlotBits([], f) == []
  {
  }

  /** sb_encode, from the layer bits on; submode 0 is a silent layer. */
  method WbEncode(bits: SpeexBits, s: nat, f: FieldValues)
    requires bits.Writing() && bits.owner && s <= 4
    modifies bits, bits.chars
    ensures bits.Writing() && (bits.chars == old(bits.chars) || fresh(bits.chars))
    ensures bits.Contents() == old(bits.Contents()) + [true] + BitsOf(s, 3) + SlotBits(WbCoded(s), f)
  {
    hide SlotBits, BitsOf, LspSlots, WbSubframes;
    PackHeader(bits, 1, s, 3);
    ghost var before := bits.Contents();
    if s == 0 {
      NoSlots(f);
      return;
    }
    PackLsp(bits, 2, f, before);
    WbEncodeSubframes(bits, WbSubmode(s), f, before);
  }

  method WbEncodeSubframes(bits: SpeexBits, c: Submode, f: FieldValues, ghost before: seq<bool>)
    requires bits.Writing() && bits.owner && c.shapeBits <= 8
    requires bits.Contents() == before + SlotBits(LspSlots(2), f)
    modifies bits, bits.chars
    ensures bits.Writing() && (bits.chars == old(bits.chars) || fresh(bits.chars))
    ensures bits.Contents() == before + SlotBits(LspSlots(2) + WbSubframes(c, 4), f)
  {
    hide SlotBits, LspSlots, WbSubframe;
    ghost var head := LspSlots(2);
    assert head + WbSubframes(c, 0) == head;
    for sub := 0 to 4
      invariant bits.Writing() && (bits.chars == old(bits.chars) || fresh(bits.chars))
      invariant bits.Contents() == before + SlotBits(head + WbSubframes(c, sub), f)
    {
      WbEncodeSubframe(bits, c, sub, f, before, head + WbSubframes(c, sub));
      assert head + WbSubframes(c, sub) + WbSubframe(c, sub) == head + WbSubframes(c, sub + 1);
    }
  }

  method WbEncodeSubframe(bits: SpeexBits, c: Submode, sub: nat, f: FieldValues, ghost before: seq<bool>, ghost done: seq<Slot>)
    requires bits.Writing() && bits.owner && c.shapeBits <= 8
    requires bits.Contents() == before + SlotBits(done, f)
    modifies bits, bits.chars
    ensures bits.Writing() && (bits.chars == old(bits.chars) || fresh(bits.chars))
    ensures bits.Contents() == before + SlotBits(done + WbSubframe(c, sub), f)
  {
    hide SlotBits, InnovationSlots;
    if c.vectors == 0 {
      PackField(bits, Slot(Fold(sub), 5), f, before, done);
    } else {
      PackField(bits, Slot(HighGain(sub), 4), f, before, done);
      PackInnovation(bits, c, sub, f, before, done + [Slot(HighGain(sub), 4)]);
      assert done + [Slot(HighGain(sub), 4)] + InnovationSlots(c, sub) == done + WbSubframe(c, sub);
    }
  }

  /** What slot x is read as from q on: its bits if they are all there, otherwise
      0, or the sign bit alone of a codeword the packet breaks off in. */
  ghost predicate ReadAs(b: seq<bool>, ok0: bool, q: nat, x: Slot, value: nat) {
    if ok0 && q + x.width <= |b| then value == ValueOf(b[q..][..x.width])
    else value == 0 || (ok0 && q < |b| < q + x.width && b[q] && value == Pow2(x.width - 1))
  }

  ghost predicate ReadAll(b: seq<bool>, p: nat, ok0: bool, done: seq<Slot>, v: seq<nat>) {
    |v| == |done| && forall k :: 0 <= k < |done| ==> ReadAs(b, ok0, p + Width(done[..k]), done[k], v[k])
  }

  lemma ReadAllSnoc(b: seq<bool>, p: nat, ok0: bool, done: seq<Slot>, v: seq<nat>, x: Slot, value: nat)
    requires ReadAll(b, p, ok0, done, v) && ReadAs(b, ok0, p + Width(done), x, value)
    ensures ReadAll(b, p, ok0, done + [x], v + [value])
  {
    hide ReadAs, Width;
    forall k | 0 <= k < |done + [x]|
      ensures ReadAs(b, ok0, p + Width((done + [x])[..k]), (done + [x])[k], (v + [value])[k])
    {
      assert (done + [x])[..k] == if k < |done| then done[..k] else done;
    }
  }

  /** What a decoder knows after reading the slots done from p: whether the
      packet was too short, and what each slot was read as. */
  ghost predicate ReadSoFar(bits: SpeexBits, b: seq<bool>, p: nat, ok0: bool, done: seq<Slot>, v: seq<nat>)
    reads bits, bits.chars
  {
    && bits.Valid() && bits.Contents() == b
    && bits.overflow == !(ok0 && p + Width(done) <= |b|)
    && (!bits.overflow ==> bits.Cursor() == p + Width(done) && v == SlotValues(b, p, done))
    && ReadAll(b, p, ok0, done, v)
  }

  lemma ReadStart(bits: SpeexBits)
    requires bits.Valid()
    ensures ReadSoFar(bits, bits.Contents(), bits.Cursor(), !bits.overflow, [], [])
  {
  }

  method UnpackField(bits: SpeexBits, x: Slot, v: seq<nat>, ghost b: seq<bool>, ghost p: nat, ghost ok0: bool, ghost done: seq<Slot>)
    returns (v': seq<nat>)
    requires x.width <= 32 && ReadSoFar(bits, b, p, ok0, done, v)
    modifies bits
    ensures bits.chars == old(bits.chars) && ReadSoFar(bits, b, p, ok0, done + [x], v')
  {
    hide ValueOf, SlotValues, Width, ReadAll;
    ReadField(b, p, done, x);
    var value := bits.UnpackUnsigned(x.width);
    v' := v + [value];
    ReadAllSnoc(b, p, ok0, done, v, x, value);
  }

  lemma ReadField(b: seq<bool>, p: nat, done: seq<Slot>, x: Slot)
    ensures Width(done + [x]) == Width(done) + x.width
    ensures p + Width(done) + x.width <= |b| ==>
      SlotValues(b, p, done + [x]) == SlotValues(b, p, done) + [ValueOf(b[p + Width(done)..][..x.width])]
  {
    if p + Width(done) + x.width <= |b| {
      SlotValuesSnoc(b, p, done, x);
      assert b[p + Width(done)..][..x.width] == b[p + Width(done)..p + Width(done) + x.width];
    }
    assert (done + [x])[..|done|] == done;
  }

  /** The sign bit of a codeword and its index, read apart, are the one number
      the encoder packed. */
  method UnpackShape(bits: SpeexBits, c: Submode, x: Slot, v: seq<nat>, ghost b: seq<bool>, ghost p: nat, ghost ok0: bool, ghost done: seq<Slot>)
    returns (v': seq<nat>)
    requires c.shapeBits <= 8 && x.width == c.shapeBits + (if c.sign then 1 else 0)
    requires ReadSoFar(bits, b, p, ok0, done, v)
    modifies bits
    ensures bits.chars == old(bits.chars) && ReadSoFar(bits, b, p, ok0, done + [x], v')
  {
    hide ValueOf, SlotValues, Width, Pow2, ReadAll;
    ReadField(b, p, done, x);
    var sign := 0;
    if c.sign {
      sign := bits.UnpackUnsigned(1);
    }
    var ind := bits.UnpackUnsigned(c.shapeBits);
    if p + Width(done) + x.width <= |b| && c.sign {
      SignAndIndex(b[p + Width(done)..][..x.width]);
      TakeApart(b, p + Width(done), x.width);
    }
    v' := v + [sign * Pow2(c.shapeBits) + ind];
    if !(ok0 && p + Width(done) + x.width <= |b|) {
      SignAlone(b, ok0, p + Width(done), c, x, sign);
      assert ind == 0;
    }
    ReadAllSnoc(b, p, ok0, done, v, x, sign * Pow2(c.shapeBits) + ind);
  }

  /** In a packet too short for the codeword, at most the sign bit is read. */
  lemma SignAlone(b: seq<bool>, ok0: bool, q: nat, c: Submode, x: Slot, sign: nat)
    requires x.width == c.shapeBits + (if c.sign then 1 else 0) && !(ok0 && q + x.width <= |b|)
    requires sign == if c.sign && ok0 && q + 1 <= |b| then ValueOf(b[q..][..1]) else 0
    ensures ReadAs(b, ok0, q, x, sign * Pow2(c.shapeBits))
  {
    hide Pow2;
    if c.sign && ok0 && q + 1 <= |b| {
      OneBit(b[q..][..1]);
    }
  }

  lemma TakeApart(b: seq<bool>, q: nat, w: nat)
    requires w >= 1 && q + w <= |b|
    ensures b[q..][..1] == b[q..][..w][..1] && b[q + 1..][..w - 1] == b[q..][..w][1..]
  {
  }

  lemma SignAndIndex(u: seq<bool>)
    requires |u| >= 1
    ensures ValueOf(u) == ValueOf(u[..1]) * Pow2(|u| - 1) + ValueOf(u[1..])
  {
    hide ValueOf, Pow2;
    SignTimes(u);
  }

  lemma {:induction false} SignTimes(u: seq<bool>)
    requires |u| >= 1
    ensures ValueOf(u) == Times(ValueOf(u[..1]), Pow2(|u| - 1)) + ValueOf(u[1..])
  {
    hide *;
    var n := |u| - 1;
    if n == 0 {
      SignOnly(u);
    } else {
      var w := u[..n];
      SignTimes(w);
      assert w[..1] == u[..1] && u == w + [u[n]] && u[1..] == w[1..] + [u[n]];
      ValueSnoc(w, u[n]);
      ValueSnoc(w[1..], u[n]);
      NextPower(ValueOf(u[..1]), n - 1);
    }
  }

  lemma SignOnly(u: seq<bool>)
    requires |u| == 1
    ensures ValueOf(u) == Times(ValueOf(u[..1]), Pow2(0)) + ValueOf(u[1..])
  {
    assert u[..1] == u && u[1..] == [];
  }

  lemma NextPower(a: int, n: nat)
    ensures 2 * Times(a, Pow2(n)) == Times(a, Pow2(n + 1))
  {
  }

  method UnpackShapes(bits: SpeexBits, c: Submode, sub: nat, book: nat, v: seq<nat>, ghost b: seq<bool>, ghost p: nat, ghost ok0: bool, ghost done: seq<Slot>)
    returns (v': seq<nat>)
    requires c.shapeBits <= 8 && ReadSoFar(bits, b, p, ok0, done, v)
    modifies bits
    ensures bits.chars == old(bits.chars) && ReadSoFar(bits, b, p, ok0, done + ShapeSlots(c, sub, book, c.vectors), v')
  {
    hide ReadSoFar, Width;
    v' := v;
    assert done + ShapeSlots(c, sub, book, 0) == done;
    for k := 0 to c.vectors
      invariant bits.chars == old(bits.chars) && ReadSoFar(bits, b, p, ok0, done + ShapeSlots(c, sub, book, k), v')
    {
      var x := Slot(Shape(sub, book, k), c.shapeBits + if c.sign then 1 else 0);
      v' := UnpackShape(bits, c, x, v', b, p, ok0, done + ShapeSlots(c, sub, book, k));
      assert done + ShapeSlots(c, sub, book, k) + [x] == done + ShapeSlots(c, sub, book, k + 1);
    }
  }

  method UnpackInnovation(bits: SpeexBits, c: Submode, sub: nat, v: seq<nat>, ghost b: seq<bool>, ghost p: nat, ghost ok0: bool, ghost done: seq<Slot>)
    returns (v': seq<nat>)
    requires c.shapeBits <= 8 && ReadSoFar(bits, b, p, ok0, done, v)
    modifies bits
    ensures bits.chars == old(bits.chars) && ReadSoFar(bits, b, p, ok0, done + InnovationSlots(c, sub), v')
  {
    hide ReadSoFar, Width, ShapeSlots;
    v' := UnpackShapes(bits, c, sub, 0, v, b, p, ok0, done);
    if c.doubleBook {
      v' := UnpackShapes(bits, c, sub, 1, v', b, p, ok0, done + ShapeSlots(c, sub, 0, c.vectors));
      assert done + ShapeSlots(c, sub, 0, c.vectors) + ShapeSlots(c, sub, 1, c.vectors) == done + InnovationSlots(c, sub);
    } else {
      assert done + ShapeSlots(c, sub, 0, c.vectors) == done + InnovationSlots(c, sub);
    }
  }

  method UnpackLsp(bits: SpeexBits, n: nat, ghost b: seq<bool>, ghost p: nat, ghost ok0: bool) returns (v: seq<nat>)
    requires ReadSoFar(bits, b, p, ok0, [], [])
    modifies bits
    ensures bits.chars == old(bits.chars) && ReadSoFar(bits, b, p, ok0, LspSlots(n), v)
  {
    hide ReadSoFar, Width;
    v := [];
    for k := 0 to n
      invariant bits.chars == old(bits.chars) && ReadSoFar(bits, b, p, ok0, LspSlots(k), v)
    {
      v := UnpackField(bits, Slot(Lsp(k), 6), v, b, p, ok0, LspSlots(k));
    }
  }

  method NbDecodeHead(bits: SpeexBits, c: Submode, ghost b: seq<bool>, ghost p: nat, ghost ok0: bool) returns (v: seq<nat>)
    requires ReadSoFar(bits, b, p, ok0, [], [])
    modifies bits
    ensures bits.chars == old(bits.chars) && ReadSoFar(bits, b, p, ok0, NbHead(c), v)
  {
    hide ReadSoFar, Width, LspSlots;
    v := UnpackLsp(bits, c.lspStages, b, p, ok0);
    ghost var d := LspSlots(c.lspStages);
    if c.openPitch {
      v := UnpackField(bits, Slot(OpenPitch, 7), v, b, p, ok0, d);
      d := d + [Slot(OpenPitch, 7)];
    }
    if c.forcedGain {
      v := UnpackField(bits, Slot(ForcedGain, 4), v, b, p, ok0, d);
      d := d + [Slot(ForcedGain, 4)];
    }
    v := UnpackField(bits, Slot(Gain, 5), v, b, p, ok0, d);
    assert d + [Slot(Gain, 5)] == NbHead(c);
  }

  method NbDecodeSubframe(bits: SpeexBits, c: Submode, sub: nat, v: seq<nat>, ghost b: seq<bool>, ghost p: nat, ghost ok0: bool, ghost done: seq<Slot>)
    returns (v': seq<nat>)
    requires c.shapeBits <= 8 && c.pitchBits <= 7 && c.pitchGainBits <= 7 && c.subGainBits <= 3
    requires ReadSoFar(bits, b, p, ok0, done, v)
    modifies bits
    ensures bits.chars == old(bits.chars) && ReadSoFar(bits, b, p, ok0, done + NbSubframe(c, sub), v')
  {
    hide ReadSoFar, Width, InnovationSlots;
    v' := v;
    ghost var d := done;
    if c.threeTap {
      v' := UnpackField(bits, Slot(Pitch(sub), c.pitchBits), v', b, p, ok0, d);
      v' := UnpackField(bits, Slot(PitchGain(sub), c.pitchGainBits), v', b, p, ok0, d + [Slot(Pitch(sub), c.pitchBits)]);
      d := d + [Slot(Pitch(sub), c.pitchBits)] + [Slot(PitchGain(sub), c.pitchGainBits)];
    }
    if c.subGainBits > 0 {
      v' := UnpackField(bits, Slot(SubGain(sub), c.subGainBits), v', b, p, ok0, d);
      d := d + [Slot(SubGain(sub), c.subGainBits)];
    }
    v' := UnpackInnovation(bits, c, sub, v', b, p, ok0, d);
    assert d + InnovationSlots(c, sub) == done + NbSubframe(c, sub);
  }

  /** nb_decode after the submode number: the fields in decoder order. */
  method NbDecodeBody(bits: SpeexBits, m: nat) returns (v: seq<nat>)
    requires bits.Valid() && m <= 8
    modifies bits
    ensures bits.chars == old(bits.chars)
    ensures ReadSoFar(bits, old(bits.Contents()), old(bits.Cursor()), !old(bits.overflow), NbDecoded(m), v)
  {
    ghost var b, p, ok0 := bits.Contents(), bits.Cursor(), !bits.overflow;
    hide *;
    ReadStart(bits);
    DecodedParts(m);
    v := [];
    if m == 0 {
      return;
    }
    var c := NbSubmode(m);
    v := NbDecodeHead(bits, c, b, p, ok0);
    ghost var d := NbHead(c);
    if m == 1 {
      v := UnpackField(bits, Slot(Extra, 4), v, b, p, ok0, d);
      d := d + [Slot(Extra, 4)];
    }
    v := NbDecodeSubframes(bits, c, v, b, p, ok0, d);
  }

  lemma DecodedParts(m: nat)
    requires m <= 8
    ensures NbDecoded(0) == []
    ensures m > 0 ==> var c := NbSubmode(m);
      && c.shapeBits <= 8 && c.pitchBits <= 7 && c.pitchGainBits <= 7 && c.subGainBits <= 3
      && NbDecoded(m) == (if m == 1 then NbHead(c) + [Slot(Extra, 4)] else NbHead(c)) + NbSubframes(c, 4)
  {
    hide NbHead, NbSubframes;
  }

  method NbDecodeSubframes(bits: SpeexBits, c: Submode, v: seq<nat>, ghost b: seq<bool>, ghost p: nat, ghost ok0: bool, ghost done: seq<Slot>)
    returns (v': seq<nat>)
    requires c.shapeBits <= 8 && c.pitchBits <= 7 && c.pitchGainBits <= 7 && c.subGainBits <= 3
    requires ReadSoFar(bits, b, p, ok0, done, v)
    modifies bits
    ensures bits.chars == old(bits.chars) && ReadSoFar(bits, b, p, ok0, done + NbSubframes(c, 4), v')
  {
    hide ReadSoFar, Width, NbSubframe;
    v' := v;
    assert done + NbSubframes(c, 0) == done;
    for sub := 0 to 4
      invariant bits.chars == old(bits.chars) && ReadSoFar(bits, b, p, ok0, done + NbSubframes(c, sub), v')
    {
      v' := NbDecodeSubframe(bits, c, sub, v', b, p, ok0, done + NbSubframes(c, sub));
      assert done + NbSubframes(c, sub) + NbSubframe(c, sub) == done + NbSubframes(c, sub + 1);
    }
  }

  /** sb_decode after the submode number. */
  method WbDecodeBody(bits: SpeexBits, s: nat) returns (v: seq<nat>)
    requires bits.Valid() && 1 <= s <= 4
    modifies bits
    ensures bits.chars == old(bits.chars)
    ensures ReadSoFar(bits, old(bits.Contents()), old(bits.Cursor()), !old(bits.overflow), WbCoded(s), v)
  {
    ghost var b, p, ok0 := bits.Contents(), bits.Cursor(), !bits.overflow;
    ReadStart(bits);
    hide ReadSoFar, Width, LspSlots, WbSubframes;
    v := UnpackLsp(bits, 2, b, p, ok0);
    v := WbDecodeSubframes(bits, WbSubmode(s), v, b, p, ok0, LspSlots(2));
  }

  method WbDecodeSubframes(bits: SpeexBits, c: Submode, v: seq<nat>, ghost b: seq<bool>, ghost p: nat, ghost ok0: bool, ghost done: seq<Slot>)
    returns (v': seq<nat>)
    requires c.shapeBits <= 8 && ReadSoFar(bits, b, p, ok0, done, v)
    modifies bits
    ensures bits.chars == old(bits.chars) && ReadSoFar(bits, b, p, ok0, done + WbSubframes(c, 4), v')
  {
    hide ReadSoFar, Width, WbSubframe;
    v' := v;
    assert done + WbSubframes(c, 0) == done;
    for sub := 0 to 4
      invariant bits.chars == old(bits.chars) && ReadSoFar(bits, b, p, ok0, done + WbSubframes(c, sub), v')
    {
      v' := WbDecodeSubframe(bits, c, sub, v', b, p, ok0, done + WbSubframes(c, sub));
      assert done + WbSubframes(c, sub) + WbSubframe(c, sub) == done + WbSubframes(c, sub + 1);
    }
  }

  method WbDecodeSubframe(bits: SpeexBits, c: Submode, sub: nat, v: seq<nat>, ghost b: seq<bool>, ghost p: nat, ghost ok0: bool, ghost done: seq<Slot>)
    returns (v': seq<nat>)
    requires c.shapeBits <= 8 && ReadSoFar(bits, b, p, ok0, done, v)
    modifies bits
    ensures bits.chars == old(bits.chars) && ReadSoFar(bits, b, p, ok0, done + WbSubframe(c, sub), v')
  {
    hide ReadSoFar, Width, InnovationSlots;
    if c.vectors == 0 {
      v' := UnpackField(bits, Slot(Fold(sub), 5), v, b, p, ok0, done);
    } else {
      v' := UnpackField(bits, Slot(HighGain(sub), 4), v, b, p, ok0, done);
      v' := UnpackInnovation(bits, c, sub, v', b, p, ok0, done + [Slot(HighGain(sub), 4)]);
      assert done + [Slot(HighGain(sub), 4)] + InnovationSlots(c, sub) == done + WbSubframe(c, sub);
    }
  }
}
