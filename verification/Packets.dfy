/** Whole packets: several frames, wideband layers and requests in a row,
    closed by the terminator (RFC 5574 sections 3.3 and 3.5). */
module Packets {
  import opened IntArith
  import opened BitSeqs
  import opened Bits
  import opened Fields
  import opened Framing

  datatype Item =
    | Frame(m: nat, f: FieldValues)
    | Layer(s: nat, body: seq<bool>)
    | InBand(id: nat, body: seq<bool>)
    | User(n: nat, body: seq<bool>)

  predicate Fits(x: Item) {
    match x
    case Frame(m, f) => m <= 8
    case Layer(s, body) => 1 <= s <= 4 && 4 + |body| == WbBitsPerFrame(s)
    case InBand(id, body) => id < 16 && |body| == InBandSize(id)
    case User(n, body) => n < 16 && |body| == UserSize(n)
  }

  function ItemBits(x: Item): seq<bool> {
    match x
    case Frame(m, f) => [false] + BitsOf(m, 4) + SlotBits(NbEncoded(m), f)
    case Layer(s, body) => [true] + BitsOf(s, 3) + body
    case InBand(id, body) => [false] + BitsOf(14, 4) + BitsOf(id, 4) + body
    case User(n, body) => [false] + BitsOf(13, 4) + BitsOf(n, 4) + body
  }

  function Stream(items: seq<Item>): seq<bool> {
    if items == [] then [] else ItemBits(items[0]) + Stream(items[1..])
  }

  /** At most two wideband layers in a row. */
  ghost predicate Regular(items: seq<Item>) {
    && (forall i :: 0 <= i < |items| ==> Fits(items[i]))
    && (forall i :: 0 <= i < |items| - 2 ==> !(items[i].Layer? && items[i + 1].Layer? && items[i + 2].Layer?))
  }

  // ------------------------------------------------ one item at a time

  lemma NumOf(v: nat, n: nat, front: seq<bool>, rest: seq<bool>)
    requires v < Pow2(n)
    ensures Num(front + BitsOf(v, n) + rest, |front|, n) == v
  {
    var u := front + BitsOf(v, n) + rest;
    assert u[|front|..|front| + n] == BitsOf(v, n);
    ValueOfBits(v, n);
    Small(v, Pow2(n));
  }

  lemma Small(v: nat, p: nat)
    requires v < p
    ensures v % p == v
  {
  }

  /** A layer of submode 1 to 4, seen from its layer bit. */
  lemma SkipOf(s: nat, body: seq<bool>, v: seq<bool>)
    requires Fits(Layer(s, body))
    ensures var u := ItemBits(Layer(s, body)) + v;
      |u| == |v| + WbSkip(s) && u[0] && WbSkip(s) >= 5 && Skip(u) == At(v)
  {
    hide BitsOf, ValueOf;
    var u := ItemBits(Layer(s, body)) + v;
    assert u == [true] + BitsOf(s, 3) + (body + v);
    Three(s);
    NumOf(s, 3, [true], body + v);
    assert u[WbSkip(s)..] == v;
  }

  lemma Three(s: nat)
    ensures Pow2(3) == 8 && Pow2(4) == 16
  {
  }

  /** One wideband layer changes nothing in what follows. */
  lemma OneLayer(x: Item, v: seq<bool>)
    requires x.Layer? && Fits(x) && (v == [] || !v[0])
    ensures Header(ItemBits(x) + v) == Header(v)
  {
    SkipOf(x.s, x.body, v);
    hide ItemBits, Skip, Mode;
    assert Pass(ItemBits(x) + v) == Pass(v);
  }

  /** Neither do two. */
  lemma TwoLayers(x: Item, y: Item, v: seq<bool>)
    requires x.Layer? && Fits(x) && y.Layer? && Fits(y) && (v == [] || !v[0])
    ensures Header(ItemBits(x) + (ItemBits(y) + v)) == Header(v)
  {
    SkipOf(x.s, x.body, ItemBits(y) + v);
    SkipOf(y.s, y.body, v);
    hide ItemBits, Skip, Mode;
    assert Layers(ItemBits(x) + (ItemBits(y) + v)) == if v == [] then Fail(NO_MORE) else At(v[1..]);
    assert Pass(ItemBits(x) + (ItemBits(y) + v)) == Pass(v);
  }

  /** Three are rejected. */
  lemma ThreeLayers(x: Item, y: Item, v: seq<bool>)
    requires x.Layer? && Fits(x) && y.Layer? && Fits(y) && v != [] && v[0]
    ensures Header(ItemBits(x) + (ItemBits(y) + v)) == Stop(CORRUPT) == Stop(-2)
  {
    SkipOf(x.s, x.body, ItemBits(y) + v);
    SkipOf(y.s, y.body, v);
    hide ItemBits, Skip, Mode;
    assert Layers(ItemBits(x) + (ItemBits(y) + v)) == Fail(CORRUPT);
  }

  /** A layer of any other submode, the silent one included: the skip goes
      back to the same layer bit, and the packet is rejected. */
  lemma OddLayer(s: nat, v: seq<bool>)
    requires s < 8 && !(1 <= s <= 4) && v != []
    ensures Header([true] + BitsOf(s, 3) + v) == Stop(CORRUPT)
  {
    hide BitsOf, ValueOf;
    var u := [true] + BitsOf(s, 3) + v;
    Three(s);
    NumOf(s, 3, [true], v);
    assert u[0] && Skip(u) == At(u);
    hide Skip, Mode;
    assert Layers(u) == Fail(CORRUPT);
  }

  /** Nor does a decoder get past such a layer behind another one. */
  lemma OddSecond(x: Item, s: nat, v: seq<bool>)
    requires x.Layer? && Fits(x) && s < 8 && !(1 <= s <= 4)
    ensures Header(ItemBits(x) + ([true] + BitsOf(s, 3) + v)) == Stop(if v == [] then NO_MORE else CORRUPT)
  {
    hide BitsOf, ValueOf;
    var u := [true] + BitsOf(s, 3) + v;
    Three(s);
    NumOf(s, 3, [true], v);
    SkipOf(x.s, x.body, u);
    assert u[0] && |u| == 4 + |v| && Skip(u) == At(u);
    hide ItemBits, Skip, Mode;
    assert Layers(ItemBits(x) + u) == Fail(if v == [] then NO_MORE else CORRUPT);
  }

  /** So a layer is skipped exactly when its submode is 1 to 4. */
  lemma SkippedExactly(s: nat, body: seq<bool>, m: nat, f: FieldValues)
    requires s < 8 && 4 + |body| == WbBitsPerFrame(s) && m <= 8
    ensures var v := ItemBits(Frame(m, f));
      Header([true] + BitsOf(s, 3) + (body + v)) == Header(v) <==> 1 <= s <= 4
  {
    hide *;
    var v := ItemBits(Frame(m, f));
    FrameStep(m, f, []);
    assert v + [] == v;
    StartsFalse(m, f);
    if 1 <= s <= 4 {
      SplitLayer(s, body, v);
      OneLayer(Layer(s, body), v);
    } else {
      OddLayer(s, body + v);
    }
  }

  lemma StartsFalse(m: nat, f: FieldValues)
    ensures ItemBits(Frame(m, f)) != [] && !ItemBits(Frame(m, f))[0]
    ensures Frame(m, f).Frame?
  {
  }

  lemma SplitLayer(s: nat, body: seq<bool>, v: seq<bool>)
    requires 1 <= s <= 4 && 4 + |body| == WbBitsPerFrame(s)
    ensures Fits(Layer(s, body)) && ItemBits(Layer(s, body)) + v == [true] + BitsOf(s, 3) + (body + v)
  {
    hide BitsOf;
  }

  lemma FrameStep(m: nat, f: FieldValues, v: seq<bool>)
    requires m <= 8
    ensures Header(ItemBits(Frame(m, f)) + v) == Found(m, SlotBits(NbEncoded(m), f) + v)
  {
    hide BitsOf, ValueOf, SlotBits, NbEncoded;
    var w := SlotBits(NbEncoded(m), f) + v;
    var u := ItemBits(Frame(m, f)) + v;
    ModeStart(u, m, w);
  }

  /** A narrowband layer bit and a mode number. */
  lemma ModeStart(u: seq<bool>, m: nat, w: seq<bool>)
    requires m < 16 && u == [false] + BitsOf(m, 4) + w
    ensures Layers(u) == At(u[1..]) && |u[1..]| >= 4 && Num(u[1..], 0, 4) == m && u[1..][4..] == w
  {
    hide BitsOf, ValueOf;
    assert u[1..] == [] + BitsOf(m, 4) + w;
    Three(m);
    NumOf(m, 4, [], w);
  }

  /** A request, known or not, changes nothing in what follows. */
  lemma RequestStep(x: Item, v: seq<bool>)
    requires (x.InBand? || x.User?) && Fits(x)
    ensures Header(ItemBits(x) + v) == Header(v)
  {
    var k := if x.InBand? then x.id else x.n;
    var m := if x.InBand? then 14 else 13;
    RequestLayout(x, k, m, v);
    hide *;
    var w := BitsOf(k, 4) + x.body + v;
    ModeStart(ItemBits(x) + v, m, w);
    RequestNumber(k, x.body, v, w);
    PassOfRequest(ItemBits(x) + v, m, k, |x.body|, v);
  }

  lemma RequestLayout(x: Item, k: nat, m: nat, v: seq<bool>)
    requires (x.InBand? && k == x.id && m == 14) || (x.User? && k == x.n && m == 13)
    ensures ItemBits(x) + v == [false] + BitsOf(m, 4) + (BitsOf(k, 4) + x.body + v)
  {
    hide BitsOf;
  }

  lemma RequestNumber(k: nat, body: seq<bool>, v: seq<bool>, w: seq<bool>)
    requires k < 16 && w == BitsOf(k, 4) + body + v
    ensures |w| == 4 + |body| + |v| && Num(w, 0, 4) == k && w[4 + |body|..] == v
  {
    hide BitsOf, ValueOf;
    assert w == [] + BitsOf(k, 4) + (body + v);
    Three(k);
    NumOf(k, 4, [], body + v);
  }

  lemma PassOfRequest(u: seq<bool>, m: nat, k: nat, size: nat, v: seq<bool>)
    requires |u| >= 9 && Layers(u) == At(u[1..]) && Num(u[1..], 0, 4) == m
    requires (m == 14 && size == InBandSize(k)) || (m == 13 && size == UserSize(k))
    requires var w := u[1..][4..]; |w| == 4 + (size as int) + |v| && Num(w, 0, 4) == k && w[4 + size..] == v
    ensures Header(u) == Header(v)
  {
    hide Num, Layers;
    assert Pass(u) == Again(v);
  }

  /** The padding holds no frame. */
  lemma PaddingStops(n: nat)
    ensures Header(Padding(n)) == Stop(NO_MORE) == Stop(-1)
    ensures Padding(n) == [] || !Padding(n)[0]
  {
    var u := Padding(n);
    if |u| >= 5 {
      assert u[1..5] == [true, true, true, true];
      assert u[1..][0..4] == u[1..5];
      Fifteen();
    }
  }

  lemma Fifteen()
    ensures ValueOf([true, true, true, true]) == 15
  {
    ValueSnoc([], true);
    ValueSnoc([true], true);
    ValueSnoc([true, true], true);
    ValueSnoc([true, true, true], true);
    assert [] + [true] == [true] && [true] + [true] == [true, true];
    assert [true, true] + [true] == [true, true, true] && [true, true, true] + [true] == [true, true, true, true];
  }

  // -------------------------------------------------------- whole packets

  datatype Decoded = Decoded(m: nat, values: seq<nat>)

  /** The complete frames of a packet, whether one more was cut short, and the
      code that ends the loop. */
  datatype Parsed = Parsed(frames: seq<Decoded>, cut: bool, code: int)

  function Parse(u: seq<bool>): Parsed
    decreases |u|
  {
    match Header(u)
    case Stop(code) => Parsed([], false, code)
    case Again(_) => Parsed([], false, NO_MORE)
    case Found(m, v) =>
      var w := Width(NbDecoded(m));
      if w > |v| then Parsed([], true, NO_MORE)
      else
        var p := Parse(v[w..]);
        Parsed([Decoded(m, SlotValues(v, 0, NbDecoded(m)))] + p.frames, p.cut, p.code)
  }

  /** The values a reader can see of what was packed. */
  function Masked(slots: seq<Slot>, f: FieldValues): seq<nat> {
    seq<nat>(|slots|, i requires 0 <= i < |slots| => Low(f(slots[i].field), slots[i].width))
  }

  function Low(v: int, n: nat): nat {
    v % Pow2(n)
  }

  function FrameOf(x: Item): seq<Decoded> {
    if x.Frame? then [Decoded(x.m, Masked(NbEncoded(x.m), x.f))] else []
  }

  function Frames(items: seq<Item>): seq<Decoded> {
    if items == [] then [] else FrameOf(items[0]) + Frames(items[1..])
  }

  lemma FrameParses(x: Item, v: seq<bool>)
    requires x.Frame? && Fits(x)
    ensures var p := Parse(v);
      Parse(ItemBits(x) + v) == Parsed(FrameOf(x) + p.frames, p.cut, p.code)
  {
    FrameStep(x.m, x.f, v);
    SameFields(x.m);
    FieldsRead(NbEncoded(x.m), x.f, v);
    hide ItemBits, SlotBits, NbEncoded, NbDecoded, Masked, SlotValues, Width;
  }

  lemma FieldsRead(slots: seq<Slot>, f: FieldValues, v: seq<bool>)
    ensures var u := SlotBits(slots, f) + v; var w := Width(slots);
      w <= |u| && u[w..] == v && SlotValues(u, 0, slots) == Masked(slots, f)
  {
    var u := SlotBits(slots, f) + v;
    SlotBitsLength(slots, f);
    assert u[0..0 + Width(slots)] == SlotBits(slots, f);
    SlotRoundTrip(u, 0, slots, f);
  }

  lemma Transparent(u: seq<bool>, v: seq<bool>)
    requires Header(u) == Header(v)
    ensures Parse(u) == Parse(v)
  {
  }

  lemma {:induction false} RegularTail(items: seq<Item>, k: nat)
    requires Regular(items) && k <= |items|
    ensures Regular(items[k..])
  {
    var t := items[k..];
    forall i | 0 <= i < |t|
      ensures Fits(t[i])
    {
      assert t[i] == items[k + i];
    }
    forall i | 0 <= i < |t| - 2
      ensures !(t[i].Layer? && t[i + 1].Layer? && t[i + 2].Layer?)
    {
      assert t[i] == items[k + i] && t[i + 1] == items[k + i + 1] && t[i + 2] == items[k + i + 2];
    }
  }

  lemma StartsNarrow(items: seq<Item>, n: nat)
    requires items == [] || !items[0].Layer?
    ensures var v := Stream(items) + Padding(n); v == [] || !v[0]
  {
    hide SlotBits, BitsOf;
    PaddingStops(n);
  }

  /** Any stream of frames, layers and requests, closed by the terminator, is
      parsed back to its frames and then to the end of the packet. */
  lemma {:induction false} StreamParses(items: seq<Item>, n: nat)
    requires Regular(items)
    ensures Parse(Stream(items) + Padding(n)) == Parsed(Frames(items), false, NO_MORE)
    decreases |items|
  {
    hide Header, ItemBits, Padding, FrameOf, Fits, Parse, Regular;
    if items == [] {
      PaddingStops(n);
      assert Stream(items) + Padding(n) == Padding(n);
      StopsAt(Padding(n));
    } else if items[0].Layer? && |items| > 1 && items[1].Layer? {
      TwoLayerStream(items, n);
      RegularTail(items, 2);
      StreamParses(items[2..], n);
    } else {
      RegularTail(items, 1);
      StepStream(items, n);
      StreamParses(items[1..], n);
    }
  }

  lemma StopsAt(u: seq<bool>)
    requires Header(u) == Stop(NO_MORE)
    ensures Parse(u) == Parsed([], false, NO_MORE)
  {
  }

  /** Any item but the first of two layers. */
  lemma StepStream(items: seq<Item>, n: nat)
    requires Regular(items) && items != [] && !(items[0].Layer? && |items| > 1 && items[1].Layer?)
    ensures var p := Parse(Stream(items[1..]) + Padding(n));
      Parse(Stream(items) + Padding(n)) == Parsed(FrameOf(items[0]) + p.frames, p.cut, p.code)
  {
    hide *;
    var v := Stream(items[1..]) + Padding(n);
    FirstFits(items);
    FirstItem(items, Padding(n));
    if items[0].Layer? {
      StartsNarrow(items[1..], n);
    }
    StepItem(items[0], v);
  }

  lemma FirstFits(items: seq<Item>)
    requires Regular(items) && items != []
    ensures Fits(items[0])
  {
    hide Fits;
  }

  lemma FirstItem(items: seq<Item>, p: seq<bool>)
    requires items != []
    ensures Stream(items) + p == ItemBits(items[0]) + (Stream(items[1..]) + p)
  {
    hide ItemBits;
  }

  lemma StepItem(x: Item, v: seq<bool>)
    requires Fits(x) && (x.Layer? && v != [] ==> !v[0])
    ensures var p := Parse(v); Parse(ItemBits(x) + v) == Parsed(FrameOf(x) + p.frames, p.cut, p.code)
  {
    if x.Frame? {
      FrameParses(x, v);
    } else {
      NoFrame(x);
      if x.Layer? {
        OneLayer(x, v);
      } else {
        RequestStep(x, v);
      }
      hide *;
      Transparent(ItemBits(x) + v, v);
    }
  }

  lemma TwoLayerStream(items: seq<Item>, n: nat)
    requires Regular(items) && |items| >= 2 && items[0].Layer? && items[1].Layer?
    ensures Parse(Stream(items) + Padding(n)) == Parse(Stream(items[2..]) + Padding(n))
    ensures Frames(items) == Frames(items[2..])
  {
    hide Header, ItemBits, Padding, FrameOf, Parse, Fits;
    var tail := items[2..];
    var v := Stream(tail) + Padding(n);
    assert items[1..][1..] == tail;
    assert Stream(items) + Padding(n) == ItemBits(items[0]) + (ItemBits(items[1]) + v);
    NoFrame(items[0]);
    NoFrame(items[1]);
    TwoLayersHere(items, n, v);
  }

  lemma NoFrame(x: Item)
    requires !x.Frame?
    ensures FrameOf(x) == []
  {
  }

  lemma TwoLayersHere(items: seq<Item>, n: nat, v: seq<bool>)
    requires Regular(items) && |items| >= 2 && items[0].Layer? && items[1].Layer?
    requires v == Stream(items[2..]) + Padding(n)
    ensures Parse(ItemBits(items[0]) + (ItemBits(items[1]) + v)) == Parse(v)
  {
    hide Header, ItemBits, Padding, Parse, Fits, Stream;
    assert |items| > 2 ==> items[2..][0] == items[2];
    StartsNarrow(items[2..], n);
    TwoLayers(items[0], items[1], v);
    Transparent(ItemBits(items[0]) + (ItemBits(items[1]) + v), v);
  }

  // ---------------------------------------------------------- the programs

  /** A frame as an encoder leaves it: narrowband, or with a wideband layer
      (submode 0 is a silent layer). */
  datatype Encoded = Encoded(m: nat, f: FieldValues, wide: bool, s: nat, g: FieldValues)

  predicate Encodable(e: Encoded) {
    e.m <= 8 && e.s <= 4
  }

  function LayerBits(e: Encoded): seq<bool> {
    if e.wide then [true] + BitsOf(e.s, 3) + SlotBits(WbCoded(e.s), e.g) else []
  }

  function EncodedBits(e: Encoded): seq<bool> {
    [false] + BitsOf(e.m, 4) + SlotBits(NbEncoded(e.m), e.f) + LayerBits(e)
  }

  function PacketBits(es: seq<Encoded>): seq<bool> {
    if es == [] then [] else EncodedBits(es[0]) + PacketBits(es[1..])
  }

  lemma {:induction false} PacketSnoc(es: seq<Encoded>, e: Encoded)
    ensures PacketBits(es + [e]) == PacketBits(es) + EncodedBits(e)
  {
    hide EncodedBits;
    if es == [] {
      assert [e][1..] == [] && es + [e] == [e];
    } else {
      PacketSnoc(es[1..], e);
      assert (es + [e])[1..] == es[1..] + [e];
    }
  }

  /** nb_encode or sb_encode, once. */
  method EncodeFrame(bits: SpeexBits, e: Encoded)
    requires bits.Writing() && bits.owner && Encodable(e)
    modifies bits, bits.chars
    ensures bits.Writing() && (bits.chars == old(bits.chars) || fresh(bits.chars))
    ensures bits.Contents() == old(bits.Contents()) + EncodedBits(e)
  {
    EncodedIs(e, bits.Contents());
    hide *;
    NbEncode(bits, e.m, e.f);
    EncodeLayer(bits, e);
  }

  lemma EncodedIs(e: Encoded, b: seq<bool>)
    ensures e.wide == (LayerBits(e) != [])
    ensures Encodable(e) <==> e.m <= 8 && e.s <= 4
    ensures b + EncodedBits(e) == b + [false] + BitsOf(e.m, 4) + SlotBits(NbEncoded(e.m), e.f) + LayerBits(e)
  {
    hide BitsOf, SlotBits, NbEncoded;
  }

  lemma LayerIs(e: Encoded, b: seq<bool>)
    ensures Encodable(e) ==> e.s <= 4
    ensures b + LayerBits(e) == if e.wide then b + [true] + BitsOf(e.s, 3) + SlotBits(WbCoded(e.s), e.g) else b
  {
    hide BitsOf, SlotBits, WbCoded;
  }

  method EncodeLayer(bits: SpeexBits, e: Encoded)
    requires bits.Writing() && bits.owner && Encodable(e)
    modifies bits, bits.chars
    ensures bits.Writing() && (bits.chars == old(bits.chars) || fresh(bits.chars))
    ensures bits.Contents() == old(bits.Contents()) + LayerBits(e)
  {
    LayerIs(e, bits.Contents());
    hide *;
    if e.wide {
      WbEncode(bits, e.s, e.g);
    }
  }

  /** Several frames into one packet. */
  method EncodePacket(bits: SpeexBits, es: seq<Encoded>)
    requires bits.Writing() && bits.owner && forall i :: 0 <= i < |es| ==> Encodable(es[i])
    modifies bits, bits.chars
    ensures bits.Writing() && (bits.chars == old(bits.chars) || fresh(bits.chars))
    ensures bits.Contents() == old(bits.Contents()) + PacketBits(es)
  {
    hide EncodedBits, BitsIn;
    ghost var before := bits.Contents();
    assert es[..0] == [] && before + PacketBits([]) == before;
    for i := 0 to |es|
      invariant bits.Writing() && (bits.chars == old(bits.chars) || fresh(bits.chars))
      invariant bits.Contents() == before + PacketBits(es[..i])
    {
      EncodeFrame(bits, es[i]);
      PacketSnoc(es[..i], es[i]);
      assert es[..i] + [es[i]] == es[..i + 1];
    }
    assert es[..|es|] == es;
  }

  lemma {:induction false} ValuesMove(b: seq<bool>, p: nat, slots: seq<Slot>)
    requires p + Width(slots) <= |b|
    ensures SlotValues(b, p, slots) == SlotValues(b[p..], 0, slots)
  {
    hide *;
    if slots == [] {
      NoValues(b, p);
      NoValues(b[p..], 0);
    } else {
      var n := |slots| - 1;
      var front, x := slots[..n], slots[n];
      assert slots == front + [x];
      WidthSnoc(front, x);
      SlotValuesSnoc(b, p, front, x);
      SlotValuesSnoc(b[p..], 0, front, x);
      SliceMoves(b, p, Width(front), x.width);
      ValuesMove(b, p, front);
    }
  }

  lemma NoValues(b: seq<bool>, p: nat)
    ensures Width([]) == 0 && (p <= |b| ==> SlotValues(b, p, []) == [])
  {
  }

  lemma SliceMoves(b: seq<bool>, p: nat, q: nat, n: nat)
    requires p + q + n <= |b|
    ensures b[p + q..p + q + n] == b[p..][q..q + n]
  {
  }

  /** nb_decode: the fields of the next frame. The code is 0 even when the
      packet ends inside the frame, and then bits.overflow is set. */
  method NbDecode(bits: SpeexBits) returns (code: int, m: nat, values: seq<nat>)
    requires bits.Valid()
    modifies bits
    ensures bits.Valid() && bits.chars == old(bits.chars)
    ensures match Header(old(Left(bits)))
            case Stop(c) => code == c && c < 0
            case Again(_) => false
            case Found(m', v) =>
              && code == 0 && m == m' && bits.overflow == (Width(NbDecoded(m)) > |v|)
              && (!bits.overflow ==> values == SlotValues(v, 0, NbDecoded(m)) && bits.Unread() == v[Width(NbDecoded(m))..])
  {
    hide SlotValues, NbDecoded, Width, Header, BitsIn;
    values := [];
    code, m := NextFrame(bits);
    if code == 0 {
      ghost var b, p := bits.Contents(), bits.Cursor();
      values := NbDecodeBody(bits, m);
      if !bits.overflow {
        ValuesMove(b, p, NbDecoded(m));
        assert b[p..][Width(NbDecoded(m))..] == b[p + Width(NbDecoded(m))..];
      }
    }
  }

  function Before(frames: seq<Decoded>, p: Parsed): Parsed {
    Parsed(frames + p.frames, p.cut, p.code)
  }

  /** The receiving loop: decode until a non-zero code. */
  method DecodePacket(bits: SpeexBits) returns (frames: seq<Decoded>, code: int)
    requires bits.Valid()
    modifies bits
    ensures bits.Valid() && bits.chars == old(bits.chars)
    ensures var p := Parse(old(Left(bits)));
      && code == p.code && |frames| == |p.frames| + (if p.cut then 1 else 0)
      && frames[..|p.frames|] == p.frames
  {
    hide *;
    ghost var whole := Parse(Left(bits));
    BeforeNothing(whole);
    frames := [];
    code := 0;
    ghost var cut := false;
    while code == 0
      invariant bits.Valid() && bits.chars == old(bits.chars)
      invariant cut ==> frames != [] && (code == 0 ==> Left(bits) == [])
      invariant code == 0 && !cut ==> whole == Before(frames, Parse(Left(bits)))
      invariant code == 0 && cut ==> whole == Parsed(frames[..|frames| - 1], true, NO_MORE)
      invariant code != 0 ==> whole == Parsed(if cut then frames[..|frames| - 1] else frames, cut, code)
      decreases code == 0, if cut then 0 else 1, |Left(bits)|
    {
      ghost var u := Left(bits);
      ParseStep(frames, u);
      NothingLeft();
      var m, values;
      code, m, values := NbDecode(bits);
      LeftIs(bits);
      if code == 0 {
        frames := frames + [Decoded(m, values)];
        assert frames[..|frames| - 1] + [Decoded(m, values)] == frames;
        cut := bits.overflow;
      }
    }
  }

  lemma BeforeNothing(p: Parsed)
    ensures Before([], p) == p
  {
    assert [] + p.frames == p.frames;
  }

  lemma ParseStep(frames: seq<Decoded>, u: seq<bool>)
    ensures match Header(u)
            case Stop(c) => Before(frames, Parse(u)) == Parsed(frames, false, c)
            case Again(_) => true
            case Found(m, v) =>
              var w := Width(NbDecoded(m));
              |v| < |u| &&
              if w > |v| then Before(frames, Parse(u)) == Parsed(frames, true, NO_MORE)
              else Before(frames, Parse(u)) == Before(frames + [Decoded(m, SlotValues(v, 0, NbDecoded(m)))], Parse(v[w..]))
  {
    hide Header, Width, NbDecoded, SlotValues;
    assert frames + [] == frames;
    if Header(u).Found? && Width(NbDecoded(Header(u).m)) <= |Header(u).rest| {
      var m, v := Header(u).m, Header(u).rest;
      var p := Parse(v[Width(NbDecoded(m))..]);
      var d := [Decoded(m, SlotValues(v, 0, NbDecoded(m)))];
      assert frames + (d + p.frames) == frames + d + p.frames;
    }
  }
}
