/** Ultra-wideband packets: sb_encode over sb_encode over nb_encode, read by
    sb_decode over sb_decode, and by the two simpler decoders. */
module Ultra {
  import opened BitSeqs
  import opened Bits
  import opened Fields
  import opened Framing
  import opened Packets
  import opened Wideband
  import opened WbDecoder

  const UWB_TOP := 1

  /** A wideband frame and the layer on top of it, of submode 0 or 1. */
  datatype UwbEncoded = UwbEncoded(low: Encoded, t: nat, k: FieldValues)

  predicate UwbEncodable(x: UwbEncoded) {
    Encodable(x.low) && x.low.wide && x.t <= UWB_TOP
  }

  /** The upper layer, written as a wideband layer is. */
  function Top(x: UwbEncoded): Encoded {
    Encoded(0, x.k, true, x.t, x.k)
  }

  function UwbBits(x: UwbEncoded): seq<bool> {
    EncodedBits(x.low) + LayerBits(Top(x))
  }

  function UwbPacket(xs: seq<UwbEncoded>): seq<bool> {
    if xs == [] then [] else UwbBits(xs[0]) + UwbPacket(xs[1..])
  }

  ghost predicate AllUwb(xs: seq<UwbEncoded>) {
    forall i :: 0 <= i < |xs| ==> UwbEncodable(xs[i])
  }

  // -------------------------------------------------------------- the decoder

  datatype UwbFrame = UwbFrame(low: WbFrame, t: nat, layer: seq<nat>)

  datatype UwbRead = UwbNext(frame: UwbFrame, rest: seq<bool>) | UwbCut | UwbEnd(code: int)

  function UwbStep(u: seq<bool>): (r: UwbRead)
    ensures r.UwbNext? ==> |r.rest| < |u|
  {
    match SbStep(u)
    case End(code) => UwbEnd(code)
    case Cut => UwbCut
    case Next(f, v) =>
      match ReadLayer(v, UWB_TOP)
      case TooShort => UwbCut
      case Invalid => UwbEnd(CORRUPT)
      case Layered(t, layer, rest) => UwbNext(UwbFrame(f, t, layer), rest)
  }

  datatype UwbParsed = UwbParsed(frames: seq<UwbFrame>, cut: bool, code: int)

  function UwbParse(u: seq<bool>): UwbParsed
    decreases |u|
  {
    match UwbStep(u)
    case UwbEnd(code) => UwbParsed([], false, code)
    case UwbCut => UwbParsed([], true, NO_MORE)
    case UwbNext(f, rest) =>
      var p := UwbParse(rest);
      UwbParsed([f] + p.frames, p.cut, p.code)
  }

  function UwbFrameOf(x: UwbEncoded): UwbFrame {
    UwbFrame(WbFrameOf(x.low), x.t, Masked(WbCoded(x.t), x.k))
  }

  function UwbFrames(xs: seq<UwbEncoded>): seq<UwbFrame> {
    if xs == [] then [] else [UwbFrameOf(xs[0])] + UwbFrames(xs[1..])
  }

  lemma UwbStepReads(x: UwbEncoded, v: seq<bool>)
    requires UwbEncodable(x)
    ensures UwbStep(UwbBits(x) + v) == UwbNext(UwbFrameOf(x), v)
  {
    hide SbStep, ReadLayer, EncodedBits, LayerBits, WbFrameOf, Masked, WbCoded;
    StepReads(x.low, LayerBits(Top(x)) + v);
    assert UwbBits(x) + v == EncodedBits(x.low) + (LayerBits(Top(x)) + v);
    LayerRoundTrip(Top(x), v, UWB_TOP);
  }

  /** An ultra-wideband decoder reads every packet back, silent layers included. */
  lemma {:induction false} UwbReadsAll(xs: seq<UwbEncoded>, n: nat)
    requires AllUwb(xs)
    ensures UwbParse(UwbPacket(xs) + Padding(n)) == UwbParsed(UwbFrames(xs), false, NO_MORE)
  {
    hide UwbBits, Padding, UwbFrameOf, UwbStep, UwbEncodable;
    PaddingStops(n);
    if xs == [] {
      assert [] + Padding(n) == Padding(n);
      UwbEndsAt(Padding(n));
    } else {
      UwbReadsAll(xs[1..], n);
      UwbStepReads(xs[0], UwbPacket(xs[1..]) + Padding(n));
      assert UwbPacket(xs) + Padding(n) == UwbBits(xs[0]) + (UwbPacket(xs[1..]) + Padding(n));
    }
  }

  lemma UwbEndsAt(u: seq<bool>)
    requires Header(u) == Stop(NO_MORE)
    ensures UwbStep(u) == UwbEnd(NO_MORE)
  {
    EndsAt(u);
  }

  // ----------------------------------------------------- the simpler decoders

  function Lows(xs: seq<UwbEncoded>): (es: seq<Encoded>)
    ensures |es| == |xs|
  {
    if xs == [] then [] else [xs[0].low] + Lows(xs[1..])
  }

  /** A decoder gets past frame x: a wideband one if the upper layer is not
      silent, a narrowband one if no layer is. */
  predicate Passable(x: UwbEncoded, narrow: bool) {
    x.t == 1 && (narrow ==> !Wideband.Silent(x.low))
  }

  /** The frames up to the first one it does not get past, that one included. */
  function UpTo(xs: seq<UwbEncoded>, narrow: bool): (ys: seq<UwbEncoded>)
    ensures |ys| <= |xs|
  {
    if xs == [] then [] else if Passable(xs[0], narrow) then [xs[0]] + UpTo(xs[1..], narrow) else [xs[0]]
  }

  lemma {:induction false} UpToAll(xs: seq<UwbEncoded>, narrow: bool)
    ensures |UpTo(xs, narrow)| == |xs| <==> forall i :: 0 <= i < |xs| - 1 ==> Passable(xs[i], narrow)
    ensures |UpTo(xs, narrow)| == |xs| ==> UpTo(xs, narrow) == xs
  {
    hide Passable;
    if xs != [] {
      var t := xs[1..];
      UpToAll(t, narrow);
      if Passable(xs[0], narrow) {
        assert forall i :: 0 < i < |xs| ==> xs[i] == t[i - 1];
        assert (forall i :: 0 <= i < |t| - 1 ==> Passable(t[i], narrow)) <==> forall i :: 1 <= i < |xs| - 1 ==> Passable(xs[i], narrow) by {
          assert forall i :: 0 <= i < |t| ==> t[i] == xs[i + 1];
        }
      }
    }
  }

  lemma SameHeader(u: seq<bool>, v: seq<bool>)
    requires Header(u) == Header(v)
    ensures SbParse(u) == SbParse(v)
  {
    hide Header, ReadLayer;
  }

  lemma Ended(u: seq<bool>)
    requires Header(u).Stop?
    ensures SbParse(u).frames == [] && Parse(u).frames == []
  {
  }

  lemma UwbStart(xs: seq<UwbEncoded>, n: nat)
    ensures var u := UwbPacket(xs) + Padding(n); u == [] || !u[0]
  {
    if xs != [] {
      EncodedSplit(xs[0].low, []);
    } else {
      PaddingStops(n);
      assert [] + Padding(n) == Padding(n);
    }
  }

  /** What a wideband decoder finds behind the wideband part of a frame. */
  lemma TopSkipped(x: UwbEncoded, v: seq<bool>)
    requires UwbEncodable(x) && (v == [] || !v[0])
    ensures if Passable(x, false) then Header(LayerBits(Top(x)) + v) == Header(v) else Header(LayerBits(Top(x)) + v).Stop?
  {
    if x.t == 1 {
      LayerItem(Top(x), v);
      OneLayer(Layer(x.t, SlotBits(WbCoded(x.t), x.k)), v);
    } else {
      SilentBits(Top(x), v);
      hide *;
      if v == [] {
        FourBits();
        ShortStops([true] + BitsOf(0, 3));
      } else {
        OddLayer(0, v);
      }
    }
  }

  lemma FourBits()
    ensures |[true] + BitsOf(0, 3)| == 4
  {
  }

  /** And a narrowband decoder behind the narrowband part. */
  lemma BothSkipped(x: UwbEncoded, v: seq<bool>)
    requires UwbEncodable(x) && (v == [] || !v[0])
    ensures var u := LayerBits(x.low) + (LayerBits(Top(x)) + v);
      if Passable(x, true) then Header(u) == Header(v) else Header(u).Stop?
  {
    var e, w := x.low, LayerBits(Top(x)) + v;
    if Wideband.Silent(e) {
      SilentBits(e, w);
      TopBits(x);
      hide *;
      OddLayer(0, w);
    } else {
      LayerItem(e, w);
      if x.t == 1 {
        LayerItem(Top(x), v);
        TwoLayers(Layer(e.s, SlotBits(WbCoded(e.s), e.g)), Layer(x.t, SlotBits(WbCoded(x.t), x.k)), v);
      } else {
        SilentBits(Top(x), v);
        OddSecond(Layer(e.s, SlotBits(WbCoded(e.s), e.g)), 0, v);
      }
    }
  }

  lemma TopBits(x: UwbEncoded)
    ensures LayerBits(Top(x)) != []
  {
  }

  lemma FirstFrame(xs: seq<UwbEncoded>, n: nat)
    requires xs != []
    ensures UwbPacket(xs) + Padding(n) == EncodedBits(xs[0].low) + (LayerBits(Top(xs[0])) + (UwbPacket(xs[1..]) + Padding(n)))
    ensures AllUwb(xs) ==> AllUwb(xs[1..]) && UwbEncodable(xs[0]) && Encodable(xs[0].low) && xs[0].low.wide
  {
    hide EncodedBits, LayerBits, Padding, Encodable;
  }

  lemma NoFrames(n: nat)
    ensures UwbPacket([]) + Padding(n) == Padding(n)
  {
    assert [] + Padding(n) == Padding(n);
  }

  lemma UpToStep(xs: seq<UwbEncoded>, narrow: bool)
    ensures xs == [] ==> NbFrames(Lows(UpTo(xs, narrow))) == [] && WbFrames(Lows(UpTo(xs, narrow))) == []
    ensures xs != [] ==> var e, t := xs[0].low, if Passable(xs[0], narrow) then Lows(UpTo(xs[1..], narrow)) else [];
      && NbFrames(Lows(UpTo(xs, narrow))) == [Decoded(e.m, Masked(NbEncoded(e.m), e.f))] + NbFrames(t)
      && WbFrames(Lows(UpTo(xs, narrow))) == [WbFrameOf(e)] + WbFrames(t)
  {
    hide Passable, Masked, NbEncoded, WbFrameOf;
    if xs != [] {
      var ys := UpTo(xs, narrow);
      assert Lows(ys)[0] == xs[0].low && Lows(ys)[1..] == Lows(ys[1..]);
      assert ys[1..] == if Passable(xs[0], narrow) then UpTo(xs[1..], narrow) else [];
    }
  }

  lemma StepParses(u: seq<bool>, f: WbFrame, v: seq<bool>)
    requires SbStep(u) == Next(f, v)
    ensures SbParse(u).frames == [f] + SbParse(v).frames
  {
    hide SbStep;
  }

  /** A wideband decoder reads the wideband part of every frame up to the first
      silent upper layer. */
  lemma {:induction false} WidebandReads(xs: seq<UwbEncoded>, n: nat)
    requires AllUwb(xs)
    ensures SbParse(UwbPacket(xs) + Padding(n)).frames == WbFrames(Lows(UpTo(xs, false)))
  {
    hide *;
    UpToStep(xs, false);
    PaddingStops(n);
    if xs == [] {
      NoFrames(n);
      Ended(Padding(n));
    } else {
      var x, v := xs[0], UwbPacket(xs[1..]) + Padding(n);
      FirstFrame(xs, n);
      UwbStart(xs[1..], n);
      StepReads(x.low, LayerBits(Top(x)) + v);
      StepParses(UwbPacket(xs) + Padding(n), WbFrameOf(x.low), LayerBits(Top(x)) + v);
      TopSkipped(x, v);
      if Passable(x, false) {
        WidebandReads(xs[1..], n);
        SameHeader(LayerBits(Top(x)) + v, v);
      } else {
        Ended(LayerBits(Top(x)) + v);
        NoWbFrames();
      }
    }
  }

  lemma NoWbFrames()
    ensures WbFrames([]) == [] && NbFrames([]) == []
  {
  }

  /** A narrowband decoder reads the narrowband part of every frame up to the
      first silent layer of either kind. */
  lemma {:induction false} NarrowbandReads(xs: seq<UwbEncoded>, n: nat)
    requires AllUwb(xs)
    ensures Parse(UwbPacket(xs) + Padding(n)).frames == NbFrames(Lows(UpTo(xs, true)))
  {
    hide *;
    UpToStep(xs, true);
    PaddingStops(n);
    if xs == [] {
      NoFrames(n);
      Ended(Padding(n));
    } else {
      var x, v := xs[0], UwbPacket(xs[1..]) + Padding(n);
      var e, w := x.low, LayerBits(Top(x)) + v;
      FirstFrame(xs, n);
      UwbStart(xs[1..], n);
      EncodedSplit(e, w);
      FrameParses(Frame(e.m, e.f), LayerBits(e) + w);
      FrameIs(e);
      BothSkipped(x, v);
      if Passable(x, true) {
        NarrowbandReads(xs[1..], n);
        Transparent(LayerBits(e) + w, v);
      } else {
        Ended(LayerBits(e) + w);
        NoWbFrames();
      }
    }
  }

  lemma FrameIs(e: Encoded)
    ensures Frame(e.m, e.f).Frame? && FrameOf(Frame(e.m, e.f)) == [Decoded(e.m, Masked(NbEncoded(e.m), e.f))]
  {
    hide Masked, NbEncoded;
  }

  lemma {:induction false} FrameCount(es: seq<Encoded>)
    ensures |WbFrames(es)| == |NbFrames(es)| == |es|
  {
    if es != [] {
      FrameCount(es[1..]);
    }
  }

  /** So a wideband decoder reads all wideband parts exactly when no frame before
      the last has a silent upper layer. */
  lemma WidebandReadsUltra(xs: seq<UwbEncoded>, n: nat)
    requires AllUwb(xs)
    ensures SbParse(UwbPacket(xs) + Padding(n)).frames == WbFrames(Lows(xs))
       <==> (forall i :: 0 <= i < |xs| - 1 ==> Passable(xs[i], false))
  {
    hide *;
    WidebandReads(xs, n);
    UpToAll(xs, false);
    FrameCount(Lows(xs));
    FrameCount(Lows(UpTo(xs, false)));
  }

  /** And a narrowband decoder all narrowband parts exactly when no frame before
      the last has a silent layer at all. */
  lemma NarrowbandReadsUltra(xs: seq<UwbEncoded>, n: nat)
    requires AllUwb(xs)
    ensures Parse(UwbPacket(xs) + Padding(n)).frames == NbFrames(Lows(xs))
       <==> (forall i :: 0 <= i < |xs| - 1 ==> Passable(xs[i], true))
  {
    hide *;
    NarrowbandReads(xs, n);
    UpToAll(xs, true);
    FrameCount(Lows(xs));
    FrameCount(Lows(UpTo(xs, true)));
  }

  // ---------------------------------------------------------- the programs

  /** sb_encode over sb_encode, once. */
  method UwbEncode(bits: SpeexBits, x: UwbEncoded)
    requires bits.Writing() && bits.owner && UwbEncodable(x)
    modifies bits, bits.chars
    ensures bits.Writing() && (bits.chars == old(bits.chars) || fresh(bits.chars))
    ensures bits.Contents() == old(bits.Contents()) + UwbBits(x)
  {
    TopEncodable(x);
    hide EncodedBits, LayerBits, Encodable, BitsIn;
    ghost var before := bits.Contents();
    EncodeFrame(bits, x.low);
    EncodeLayer(bits, Top(x));
    assert before + EncodedBits(x.low) + LayerBits(Top(x)) == before + UwbBits(x);
  }

  lemma TopEncodable(x: UwbEncoded)
    ensures UwbEncodable(x) ==> Encodable(Top(x)) && Encodable(x.low)
  {
  }

  /** sb_decode over sb_decode: the wideband frame and the layer on top. */
  method UwbDecode(bits: SpeexBits) returns (code: int, frame: UwbFrame)
    requires bits.Valid()
    modifies bits
    ensures bits.Valid() && bits.chars == old(bits.chars)
    ensures match UwbStep(old(Left(bits)))
            case UwbEnd(c) => code == c && c < 0
            case UwbCut => code == 0 && Left(bits) == []
            case UwbNext(f, rest) => code == 0 && frame == f && !bits.overflow && bits.Unread() == rest
  {
    hide ReadLayer, SbStep, BitsIn;
    var low;
    code, low := SbDecode(bits);
    frame := UwbFrame(low, 0, []);
    if code == 0 {
      ghost var u := Left(bits);
      NoLayer(Encoded(0, _ => 0, false, 0, _ => 0), [], UWB_TOP);
      var t, layer;
      code, t, layer := SbDecodeLayer(bits, UWB_TOP);
      frame := UwbFrame(low, t, layer);
    }
  }
}
