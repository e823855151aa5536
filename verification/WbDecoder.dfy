/** sb_decode, and what it makes of the packets sb_encode and nb_encode
    write. */
module WbDecoder {
  import opened BitSeqs
  import opened Bits
  import opened Fields
  import opened Framing
  import opened Packets
  import opened Wideband

  const WB_TOP := 4

  /** A frame with its wideband layer, submode 0 standing for none or a silent
      one. */
  datatype WbFrame = WbFrame(low: Decoded, s: nat, layer: seq<nat>)

  datatype LayerRead = Layered(s: nat, layer: seq<nat>, rest: seq<bool>) | TooShort | Invalid

  /** A layer, of a submode up to top: 4 for the wideband layer, 1 for the
      ultra-wideband one. */
  function ReadLayer(v: seq<bool>, top: nat): LayerRead
    requires top <= 4
  {
    if v == [] || !v[0] then Layered(0, [], v)
    else if |v| < 4 then TooShort
    else
      var s := Num(v, 1, 3);
      if s > top then Invalid
      else
        var w := Width(WbCoded(s));
        if 4 + w > |v| then TooShort else Layered(s, SlotValues(v[4..], 0, WbCoded(s)), v[4..][w..])
  }

  datatype Step = Next(frame: WbFrame, rest: seq<bool>) | Cut | End(code: int)

  function SbStep(u: seq<bool>): (r: Step)
    ensures r.Next? ==> |r.rest| < |u|
  {
    match Header(u)
    case Stop(code) => End(code)
    case Again(_) => End(NO_MORE)
    case Found(m, v) =>
      var w := Width(NbDecoded(m));
      if w > |v| then Cut
      else
        match ReadLayer(v[w..], WB_TOP)
        case TooShort => Cut
        case Invalid => End(CORRUPT)
        case Layered(s, layer, rest) => Next(WbFrame(Decoded(m, SlotValues(v, 0, NbDecoded(m))), s, layer), rest)
  }

  datatype SbParsed = SbParsed(frames: seq<WbFrame>, cut: bool, code: int)

  function SbParse(u: seq<bool>): SbParsed
    decreases |u|
  {
    match SbStep(u)
    case End(code) => SbParsed([], false, code)
    case Cut => SbParsed([], true, NO_MORE)
    case Next(f, rest) =>
      var p := SbParse(rest);
      SbParsed([f] + p.frames, p.cut, p.code)
  }

  function WbFrameOf(e: Encoded): WbFrame {
    var low := Decoded(e.m, Masked(NbEncoded(e.m), e.f));
    if e.wide then WbFrame(low, e.s, Masked(WbCoded(e.s), e.g)) else WbFrame(low, 0, [])
  }

  function WbFrames(es: seq<Encoded>): seq<WbFrame> {
    if es == [] then [] else [WbFrameOf(es[0])] + WbFrames(es[1..])
  }

  /** A layer is read back, whatever its submode. */
  lemma LayerRoundTrip(e: Encoded, v: seq<bool>, top: nat)
    requires Encodable(e) && e.wide && e.s <= top <= 4
    ensures ReadLayer(LayerBits(e) + v, top) == Layered(e.s, Masked(WbCoded(e.s), e.g), v)
  {
    hide BitsOf, ValueOf, SlotBits, SlotValues, Width, Masked, WbCoded;
    var t := SlotBits(WbCoded(e.s), e.g) + v;
    var u := LayerBits(e) + v;
    assert u == [true] + BitsOf(e.s, 3) + t;
    assert u[4..] == t;
    Three(e.s);
    NumOf(e.s, 3, [true], t);
    FieldsRead(WbCoded(e.s), e.g, v);
  }

  lemma StepReads(e: Encoded, v: seq<bool>)
    requires Encodable(e) && (e.wide || v == [] || !v[0])
    ensures SbStep(EncodedBits(e) + v) == Next(WbFrameOf(e), v)
  {
    FrameStep(e.m, e.f, LayerBits(e) + v);
    EncodedSplit(e, v);
    SameFields(e.m);
    FieldsRead(NbEncoded(e.m), e.f, LayerBits(e) + v);
    NoLayer(e, v, WB_TOP);
    if e.wide {
      LayerRoundTrip(e, v, WB_TOP);
    }
    hide ReadLayer, Header, ItemBits, EncodedBits, LayerBits, NbEncoded, NbDecoded, SlotValues, SlotBits, Masked, Width, WbCoded;
  }

  lemma NoLayer(e: Encoded, v: seq<bool>, top: nat)
    requires top <= 4
    ensures !e.wide ==> LayerBits(e) + v == v
    ensures v == [] || !v[0] ==> ReadLayer(v, top) == Layered(0, [], v)
  {
  }

  /** A wideband decoder reads every packet back, silent layers included. */
  lemma {:induction false} WidebandReadsAll(es: seq<Encoded>, n: nat)
    requires AllEncodable(es)
    ensures SbParse(PacketBits(es) + Padding(n)) == SbParsed(WbFrames(es), false, NO_MORE)
  {
    hide AllEncodable, EncodedBits, Padding, WbFrameOf, SbStep, Encodable;
    PaddingStops(n);
    if es == [] {
      assert [] + Padding(n) == Padding(n);
      EndsAt(Padding(n));
    } else {
      PartOf(es, 0);
      WidebandReadsAll(es[1..], n);
      PacketStart(es[1..], Padding(n));
      StepReads(es[0], PacketBits(es[1..]) + Padding(n));
      assert PacketBits(es) + Padding(n) == EncodedBits(es[0]) + (PacketBits(es[1..]) + Padding(n));
    }
  }

  lemma EndsAt(u: seq<bool>)
    requires Header(u) == Stop(NO_MORE)
    ensures SbStep(u) == End(NO_MORE)
  {
  }

  // ---------------------------------------------------------- the programs

  /** The layer part of sb_decode. */
  method SbDecodeLayer(bits: SpeexBits, top: nat) returns (code: int, s: nat, layer: seq<nat>)
    requires bits.Valid() && top <= 4
    modifies bits
    ensures bits.Valid() && bits.chars == old(bits.chars)
    ensures old(bits.overflow) ==> code == 0 && bits.overflow
    ensures !old(bits.overflow) ==>
      match ReadLayer(old(bits.Unread()), top)
      case Layered(s', layer', rest) => code == 0 && !bits.overflow && s == s' && layer == layer' && bits.Unread() == rest
      case TooShort => code == 0 && bits.overflow
      case Invalid => code == CORRUPT
  {
    hide ValueOf, SlotValues, Width, WbCoded, BitsIn;
    code, s, layer := 0, 0, [];
    var wideband := 0;
    if bits.Remaining() > 0 {
      wideband := bits.Peek();
    }
    if wideband == 1 {
      ghost var v := bits.Unread();
      wideband := bits.UnpackUnsigned(1);
      s := bits.UnpackUnsigned(3);
      AfterFour(v);
      if s > top {
        return CORRUPT, s, [];
      }
      if s > 0 {
        layer := ReadWide(bits, s);
      } else {
        NoWidebandFields(v);
      }
    }
  }

  lemma AfterFour(v: seq<bool>)
    ensures |v| >= 4 ==> v[1..][..3] == v[1..4] && v[1..][3..] == v[4..]
  {
  }

  lemma NoWidebandFields(v: seq<bool>)
    ensures Width(WbCoded(0)) == 0
    ensures |v| >= 4 ==> SlotValues(v[4..], 0, WbCoded(0)) == []
  {
  }

  method ReadWide(bits: SpeexBits, s: nat) returns (layer: seq<nat>)
    requires bits.Valid() && 1 <= s <= 4
    modifies bits
    ensures bits.Valid() && bits.chars == old(bits.chars)
    ensures old(bits.overflow) ==> bits.overflow
    ensures !old(bits.overflow) ==>
      && bits.overflow == (Width(WbCoded(s)) > |old(bits.Unread())|)
      && (!bits.overflow ==> layer == SlotValues(old(bits.Unread()), 0, WbCoded(s))
                             && bits.Unread() == old(bits.Unread())[Width(WbCoded(s))..])
  {
    hide SlotValues, WbCoded, Width, BitsIn;
    ghost var b, p := bits.Contents(), bits.Cursor();
    layer := WbDecodeBody(bits, s);
    if !bits.overflow {
      ValuesMove(b, p, WbCoded(s));
      assert b[p..][Width(WbCoded(s))..] == b[p + Width(WbCoded(s))..];
    }
  }

  /** sb_decode: the fields of the next frame and its layer. */
  method SbDecode(bits: SpeexBits) returns (code: int, frame: WbFrame)
    requires bits.Valid()
    modifies bits
    ensures bits.Valid() && bits.chars == old(bits.chars)
    ensures match SbStep(old(Left(bits)))
            case End(c) => code == c && c < 0
            case Cut => code == 0 && Left(bits) == []
            case Next(f, rest) => code == 0 && frame == f && !bits.overflow && bits.Unread() == rest
  {
    hide ReadLayer, SlotValues, NbDecoded, Width, Header, BitsIn;
    frame := WbFrame(Decoded(0, []), 0, []);
    var m, values;
    code, m, values := NbDecode(bits);
    if code == 0 {
      var s, layer;
      code, s, layer := SbDecodeLayer(bits, WB_TOP);
      frame := WbFrame(Decoded(m, values), s, layer);
    }
  }

  /** Decoding until a non-zero code; a frame the packet cuts short comes last. */
  method SbDecodePacket(bits: SpeexBits) returns (frames: seq<WbFrame>, code: int)
    requires bits.Valid()
    modifies bits
    ensures bits.Valid() && bits.chars == old(bits.chars)
    ensures var p := SbParse(old(Left(bits)));
      && code == p.code && |frames| == |p.frames| + (if p.cut then 1 else 0)
      && frames[..|p.frames|] == p.frames
  {
    hide *;
    ghost var whole := SbParse(Left(bits));
    ThenNothing(whole);
    frames := [];
    code := 0;
    ghost var cut := false;
    while code == 0
      invariant bits.Valid() && bits.chars == old(bits.chars)
      invariant cut ==> frames != [] && (code == 0 ==> Left(bits) == [])
      invariant code == 0 && !cut ==> whole == Then(frames, SbParse(Left(bits)))
      invariant code == 0 && cut ==> whole == SbParsed(frames[..|frames| - 1], true, NO_MORE)
      invariant code != 0 ==> whole == SbParsed(if cut then frames[..|frames| - 1] else frames, cut, code)
      decreases code == 0, if cut then 0 else 1, |Left(bits)|
    {
      ghost var u := Left(bits);
      SbParseStep(frames, u);
      NothingStep();
      var frame;
      code, frame := SbDecode(bits);
      LeftIs(bits);
      if code == 0 {
        frames := frames + [frame];
        assert frames[..|frames| - 1] + [frame] == frames;
        cut := SbStep(u).Cut?;
      }
    }
  }

  function Then(frames: seq<WbFrame>, p: SbParsed): SbParsed {
    SbParsed(frames + p.frames, p.cut, p.code)
  }

  lemma ThenNothing(p: SbParsed)
    ensures Then([], p) == p
  {
    assert [] + p.frames == p.frames;
  }

  lemma NothingStep()
    ensures SbStep([]) == End(NO_MORE)
  {
    NothingLeft();
  }

  lemma SbParseStep(frames: seq<WbFrame>, u: seq<bool>)
    ensures match SbStep(u)
            case End(c) => Then(frames, SbParse(u)) == SbParsed(frames, false, c)
            case Cut => Then(frames, SbParse(u)) == SbParsed(frames, true, NO_MORE)
            case Next(f, rest) => |rest| < |u| && Then(frames, SbParse(u)) == Then(frames + [f], SbParse(rest))
  {
    hide SbStep;
    assert frames + [] == frames;
    if SbStep(u).Next? {
      var f, p := SbStep(u).frame, SbParse(SbStep(u).rest);
      assert frames + ([f] + p.frames) == frames + [f] + p.frames;
    }
  }

  // ------------------------------------------------------ over the wire

  /** Encodes a packet as an application does: reset, encode, write. */
  method SendPacket(bits: SpeexBits, es: seq<Encoded>, out: array<byte>) returns (n: nat)
    requires bits.Valid() && bits.owner && out != bits.chars && AllEncodable(es)
    modifies bits, bits.chars, out
    ensures bits.Valid() && n <= out.Length
    ensures var total := PacketBits(es) + Padding(|PacketBits(es)|);
      && 8 * n <= |total| && BitsIn(out[..n], 8 * n) == total[..8 * n]
      && (n < out.Length ==> 8 * n == |total|)
  {
    hide PacketBits, BitsIn, Padding, Encodable, Bit;
    bits.Reset();
    EncodePacket(bits, es);
    assert bits.Contents() == PacketBits(es) by {
      assert [] + PacketBits(es) == PacketBits(es);
    }
    PaddingLength(|PacketBits(es)|);
    n := bits.Write(out, out.Length);
  }

  /** Sends a packet and receives it with a narrowband and with a wideband
      decoder. */
  method RoundTrip(es: seq<Encoded>, max: nat) returns (low: seq<Decoded>, lowCode: int, wide: seq<WbFrame>, wideCode: int)
    requires AllEncodable(es) && |PacketBits(es)| + 8 <= 8 * max
    ensures wide == WbFrames(es) && wideCode == NO_MORE
    ensures NoneSilent(es) ==> low == NbFrames(es) && lowCode == NO_MORE
  {
    hide *;
    var sender := new SpeexBits();
    var receiver := new SpeexBits();
    var packet := new byte[max];
    ghost var total := PacketBits(es) + Padding(|PacketBits(es)|);
    PaddingFits(|PacketBits(es)|);
    WritingValid(sender);
    WritingValid(receiver);
    var n := SendPacket(sender, es, packet);
    assert 8 * n == |total| && total[..8 * n] == total;
    WidebandReadsAll(es, |PacketBits(es)|);
    Receive(receiver, packet[..n], total);
    wide, wideCode := SbDecodePacket(receiver);
    assert wide[..|WbFrames(es)|] == wide;
    Receive(receiver, packet[..n], total);
    low, lowCode := DecodePacket(receiver);
    if NoneSilent(es) {
      ReadsAllPlain(es, |PacketBits(es)|);
      assert low[..|NbFrames(es)|] == low;
    }
  }

  /** speex_bits_read_from on an owned buffer. */
  method Receive(bits: SpeexBits, buf: seq<byte>, ghost total: seq<bool>)
    requires bits.Valid() && bits.owner && BitsIn(buf, 8 * |buf|) == total
    modifies bits, bits.chars
    ensures bits.Valid() && Left(bits) == total && (bits.chars == old(bits.chars) || fresh(bits.chars))
  {
    hide BitsIn;
    bits.ReadFrom(buf);
    assert buf[..|buf|] == buf;
  }

  lemma WritingValid(bits: SpeexBits)
    ensures bits.Writing() ==> bits.Valid()
  {
  }

  lemma PaddingFits(n: nat)
    ensures |Padding(n)| < 8
  {
  }
}
