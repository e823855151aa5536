/** Packets of sb_encode read back by sb_decode, and by a narrowband
    decoder. */
module Wideband {
  import opened BitSeqs
  import opened Bits
  import opened Fields
  import opened Framing
  import opened Packets

  // ----------------------------------------- a narrowband decoder's view

  function NbFrames(es: seq<Encoded>): seq<Decoded> {
    if es == [] then [] else [Decoded(es[0].m, Masked(NbEncoded(es[0].m), es[0].f))] + NbFrames(es[1..])
  }

  predicate Silent(e: Encoded) {
    e.wide && e.s == 0
  }

  ghost predicate AllEncodable(es: seq<Encoded>) {
    forall i :: 0 <= i < |es| ==> Encodable(es[i])
  }

  ghost predicate NoneSilent(es: seq<Encoded>) {
    forall i :: 0 <= i < |es| ==> !Silent(es[i])
  }

  lemma PartOf(es: seq<Encoded>, k: nat)
    requires AllEncodable(es) && k < |es|
    ensures AllEncodable(es[..k]) && AllEncodable(es[k..]) && Encodable(es[k]) && AllEncodable(es[k + 1..])
    ensures NoneSilent(es) ==> NoneSilent(es[k + 1..]) && !Silent(es[k])
  {
  }

  /** One frame, with or without a layer, before anything narrowband. */
  lemma PlainFrame(e: Encoded, v: seq<bool>)
    requires Encodable(e) && !Silent(e) && (v == [] || !v[0])
    ensures Parse(EncodedBits(e) + v) == Before([Decoded(e.m, Masked(NbEncoded(e.m), e.f))], Parse(v))
  {
    var x := Frame(e.m, e.f);
    FrameParses(x, LayerBits(e) + v);
    EncodedSplit(e, v);
    if e.wide {
      LayerItem(e, v);
      OneLayer(Layer(e.s, SlotBits(WbCoded(e.s), e.g)), v);
      hide *;
      Transparent(LayerBits(e) + v, v);
    } else {
      assert LayerBits(e) + v == v;
    }
  }

  lemma EncodedSplit(e: Encoded, v: seq<bool>)
    ensures EncodedBits(e) + v == ItemBits(Frame(e.m, e.f)) + (LayerBits(e) + v)
    ensures Encodable(e) ==> Fits(Frame(e.m, e.f))
    ensures EncodedBits(e) != [] && !EncodedBits(e)[0]
  {
    hide BitsOf, SlotBits, NbEncoded, LayerBits;
  }

  lemma LayerItem(e: Encoded, v: seq<bool>)
    requires e.wide && 1 <= e.s <= 4
    ensures var x := Layer(e.s, SlotBits(WbCoded(e.s), e.g)); Fits(x) && LayerBits(e) + v == ItemBits(x) + v
  {
    SlotBitsLength(WbCoded(e.s), e.g);
    WbLayerSize(e.s);
    hide BitsOf, SlotBits, WbCoded, Width;
  }

  lemma PacketStart(es: seq<Encoded>, v: seq<bool>)
    requires v == [] || !v[0]
    ensures PacketBits(es) + v == [] || !(PacketBits(es) + v)[0]
  {
    if es != [] {
      EncodedSplit(es[0], []);
      hide EncodedBits;
    }
  }

  /** A narrowband decoder reads every frame of a packet without silent
      layers, wideband layers or not. */
  lemma {:induction false} PlainPacket(es: seq<Encoded>, v: seq<bool>)
    requires AllEncodable(es) && NoneSilent(es) && (v == [] || !v[0])
    ensures Parse(PacketBits(es) + v) == Before(NbFrames(es), Parse(v))
  {
    hide *;
    PacketUnfold(es, v);
    if es == [] {
      BeforeNothing(Parse(v));
    } else {
      PartOf(es, 0);
      PlainPacket(es[1..], v);
      PacketStart(es[1..], v);
      PlainFrame(es[0], PacketBits(es[1..]) + v);
      BeforeMore([Decoded(es[0].m, Masked(NbEncoded(es[0].m), es[0].f))], NbFrames(es[1..]), Parse(v));
    }
  }

  lemma PacketUnfold(es: seq<Encoded>, v: seq<bool>)
    ensures es == [] ==> PacketBits(es) + v == v && NbFrames(es) == []
    ensures es != [] ==>
      && PacketBits(es) + v == EncodedBits(es[0]) + (PacketBits(es[1..]) + v)
      && NbFrames(es) == [Decoded(es[0].m, Masked(NbEncoded(es[0].m), es[0].f))] + NbFrames(es[1..])
  {
    hide EncodedBits, Masked, NbEncoded;
  }

  lemma BeforeMore(a: seq<Decoded>, b: seq<Decoded>, p: Parsed)
    ensures Before(a, Before(b, p)) == Before(a + b, p)
  {
    assert a + (b + p.frames) == a + b + p.frames;
  }

  /** A frame with a silent layer is read, and nothing after it. */
  lemma SilentFrame(e: Encoded, v: seq<bool>)
    requires Encodable(e) && Silent(e)
    ensures Parse(EncodedBits(e) + v)
         == Parsed([Decoded(e.m, Masked(NbEncoded(e.m), e.f))], false, if v == [] then NO_MORE else CORRUPT)
  {
    EncodedSplit(e, v);
    FrameParses(Frame(e.m, e.f), LayerBits(e) + v);
    SilentBits(e, v);
    if v != [] {
      OddLayer(0, v);
    } else {
      ShortStops([true] + BitsOf(0, 3));
    }
  }

  lemma SilentBits(e: Encoded, v: seq<bool>)
    requires Silent(e)
    ensures LayerBits(e) + v == [true] + BitsOf(0, 3) + v
    ensures v == [] ==> LayerBits(e) + v == [true] + BitsOf(0, 3)
  {
    NoSlots(e.g);
    hide BitsOf, SlotBits;
  }

  lemma ShortStops(u: seq<bool>)
    requires |u| < 5
    ensures Header(u) == Stop(NO_MORE)
  {
  }

  lemma {:induction false} PacketConcat(a: seq<Encoded>, b: seq<Encoded>)
    ensures PacketBits(a + b) == PacketBits(a) + PacketBits(b)
  {
    hide *;
    if a == [] {
      NoBits(b);
    } else {
      PacketConcat(a[1..], b);
      assert (a + b)[1..] == a[1..] + b;
      FirstBits(a);
      FirstBits(a + b);
      Joined(EncodedBits(a[0]), PacketBits(a[1..]), PacketBits(b));
    }
  }

  lemma NoBits(b: seq<Encoded>)
    ensures PacketBits([] + b) == PacketBits([]) + PacketBits(b)
  {
    assert [] + b == b;
  }

  lemma FirstBits(es: seq<Encoded>)
    requires es != []
    ensures PacketBits(es) == EncodedBits(es[0]) + PacketBits(es[1..])
  {
    hide EncodedBits;
  }

  lemma Joined(x: seq<bool>, y: seq<bool>, z: seq<bool>)
    ensures (x + y) + z == x + (y + z)
  {
  }

  lemma {:induction false} FramesLength(es: seq<Encoded>)
    ensures |NbFrames(es)| == |es|
  {
    if es != [] {
      FramesLength(es[1..]);
    }
  }

  /** A narrowband decoder stops at the first silent layer. */
  lemma UpToSilent(a: seq<Encoded>, e: Encoded, v: seq<bool>)
    requires AllEncodable(a) && NoneSilent(a) && Encodable(e) && Silent(e)
    ensures Parse(PacketBits(a) + (EncodedBits(e) + v)).frames
         == NbFrames(a) + [Decoded(e.m, Masked(NbEncoded(e.m), e.f))]
  {
    EncodedSplit(e, v);
    SilentFrame(e, v);
    hide Parse, EncodedBits, Silent, Encodable, AllEncodable, NoneSilent, Masked, PacketBits, NbFrames;
    assert EncodedBits(e) + v != [] && !(EncodedBits(e) + v)[0];
    PlainPacket(a, EncodedBits(e) + v);
  }

  lemma CutAt(es: seq<Encoded>, k: nat, v: seq<bool>)
    requires k < |es|
    ensures PacketBits(es) + v == PacketBits(es[..k]) + (EncodedBits(es[k]) + (PacketBits(es[k + 1..]) + v))
  {
    hide EncodedBits;
    var a, b := es[..k], es[k..];
    assert es == a + b && b[1..] == es[k + 1..] && b[0] == es[k];
    PacketConcat(a, b);
  }

  lemma FirstSilent(es: seq<Encoded>, k: nat, n: nat)
    requires AllEncodable(es) && k < |es| && Silent(es[k]) && NoneSilent(es[..k])
    ensures Parse(PacketBits(es) + Padding(n)).frames == NbFrames(es[..k + 1])
  {
    hide *;
    PartOf(es, k);
    assert es[..k] + [es[k]] == es[..k + 1];
    CutAt(es, k, Padding(n));
    FramesSnoc(es[..k], es[k]);
    UpToSilent(es[..k], es[k], PacketBits(es[k + 1..]) + Padding(n));
  }

  lemma {:induction false} FindSilent(es: seq<Encoded>) returns (k: nat)
    ensures k <= |es| && (k < |es| ==> Silent(es[k])) && NoneSilent(es[..k])
  {
    k := 0;
    while k < |es| && !Silent(es[k])
      invariant k <= |es| && forall i :: 0 <= i < k ==> !Silent(es[i])
    {
      k := k + 1;
    }
  }

  /** Exactly the packets whose frames before the last carry no silent layer
      are fully read by a narrowband decoder. */
  lemma NarrowbandReadsAll(es: seq<Encoded>, n: nat)
    requires AllEncodable(es)
    ensures Parse(PacketBits(es) + Padding(n)).frames == NbFrames(es)
       <==> (forall i :: 0 <= i < |es| - 1 ==> !Silent(es[i]))
  {
    hide *;
    var k := FindSilent(es);
    if k == |es| {
      assert es[..k] == es;
      ReadsAllPlain(es, n);
    } else {
      FirstSilent(es, k, n);
      FramesLength(es);
      FramesLength(es[..k + 1]);
      assert k == |es| - 1 ==> es[..k + 1] == es;
      SilentWhere(es, k);
    }
    SilentNowhere(es);
  }

  lemma SilentWhere(es: seq<Encoded>, k: nat)
    requires k < |es| && Silent(es[k]) && NoneSilent(es[..k])
    ensures k == |es| - 1 <==> forall i :: 0 <= i < |es| - 1 ==> !Silent(es[i])
  {
    hide Silent;
    if k == |es| - 1 {
      forall i | 0 <= i < |es| - 1
        ensures !Silent(es[i])
      {
        assert es[..k][i] == es[i];
      }
    }
  }

  lemma SilentNowhere(es: seq<Encoded>)
    ensures NoneSilent(es) ==> forall i :: 0 <= i < |es| - 1 ==> !Silent(es[i])
  {
  }

  lemma ReadsAllPlain(es: seq<Encoded>, n: nat)
    requires AllEncodable(es) && NoneSilent(es)
    ensures Parse(PacketBits(es) + Padding(n)) == Parsed(NbFrames(es), false, NO_MORE)
  {
    hide Parse, PacketBits, Padding, AllEncodable, NoneSilent;
    PaddingStops(n);
    PlainPacket(es, Padding(n));
    StopsAt(Padding(n));
    assert NbFrames(es) + [] == NbFrames(es);
  }

  lemma {:induction false} FramesSnoc(a: seq<Encoded>, e: Encoded)
    ensures NbFrames(a + [e]) == NbFrames(a) + [Decoded(e.m, Masked(NbEncoded(e.m), e.f))]
  {
    hide Masked;
    if a == [] {
      assert [] + [e] == [e] && [e][1..] == [];
    } else {
      FramesSnoc(a[1..], e);
      assert (a + [e])[1..] == a[1..] + [e];
    }
  }
}
