/** Finding the next narrowband frame in a packet: the header loop of
    nb_decode, with the in-band handlers of speex_callbacks.c. */
module Framing {
  import opened IntArith
  import opened BitSeqs
  import opened Bits
  import opened Fields

  /** Where the search for a header got to. */
  datatype Search = Found(m: nat, rest: seq<bool>) | Again(rest: seq<bool>) | Stop(code: int)

  datatype Reach = At(rest: seq<bool>) | Fail(code: int)

  const NO_MORE := -1
  const CORRUPT := -2

  function Num(u: seq<bool>, at: nat, n: nat): nat
    requires at + n <= |u|
  {
    ValueOf(u[at..at + n])
  }

  /** Past a layer of k bits, of which 4 are read: k == 0 moves back to its
      layer bit. None when the packet ends first. */
  function Skip(u: seq<bool>): (r: Reach)
    requires |u| >= 4
  {
    var k := WbSkip(Num(u, 1, 3));
    if k > |u| then Fail(NO_MORE) else At(u[k..])
  }

  /** Past at most two layers and a zero layer bit. */
  function Layers(u: seq<bool>): Reach {
    if |u| < 5 then Fail(NO_MORE)
    else if !u[0] then At(u[1..])
    else
      match Skip(u)
      case Fail(code) => Fail(code)
      case At(v) =>
        if |v| < 5 then Fail(NO_MORE)
        else if !v[0] then At(v[1..])
        else
          match Skip(v)
          case Fail(code) => Fail(code)
          case At(w) => if w == [] then Fail(NO_MORE) else if w[0] then Fail(CORRUPT) else At(w[1..])
  }

  function InBandSize(id: nat): nat {
    if id < 2 then 1 else if id < 8 then 4 else if id < 10 then 8
    else if id < 12 then 16 else if id < 14 then 32 else 64
  }

  /** The sizes are powers of two that grow with the request: two requests of 1
      bit, six of 4, and two each of 8, 16, 32 and 64. */
  lemma RequestSizes(id: nat, k: nat)
    requires id < 16 && k <= 6
    ensures InBandSize(id) <= Pow2(k) <==> id < (if k < 2 then 2 else if k == 2 then 8 else 2 * k + 4)
  {
    assert Pow2(2) == 4;
    assert Pow2(4) == 16;
    assert Pow2(6) == 64;
  }

  function UserSize(n: nat): nat {
    5 + 8 * n
  }

  /** The lengths a user request can have are 5 bits and up to 15 bytes. */
  lemma UserSizes(n: nat, bits: nat)
    requires n < 16
    ensures bits == UserSize(n) <==> bits >= 5 && (bits - 5) % 8 == 0 && (bits - 5) / 8 == n
  {
  }

  /** A request with a 4-bit number and a size that depends on it. */
  function Request(u: seq<bool>, size: nat -> nat): (r: Search)
    ensures !r.Found? && (r.Stop? ==> r.code == NO_MORE)
  {
    if |u| < 4 then Stop(NO_MORE)
    else
      var k := 4 + size(Num(u, 0, 4));
      if k > |u| then Stop(NO_MORE) else Again(u[k..])
  }

  function Mode(u: seq<bool>): Search {
    if |u| < 4 then Stop(NO_MORE)
    else
      var m := Num(u, 0, 4);
      if m == 15 then Stop(NO_MORE)
      else if m == 14 then Request(u[4..], InBandSize)
      else if m == 13 then Request(u[4..], UserSize)
      else if m > 8 then Stop(CORRUPT)
      else Found(m, u[4..])
  }

  /** One pass of the loop. */
  function Pass(u: seq<bool>): Search {
    match Layers(u)
    case Fail(code) => Stop(code)
    case At(v) => Mode(v)
  }

  /** A pass that goes on has consumed at least ten bits, one that finds a
      frame at least five. */
  lemma PassConsumes(u: seq<bool>)
    ensures Pass(u).Again? ==> |Pass(u).rest| + 10 <= |u|
    ensures Pass(u).Found? ==> |Pass(u).rest| + 5 <= |u| && Pass(u).m <= 8
    ensures Pass(u).Stop? ==> Pass(u).code == NO_MORE || Pass(u).code == CORRUPT
  {
    LayersConsume(u);
    hide Layers;
    if Layers(u).At? {
      ModeConsumes(Layers(u).rest);
      hide Mode;
    }
  }

  lemma LayersConsume(u: seq<bool>)
    ensures Layers(u).At? ==> |Layers(u).rest| + 1 <= |u|
    ensures Layers(u).Fail? ==> Layers(u).code == NO_MORE || Layers(u).code == CORRUPT
  {
  }

  lemma ModeConsumes(u: seq<bool>)
    ensures Mode(u).Again? ==> |Mode(u).rest| + 9 <= |u|
    ensures Mode(u).Found? ==> |Mode(u).rest| + 4 <= |u| && Mode(u).m <= 8
    ensures Mode(u).Stop? ==> Mode(u).code == NO_MORE || Mode(u).code == CORRUPT
  {
  }

  function Header(u: seq<bool>): (r: Search)
    ensures !r.Again?
    ensures r.Found? ==> |r.rest| + 5 <= |u| && r.m <= 8
    decreases |u|
  {
    PassConsumes(u);
    var r := Pass(u);
    if r.Again? then Header(r.rest) else r
  }

  // ------------------------------------------------------------ the loop

  /** Skips a layer whose layer bit is read. */
  method SkipLayer(bits: SpeexBits)
    requires bits.Valid() && !bits.overflow && bits.Cursor() >= 1 && bits.Cursor() + 3 <= bits.nbBits
    modifies bits
    ensures bits.Valid() && bits.chars == old(bits.chars)
    ensures match Skip(old(bits.Contents()[bits.Cursor() - 1..]))
            case At(v) => !bits.overflow && bits.Unread() == v
            case Fail(_) => bits.overflow
  {
    hide ValueOf;
    ghost var b, p := bits.Contents(), bits.Cursor() - 1;
    var submode := bits.UnpackUnsigned(3);
    SubmodeBits(b, p);
    var advance: int := WbSkip(submode);
    bits.Advance(advance - 4);
    DropMore(b, p, advance);
  }

  lemma SubmodeBits(b: seq<bool>, p: nat)
    requires p + 4 <= |b|
    ensures b[p + 1..][..3] == b[p..][1..4]
  {
  }

  lemma DropMore(b: seq<bool>, p: nat, k: int)
    requires p <= |b| && k >= 0
    ensures p + k <= |b| ==> b[p..][k..] == b[p + k..]
  {
  }

  method FindLayerEnd(bits: SpeexBits) returns (code: int)
    requires bits.Valid()
    modifies bits
    ensures bits.Valid() && bits.chars == old(bits.chars)
    ensures match Layers(old(Left(bits)))
            case At(v) => code == 0 && Left(bits) == v
            case Fail(c) => if code == 0 then c == NO_MORE && Left(bits) == [] else code == c
    ensures code == 0 ==> |old(Left(bits))| >= 5
  {
    hide ValueOf, Num, WbSkip, BitsIn;
    if bits.Remaining() < 5 {
      return NO_MORE;
    }
    var wideband := TakeOne(bits);
    if wideband {
      SkipLayer(bits);
      if bits.Remaining() < 5 {
        return NO_MORE;
      }
      wideband := TakeOne(bits);
      if wideband {
        SkipLayer(bits);
        wideband := TakeOne(bits);
        if wideband {
          return CORRUPT;
        }
      }
    }
    return 0;
  }

  /** One bit, false when there is none. */
  method TakeOne(bits: SpeexBits) returns (bit: bool)
    requires bits.Valid()
    modifies bits
    ensures bits.Valid() && bits.chars == old(bits.chars) && bits.nbBits == old(bits.nbBits)
    ensures bits.overflow == (old(Left(bits)) == [])
    ensures old(Left(bits)) == [] ==> !bit
    ensures old(Left(bits)) != [] ==>
      bit == old(Left(bits))[0] && Left(bits) == old(Left(bits))[1..]
      && bits.Cursor() == old(bits.Cursor()) + 1 && bits.Contents()[bits.Cursor() - 1..] == old(Left(bits))
  {
    ghost var u := Left(bits);
    var v := bits.UnpackUnsigned(1);
    if u != [] {
      OneBit(u[..1]);
    }
    bit := v == 1;
  }

  /** speex_inband_handler for a request nobody registered for. */
  method InBandHandler(bits: SpeexBits)
    requires bits.Valid() && !bits.overflow
    modifies bits
    ensures bits.Valid() && bits.chars == old(bits.chars)
    ensures AfterRequest(bits, old(bits.Unread()), InBandSize)
  {
    hide ValueOf, BitsIn;
    ghost var u := bits.Unread();
    var id := bits.UnpackUnsigned(4);
    var adv: nat;
    if id < 2 {
      adv := 1;
    } else if id < 8 {
      adv := 4;
    } else if id < 10 {
      adv := 8;
    } else if id < 12 {
      adv := 16;
    } else if id < 14 {
      adv := 32;
    } else {
      adv := 64;
    }
    assert adv == InBandSize(id);
    bits.Advance(adv);
    Consumed(u, adv);
  }

  /** speex_default_user_handler */
  method UserHandler(bits: SpeexBits)
    requires bits.Valid() && !bits.overflow
    modifies bits
    ensures bits.Valid() && bits.chars == old(bits.chars)
    ensures AfterRequest(bits, old(bits.Unread()), UserSize)
  {
    hide ValueOf, BitsIn;
    ghost var u := bits.Unread();
    var req_size := bits.UnpackUnsigned(4);
    bits.Advance(5 + 8 * req_size);
    Consumed(u, UserSize(req_size));
  }

  ghost predicate AfterRequest(bits: SpeexBits, u: seq<bool>, size: nat -> nat)
    requires bits.Valid()
    reads bits, bits.chars
  {
    match Request(u, size)
    case Again(v) => !bits.overflow && bits.Unread() == v
    case _ => bits.overflow
  }

  lemma Consumed(u: seq<bool>, k: nat)
    ensures |u| >= 4 ==> u[0..4] == u[..4]
    ensures |u| >= 4 + k ==> u[4..][k..] == u[4 + k..]
  {
  }

  /** One pass of the header loop. */
  method OnePass(bits: SpeexBits) returns (code: int, m: nat)
    requires bits.Valid()
    modifies bits
    ensures bits.Valid() && bits.chars == old(bits.chars)
    ensures match Pass(old(Left(bits)))
            case Stop(c) => code == c || (code == 0 && m > 8 && c == NO_MORE && bits.overflow)
            case Found(m', v) => code == 0 && m == m' && !bits.overflow && bits.Unread() == v
            case Again(v) => code == 0 && m > 8 && !bits.overflow && bits.Unread() == v
    ensures code == 0 ==> |old(Left(bits))| >= 5
  {
    hide Layers, Request, BitsIn, ValueOf;
    m := 0;
    code := FindLayerEnd(bits);
    if code != 0 {
      return;
    }
    if bits.Remaining() < 4 {
      return NO_MORE, 0;
    }
    ghost var u := bits.Unread();
    m := bits.UnpackUnsigned(4);
    assert u[0..4] == u[..4] && bits.Unread() == u[4..];
    if m == 15 {
      return NO_MORE, 0;
    } else if m == 14 {
      InBandHandler(bits);
    } else if m == 13 {
      UserHandler(bits);
    } else if m > 8 {
      return CORRUPT, 0;
    }
  }

  /** The header loop of nb_decode: the submode of the next narrowband frame,
      or a negative code. */
  method NextFrame(bits: SpeexBits) returns (code: int, m: nat)
    requires bits.Valid()
    modifies bits
    ensures bits.Valid() && bits.chars == old(bits.chars)
    ensures match Header(old(Left(bits)))
            case Found(m', v) => code == 0 && m == m' && !bits.overflow && bits.Unread() == v
            case Stop(c) => code == c && c < 0
            case Again(_) => false
  {
    hide Pass, BitsIn;
    ghost var u0 := Left(bits);
    NothingLeft();
    m := 14;
    while m > 8
      invariant bits.Valid() && bits.chars == old(bits.chars)
      invariant m > 8 ==> Header(Left(bits)) == Header(u0)
      invariant m <= 8 ==> !bits.overflow && Header(u0) == Found(m, bits.Unread())
      decreases m > 8, if bits.overflow then 0 else 1, |Left(bits)|
    {
      PassConsumes(Left(bits));
      code, m := OnePass(bits);
      if code != 0 {
        return;
      }
    }
    code := 0;
  }

  lemma NothingLeft()
    ensures Pass([]) == Stop(NO_MORE) && Header([]) == Stop(NO_MORE)
  {
  }
}
