/** The bit packer and reader of bits.c. */
module Bits {
  import opened IntArith
  import opened BitSeqs

  type byte = bv8

  /** 1 << (7-k): the place of bit k of a byte, bit 0 being the first in the
      stream. */
  function Mask(k: int): byte
    requires 0 <= k < 8
  {
    if k == 0 then 0x80 else if k == 1 then 0x40 else if k == 2 then 0x20 else if k == 3 then 0x10
    else if k == 4 then 8 else if k == 5 then 4 else if k == 6 then 2 else 1
  }

  predicate Bit(b: byte, k: int)
    requires 0 <= k < 8
  {
    b & Mask(k) != 0
  }

  /** b |= bit << (7-k) */
  function OrBit(b: byte, k: int, bit: bool): byte
    requires 0 <= k < 8
  {
    if bit then b | Mask(k) else b
  }

  /** The first bit of a byte is its highest. */
  lemma BitIsShift(b: byte, k: int)
    requires 0 <= k < 8
    ensures Bit(b, k) <==> (b >> (7 - k)) & 1 == 1
  {
  }

  lemma OrBitIsShift(b: byte, k: int)
    requires 0 <= k < 8
    ensures OrBit(b, k, true) == b | (1 << (7 - k)) && OrBit(b, k, false) == b
  {
  }

  lemma OrBitAt(b: byte, k: int, bit: bool, j: int)
    requires 0 <= k < 8 && 0 <= j < 8
    ensures Bit(OrBit(b, k, bit), j) == (Bit(b, j) || (bit && j == k))
  {
    MaskOr(b, Mask(k), Mask(j));
    MasksDiffer(k, j);
  }

  lemma MaskOr(b: byte, m: byte, m': byte)
    ensures (b | m) & m' == (b & m') | (m & m')
  {
  }

  lemma MasksDiffer(k: int, j: int)
    requires 0 <= k < 8 && 0 <= j < 8
    ensures Mask(k) & Mask(j) == if j == k then Mask(k) else 0
    ensures Mask(k) != 0
  {
  }

  lemma ZeroByte(k: int)
    requires 0 <= k < 8
    ensures !Bit(0, k)
  {
  }

  /** The first n bits of a byte string. */
  function BitsIn(s: seq<byte>, n: nat): (b: seq<bool>)
    requires n <= 8 * |s|
    ensures |b| == n
  {
    seq(n, i requires 0 <= i < n => Bit(s[i / 8], i % 8))
  }

  class SpeexBits {
    var chars: array<byte>
    var nbBits: nat
    var charPtr: nat
    var bitPtr: nat
    var overflow: bool
    const owner: bool

    ghost predicate Valid()
      reads this
    {
      && chars.Length > 0 && bitPtr < 8
      && Cursor() <= nbBits <= 8 * chars.Length
    }

    function Cursor(): nat
      reads this
    {
      8 * charPtr + bitPtr
    }

    /** All bits of the buffer, read or not. */
    function Contents(): (b: seq<bool>)
      requires nbBits <= 8 * chars.Length
      reads this, chars
      ensures |b| == nbBits
    {
      BitsIn(chars[..], nbBits)
    }

    /** The bits not read yet. */
    function Unread(): seq<bool>
      requires Valid()
      reads this, chars
    {
      Contents()[Cursor()..]
    }

    /** The cursor is at the end, and what follows it in its byte is clear, as
        after a reset or any number of packs. */
    ghost predicate Writing()
      reads this, chars
    {
      && Valid() && Cursor() == nbBits && charPtr < chars.Length
      && forall k :: bitPtr <= k < 8 ==> !Bit(chars[charPtr], k)
    }

    /** speex_bits_init */
    constructor ()
      ensures Writing() && fresh(chars) && Contents() == [] && owner && !overflow
    {
      var buf := new byte[2000](_ => 0);
      chars := buf;
      nbBits, charPtr, bitPtr, overflow := 0, 0, 0, false;
      owner := true;
      new;
      forall k | 0 <= k < 8
        ensures !Bit(chars[0], k)
      {
        ZeroByte(k);
      }
    }

    /** speex_bits_init_buffer */
    constructor OnBuffer(buff: array<byte>)
      requires buff.Length > 0
      modifies buff
      ensures Writing() && chars == buff && Contents() == [] && !owner && !overflow
    {
      chars := buff;
      nbBits, charPtr, bitPtr, overflow := 0, 0, 0, false;
      owner := false;
      new;
      buff[0] := 0;
      forall k | 0 <= k < 8
        ensures !Bit(chars[0], k)
      {
        ZeroByte(k);
      }
    }

    method Reset()
      requires Valid()
      modifies this, chars
      ensures Writing() && Contents() == [] && !overflow && chars == old(chars)
    {
      chars[0] := 0;
      nbBits, charPtr, bitPtr, overflow := 0, 0, 0, false;
      forall k | 0 <= k < 8
        ensures !Bit(chars[0], k)
      {
        ZeroByte(k);
      }
    }

    method Rewind()
      requires Valid()
      modifies this
      ensures Valid() && Contents() == old(Contents()) && Unread() == Contents() && !overflow && chars == old(chars)
    {
      charPtr, bitPtr, overflow := 0, 0, false;
      assert Contents()[0..] == Contents();
    }

    /** One bit of speex_bits_pack. */
    method PutBit(bit: bool)
      requires Writing() && (bitPtr == 7 ==> charPtr + 1 < chars.Length)
      modifies this, chars
      ensures Writing() && Contents() == old(Contents()) + [bit]
      ensures chars == old(chars) && overflow == old(overflow)
      ensures 8 * charPtr + bitPtr == old(8 * charPtr + bitPtr) + 1
    {
      ghost var s, n := chars[..], nbBits;
      var c, k := charPtr, bitPtr;
      assert n / 8 == c && n % 8 == k;
      chars[c] := OrBit(chars[c], k, bit);
      bitPtr := bitPtr + 1;
      if bitPtr == 8 {
        bitPtr := 0;
        charPtr := charPtr + 1;
        chars[charPtr] := 0;
      }
      nbBits := nbBits + 1;
      PutBitKeeps(s, chars[..], c, k, bit, n);
      forall j | bitPtr <= j < 8
        ensures !Bit(chars[charPtr], j)
      {
        if bitPtr == 0 {
          ZeroByte(j);
        } else {
          OrBitAt(s[c], k, bit, j);
        }
      }
    }

    /** Replaces the buffer by a larger one with the same contents. */
    method Grow(size: nat)
      requires Valid() && size >= chars.Length
      modifies this
      ensures Valid() && chars.Length == size && fresh(chars)
      ensures chars[..old(chars.Length)] == old(chars[..])
      ensures nbBits == old(nbBits) && charPtr == old(charPtr) && bitPtr == old(bitPtr) && overflow == old(overflow)
      ensures Contents() == old(Contents())
      ensures old(Writing()) ==> Writing()
    {
      ghost var s := chars[..];
      var tmp := new byte[size](_ => 0);
      forall i | 0 <= i < chars.Length {
        tmp[i] := chars[i];
      }
      chars := tmp;
      assert chars[..|s|] == s;
      forall i | 0 <= i < nbBits
        ensures Contents()[i] == BitsIn(s, nbBits)[i]
      {
        assert chars[i / 8] == s[i / 8];
      }
      assert charPtr < |s| ==> chars[charPtr] == s[charPtr];
    }

    /** Appends the low n bits of data, growing an owned buffer when needed; a
        borrowed buffer that is too small is left alone. */
    method Pack(data: int, n: nat)
      requires Writing() && n <= 32
      modifies this, chars
      ensures Writing() && overflow == old(overflow)
      ensures chars == old(chars) || (owner && fresh(chars))
      ensures var fits := owner || old(charPtr + (n + bitPtr) / 8 < chars.Length);
        Contents() == if fits then old(Contents()) + BitsOf(data, n) else old(Contents())
    {
      var d := data % Pow2(32);
      LowBits(data, n, 32);
      if charPtr + (n + bitPtr) / 8 >= chars.Length {
        if owner {
          Grow((chars.Length + 5) * 3 / 2);
        } else {
          return;
        }
      }
      PutBits(d, n);
    }

    /** The loop of speex_bits_pack. */
    method PutBits(d: nat, n: nat)
      requires Writing() && charPtr + (n + bitPtr) / 8 < chars.Length
      modifies this, chars
      ensures Writing() && overflow == old(overflow) && chars == old(chars)
      ensures Contents() == old(Contents()) + BitsOf(d, n)
    {
      hide Bit, BitsOf, Pow2, Contents;
      ghost var before := Contents();
      var left := n;
      assert before == before + BitsOf(d, n)[..0];
      while left > 0
        invariant 0 <= left <= n && chars == old(chars) && overflow == old(overflow)
        invariant Writing() && 8 * charPtr + bitPtr + left < 8 * chars.Length
        invariant Contents() == before + BitsOf(d, n)[..n - left]
        decreases left
      {
        var bit := d / Pow2(left - 1) % 2 == 1;
        TopOfRest(d, n, left);
        RoomForBit(left);
        PutBit(bit);
        assert before + BitsOf(d, n)[..n - left] + [bit] == before + BitsOf(d, n)[..n - left + 1];
        left := left - 1;
      }
    }

    lemma RoomForBit(left: nat)
      requires Valid() && left > 0 && 8 * charPtr + bitPtr + left < 8 * chars.Length
      ensures bitPtr == 7 ==> charPtr + 1 < chars.Length
    {
    }

    /** Reads n bits as a number, or sets overflow and reads nothing. */
    method UnpackUnsigned(n: nat) returns (v: nat)
      requires Valid() && n <= 32
      modifies this
      ensures Valid() && chars == old(chars) && nbBits == old(nbBits)
      ensures overflow == (old(overflow) || old(Cursor()) + n > nbBits)
      ensures Cursor() == if overflow then old(Cursor()) else old(Cursor()) + n
      ensures v == if overflow then 0 else ValueOf(old(Unread())[..n])
      ensures Contents() == old(Contents())
    {
      if 8 * charPtr + bitPtr + n > nbBits {
        overflow := true;
      }
      v := 0;
      if overflow {
        return;
      }
      v := TakeBits(n);
    }

    /** The loop of speex_bits_unpack_unsigned. */
    method TakeBits(n: nat) returns (v: nat)
      requires Valid() && Cursor() + n <= nbBits
      modifies this`charPtr, this`bitPtr
      ensures Valid() && Cursor() == old(Cursor()) + n
      ensures v == ValueOf(old(Unread())[..n])
    {
      hide Bit, ValueOf, Contents, BitsIn;
      ghost var u, start := Unread(), Cursor();
      ValueNone(u);
      v := 0;
      var left := n;
      while left > 0
        invariant 0 <= left <= n && Valid()
        invariant Cursor() == start + (n - left) && Unread() == u[n - left..]
        invariant v == ValueOf(u[..n - left])
        decreases left
      {
        var bit := TakeBit();
        ValueSnoc(u[..n - left], bit);
        assert u[..n - left + 1] == u[..n - left] + [bit];
        v := 2 * v + if bit then 1 else 0;
        left := left - 1;
      }
    }

    /** One bit of speex_bits_unpack_unsigned. */
    method TakeBit() returns (bit: bool)
      requires Valid() && Cursor() < nbBits
      modifies this`charPtr, this`bitPtr
      ensures Valid() && Cursor() == old(Cursor()) + 1
      ensures bit == old(Unread())[0] && Unread() == old(Unread())[1..]
    {
      assert Cursor() / 8 == charPtr && Cursor() % 8 == bitPtr;
      bit := Bit(chars[charPtr], bitPtr);
      bitPtr := bitPtr + 1;
      if bitPtr == 8 {
        bitPtr := 0;
        charPtr := charPtr + 1;
      }
    }

    /** The next bit without consuming it. */
    method Peek() returns (v: nat)
      requires Valid()
      modifies this`overflow
      ensures overflow == (old(overflow) || old(Unread()) == [])
      ensures v == if !overflow && Unread()[0] then 1 else 0
    {
      if 8 * charPtr + bitPtr + 1 > nbBits {
        overflow := true;
      }
      if overflow {
        return 0;
      }
      assert Cursor() / 8 == charPtr && Cursor() % 8 == bitPtr;
      v := if Bit(chars[charPtr], bitPtr) then 1 else 0;
    }

    /** Moves the cursor by n bits, backwards if n is negative. */
    method Advance(n: int)
      requires Valid() && Cursor() + n >= 0
      modifies this
      ensures Valid() && chars == old(chars) && nbBits == old(nbBits)
      ensures overflow == (old(overflow) || old(Cursor()) + n > nbBits)
      ensures Cursor() == if overflow then old(Cursor()) else old(Cursor()) + n
    {
      if 8 * charPtr + bitPtr + n > nbBits || overflow {
        overflow := true;
        return;
      }
      charPtr := charPtr + (bitPtr + n) / 8;
      bitPtr := (bitPtr + n) % 8;
    }

    function Remaining(): int
      reads this
    {
      if overflow then -1 else nbBits - Cursor()
    }

    function NBytes(): nat
      reads this
    {
      (nbBits + 7) / 8
    }

    /** There is room to pad: in a borrowed buffer the last byte must stay free,
        or the padding never ends. */
    predicate Padable()
      reads this`chars, this`charPtr, this`bitPtr
    {
      owner || bitPtr == 0 || charPtr + 1 < chars.Length
    }

    /** Packs one bit of padding. */
    method PackBit(bit: int)
      requires Writing() && Padable() && bitPtr > 0 && 0 <= bit <= 1
      modifies this, chars
      ensures Writing() && Padable() && overflow == old(overflow)
      ensures chars == old(chars) || (owner && fresh(chars))
      ensures nbBits == old(nbBits) + 1 && Contents() == old(Contents()) + [bit == 1]
    {
      hide BitsOf, Contents, Pow2, Bit, BitsIn;
      ghost var n := nbBits;
      RoomToPad(n, charPtr, bitPtr);
      SingleBit(bit);
      Pack(bit, 1);
      RoomToPad(n + 1, charPtr, bitPtr);
    }

    /** Pads to a byte boundary with a zero and then ones. */
    method InsertTerminator()
      requires Writing() && Padable()
      modifies this, chars
      ensures Writing() && bitPtr == 0 && overflow == old(overflow)
      ensures chars == old(chars) || (owner && fresh(chars))
      ensures Contents() == old(Contents()) + Padding(old(nbBits))
    {
      hide BitsOf, Contents, Pow2, Bit, BitsIn, PaddingPrefix, PadCount;
      ghost var before, n0 := Contents(), nbBits;
      PadZero(before);
      if bitPtr > 0 {
        PackBit(0);
      }
      ghost var k := PadCount(n0);
      PadStart(n0, charPtr, bitPtr, nbBits);
      while bitPtr > 0
        invariant Writing() && overflow == old(overflow)
        invariant Padable() && (chars == old(chars) || (owner && fresh(chars)))
        invariant n0 <= nbBits <= n0 + k && (k > 0 ==> n0 < nbBits)
        invariant Contents() == before + PaddingPrefix(nbBits - n0)
        decreases n0 + k - nbBits
      {
        PadRoom(n0, k, nbBits, charPtr, bitPtr);
        PackBit(1);
        PadOne(before, nbBits - 1 - n0);
      }
      PadRoom(n0, k, nbBits, charPtr, bitPtr);
    }

    /** Loads a packet, enlarging an owned buffer; a borrowed one takes what
        fits. */
    method ReadFrom(buf: seq<byte>)
      requires Valid()
      modifies this, chars
      ensures Valid() && !overflow && (chars == old(chars) || fresh(chars))
      ensures var n := if owner || |buf| <= old(chars.Length) then |buf| else old(chars.Length);
        Contents() == BitsIn(buf[..n], 8 * n) && Unread() == Contents()
    {
      var nchars := |buf|;
      if nchars > chars.Length {
        if owner {
          Grow(nchars);
        } else {
          nchars := chars.Length;
        }
      }
      for i := 0 to nchars
        modifies chars
        invariant chars[..i] == buf[..i]
      {
        chars[i] := buf[i];
      }
      nbBits := 8 * nchars;
      charPtr, bitPtr, overflow := 0, 0, false;
      SameBytes(chars[..], buf[..nchars], nchars);
      assert Contents()[0..] == Contents();
    }

    /** Copies the padded stream out, leaving the packer's counters alone. */
    method Write(out: array<byte>, max_nbytes: nat) returns (n: nat)
      requires Writing() && Padable() && out != chars && max_nbytes <= out.Length
      modifies this, chars, out
      ensures Valid() && Contents() == old(Contents()) && overflow == old(overflow)
      ensures chars == old(chars) || (owner && fresh(chars))
      ensures n == if max_nbytes > NBytes() then NBytes() else max_nbytes
      ensures var total := old(Contents()) + Padding(old(nbBits));
        && 8 * n <= |total| && BitsIn(out[..n], 8 * n) == total[..8 * n]
      ensures out[n..] == old(out[n..])
    {
      hide Padding, BitsOf, Bit, BitsIn;
      Pad();
      n := max_nbytes;
      if n > (nbBits + 7) / 8 {
        n := (nbBits + 7) / 8;
      }
      CopyOut(out, n);
      PrefixBits(chars[..], NBytes() * 8, 8 * n);
    }

    /** Pads the bytes and leaves the packer's counters alone. */
    method Pad()
      requires Writing() && Padable()
      modifies this, chars
      ensures Valid() && Contents() == old(Contents()) && overflow == old(overflow) && nbBits == old(nbBits)
      ensures chars == old(chars) || (owner && fresh(chars))
      ensures 8 * NBytes() <= 8 * chars.Length && BitsIn(chars[..], 8 * NBytes()) == old(Contents()) + Padding(old(nbBits))
    {
      hide Padding, BitsOf, Bit, BitsIn;
      var b, c, m := bitPtr, charPtr, nbBits;
      PaddingLength(m);
      InsertTerminator();
      PrefixBits(chars[..], nbBits, m);
      bitPtr, charPtr, nbBits := b, c, m;
    }

    /** Emits whole bytes and keeps the unfinished one. */
    method WriteWholeBytes(out: array<byte>, max_nbytes: nat) returns (n: nat)
      requires Writing() && out != chars && max_nbytes <= out.Length
      modifies this, chars, out
      ensures Valid() && chars == old(chars) && overflow == old(overflow)
      ensures n == if max_nbytes > old(nbBits) / 8 then old(nbBits) / 8 else max_nbytes
      ensures BitsIn(out[..n], 8 * n) == old(Contents())[..8 * n] && out[n..] == old(out[n..])
      ensures Contents() == old(Contents())[8 * n..8 * n + old(nbBits) % 8]
      ensures BitsIn(out[..n], 8 * n) + Contents() == old(Contents()) <==> max_nbytes >= old(nbBits) / 8
      ensures max_nbytes >= old(nbBits) / 8 ==> Writing()
    {
      hide Bit, BitsIn;
      ghost var before, total := Contents(), nbBits;
      assert bitPtr == nbBits % 8 && charPtr == nbBits / 8;
      n := max_nbytes;
      if n > nbBits / 8 {
        n := nbBits / 8;
      }
      CopyOut(out, n);
      PrefixBits(chars[..], nbBits, 8 * n);
      KeepByte(n);
      assert before[..8 * n] + before[8 * n..8 * n + nbBits] == before[..8 * n + nbBits];
      if max_nbytes >= total / 8 {
        assert before[..8 * n + nbBits] == before;
      }
    }

    method CopyOut(out: array<byte>, n: nat)
      requires out != chars && n <= out.Length && n <= chars.Length
      modifies out
      ensures BitsIn(out[..n], 8 * n) == BitsIn(chars[..], 8 * n) && out[n..] == old(out[n..])
    {
      for i := 0 to n
        invariant out[..i] == chars[..i] && out[n..] == old(out[n..])
      {
        out[i] := chars[i];
      }
      SameBytes(chars[..], out[..n], n);
    }

    /** Restarts the buffer with the unfinished part of byte n. */
    method KeepByte(n: nat)
      requires Writing() && n <= charPtr
      modifies this, chars
      ensures Valid() && chars == old(chars) && overflow == old(overflow) && nbBits == old(nbBits) % 8
      ensures Contents() == old(Contents())[8 * n..8 * n + nbBits]
      ensures n == old(charPtr) ==> Writing()
    {
      hide Bit;
      ghost var s, total := chars[..], nbBits;
      assert bitPtr == nbBits % 8;
      if bitPtr > 0 {
        chars[0] := chars[n];
      } else {
        chars[0] := 0;
        ZeroBits(chars[..]);
      }
      charPtr := 0;
      nbBits := nbBits % 8;
      OneByte(s, chars[..], n, nbBits, total);
    }

    /** speex_bits_flush: drops the bytes already read. */
    method Flush()
      requires Valid()
      modifies this, chars
      ensures Valid() && chars == old(chars) && charPtr == 0 && bitPtr == old(bitPtr) && overflow == old(overflow)
      ensures nbBits == old(nbBits - 8 * charPtr)
      ensures Contents() == old(Contents())[8 * old(charPtr)..]
    {
      hide Bit, BitsIn;
      ghost var s, c, total := chars[..], charPtr, nbBits;
      var nchars := (nbBits + 7) / 8;
      if charPtr > 0 {
        MoveDown(charPtr, nchars - charPtr);
      }
      nbBits := nbBits - 8 * charPtr;
      charPtr := 0;
      ShiftedBits(s, chars[..], c, nchars - c, total);
    }

    /** memmove of n bytes from c to the front. */
    method MoveDown(c: nat, n: int)
      requires 0 < c && 0 <= n && c + n <= chars.Length
      modifies chars
      ensures chars[..n] == old(chars[c..c + n])
    {
      ghost var s := chars[..];
      for i := 0 to n
        invariant chars[i..] == s[i..]
        invariant chars[..i] == s[c..c + i]
      {
        assert chars[c + i] == s[c + i] by {
          assert chars[i..][c] == s[i..][c];
        }
        chars[i] := chars[c + i];
        assert chars[i + 1..] == s[i + 1..] by {
          assert forall j :: i + 1 <= j < chars.Length ==> chars[j] == s[i..][j - i];
        }
      }
    }

    /** Drops the bytes already read and appends new ones. Nothing is lost when
        the stream so far is a whole number of bytes. */
    method ReadWholeBytes(buf: seq<byte>)
      requires Valid() && (owner || (nbBits + 7) / 8 + |buf| <= chars.Length)
      modifies this, chars
      ensures Valid() && overflow == old(overflow) && (chars == old(chars) || fresh(chars))
      ensures nbBits == old(nbBits - 8 * charPtr) + 8 * |buf|
      ensures old(nbBits) % 8 == 0 ==> Unread() == old(Unread()) + BitsIn(buf, 8 * |buf|)
    {
      hide Bit, BitsIn, Contents;
      ghost var all, p, k := Contents(), charPtr, bitPtr;
      MakeRoom(|buf|);
      DropBytes(nbBits, charPtr);
      Flush();
      ghost var rest := Contents();
      AppendWhole(buf);
      SliceTwice(all, rest, 8 * p, k, BitsIn(buf, 8 * |buf|));
    }

    method MakeRoom(nchars: nat)
      requires Valid() && (owner || (nbBits + 7) / 8 + nchars <= chars.Length)
      modifies this
      ensures Valid() && (nbBits + 7) / 8 + nchars <= chars.Length
      ensures chars == old(chars) || fresh(chars)
      ensures nbBits == old(nbBits) && charPtr == old(charPtr) && bitPtr == old(bitPtr) && overflow == old(overflow)
      ensures Contents() == old(Contents())
    {
      if (nbBits + 7) / 8 + nchars > chars.Length {
        Grow(nbBits / 8 + nchars + 1);
      }
    }

    method AppendWhole(buf: seq<byte>)
      requires Valid() && (nbBits + 7) / 8 + |buf| <= chars.Length
      modifies this`nbBits, chars
      ensures Valid() && nbBits == old(nbBits) + 8 * |buf| && chars == old(chars)
      ensures old(nbBits) % 8 == 0 ==> Contents() == old(Contents()) + BitsIn(buf, 8 * |buf|)
    {
      hide Bit, BitsIn;
      var nchars := |buf|;
      var pos := nbBits / 8;
      ghost var s := chars[..];
      for i := 0 to nchars
        modifies chars
        invariant chars[..pos] == s[..pos] && chars[pos..pos + i] == buf[..i]
      {
        chars[pos + i] := buf[i];
      }
      nbBits := nbBits + 8 * nchars;
      if old(nbBits) % 8 == 0 {
        AppendBytes(s, chars[..], pos, buf);
      }
    }
  }

  /** What a reader can still get out of the packet. */
  function Left(bits: SpeexBits): seq<bool>
    requires bits.Valid()
    reads bits, bits.chars
  {
    if bits.overflow then [] else bits.Unread()
  }

  /** The number in the next n bits of u, and what follows it: 0 and nothing
      where the bits have run out. */
  function Field(u: seq<bool>, n: nat): nat {
    if n <= |u| then ValueOf(u[..n]) else 0
  }

  function FieldRest(u: seq<bool>, n: nat): seq<bool> {
    if n <= |u| then u[n..] else []
  }

  lemma FieldFits(u: seq<bool>, n: nat)
    ensures Field(u, n) < Pow2(n)
  {
    if n <= |u| {
      ValueBound(u[..n]);
    }
  }

  /** A read from a reader in any state, also one that has run out. */
  method ReadField(bits: SpeexBits, n: nat) returns (v: nat)
    requires bits.Valid() && n <= 32
    modifies bits
    ensures bits.Valid() && bits.chars == old(bits.chars) && bits.nbBits == old(bits.nbBits)
    ensures v == Field(old(Left(bits)), n) && Left(bits) == FieldRest(old(Left(bits)), n)
    ensures v < Pow2(n) && bits.overflow == (old(bits.overflow) || n > |old(Left(bits))|)
  {
    ghost var s, c, over := bits.Contents(), bits.Cursor(), bits.overflow;
    LeftIs(bits);
    FieldFits(Left(bits), n);
    hide *;
    v := bits.UnpackUnsigned(n);
    LeftIs(bits);
    FieldTaken(s, c, over, n);
  }

  lemma LeftIs(bits: SpeexBits)
    requires bits.Valid()
    ensures bits.Cursor() <= bits.nbBits == |bits.Contents()|
    ensures bits.Unread() == bits.Contents()[bits.Cursor()..] && Left(bits) == if bits.overflow then [] else bits.Unread()
  {
    hide BitsIn;
  }

  /** A reader of the bits s at c that takes n bits. */
  lemma FieldTaken(s: seq<bool>, c: nat, over: bool, n: nat)
    requires c <= |s|
    ensures var u := if over then [] else s[c..]; var now := over || c + n > |s|;
      && Field(u, n) == (if now then 0 else ValueOf(s[c..][..n])) && FieldRest(u, n) == (if now then [] else s[c + n..])
      && now == (over || n > |u|)
  {
    EmptyField(n);
    hide ValueOf;
  }

  lemma EmptyField(n: nat)
    ensures Field([], n) == 0 && FieldRest([], n) == []
  {
  }

  lemma ValueNone(u: seq<bool>)
    ensures ValueOf(u[..0]) == 0
  {
  }

  lemma SingleBit(v: int)
    requires v == 0 || v == 1
    ensures BitsOf(v, 1) == [v == 1]
  {
    assert BitsOf(v / 2, 0) == [];
  }

  lemma SameBytes(s: seq<byte>, t: seq<byte>, n: nat)
    requires n <= |s| && n <= |t| && s[..n] == t[..n]
    ensures BitsIn(s, 8 * n) == BitsIn(t, 8 * n)
  {
    forall i | 0 <= i < 8 * n
      ensures BitsIn(s, 8 * n)[i] == BitsIn(t, 8 * n)[i]
    {
      assert s[..n][i / 8] == t[..n][i / 8];
    }
  }

  lemma PrefixBits(s: seq<byte>, n: nat, m: nat)
    requires m <= n <= 8 * |s|
    ensures BitsIn(s, n)[..m] == BitsIn(s, m)
  {
    hide Bit;
  }

  lemma ZeroBits(s: seq<byte>)
    requires |s| > 0 && s[0] == 0
    ensures forall k :: 0 <= k < 8 ==> !Bit(s[0], k)
  {
    forall k | 0 <= k < 8
      ensures !Bit(s[0], k)
    {
      ZeroByte(k);
    }
  }

  /** Moving byte c to the front. */
  lemma OneByte(s: seq<byte>, t: seq<byte>, c: nat, k: nat, n: nat)
    requires c < |s| && |t| > 0 && k < 8 && 8 * c + k <= n <= 8 * |s| && (k > 0 ==> t[0] == s[c])
    ensures BitsIn(t, k) == BitsIn(s, n)[8 * c..8 * c + k]
  {
    hide Bit;
    forall i | 0 <= i < k
      ensures BitsIn(t, k)[i] == BitsIn(s, n)[8 * c + i]
    {
      assert (8 * c + i) / 8 == c && (8 * c + i) % 8 == i;
    }
  }

  lemma AppendBytes(s: seq<byte>, t: seq<byte>, pos: nat, buf: seq<byte>)
    requires pos <= |s| && pos + |buf| <= |t|
    requires t[..pos] == s[..pos] && t[pos..pos + |buf|] == buf
    ensures BitsIn(t, 8 * (pos + |buf|)) == BitsIn(s, 8 * pos) + BitsIn(buf, 8 * |buf|)
  {
    hide Bit;
    var n := 8 * (pos + |buf|);
    forall i | 0 <= i < n
      ensures BitsIn(t, n)[i] == (BitsIn(s, 8 * pos) + BitsIn(buf, 8 * |buf|))[i]
    {
      if i < 8 * pos {
        SameBit(s, t, pos, i);
      } else {
        MovedBit(t, pos, buf, i - 8 * pos);
      }
    }
  }

  lemma SameBit(s: seq<byte>, t: seq<byte>, pos: nat, i: nat)
    requires pos <= |s| && pos <= |t| && t[..pos] == s[..pos] && i < 8 * pos
    ensures Bit(t[i / 8], i % 8) == Bit(s[i / 8], i % 8)
  {
    hide Bit;
    assert t[..pos][i / 8] == s[..pos][i / 8];
  }

  lemma MovedBit(t: seq<byte>, pos: nat, buf: seq<byte>, j: nat)
    requires pos + |buf| <= |t| && t[pos..pos + |buf|] == buf && j < 8 * |buf|
    ensures var i := 8 * pos + j; i / 8 < |t| && Bit(t[i / 8], i % 8) == Bit(buf[j / 8], j % 8)
  {
    hide Bit;
    assert t[pos..pos + |buf|][j / 8] == t[pos + j / 8];
  }

  lemma ShiftedBits(s: seq<byte>, t: seq<byte>, c: nat, n: nat, total: nat)
    requires c + n <= |s| && n <= |t| && t[..n] == s[c..c + n] && 8 * c <= total <= 8 * (c + n)
    ensures BitsIn(t, total - 8 * c) == BitsIn(s, total)[8 * c..]
  {
    hide Bit;
    forall i | 0 <= i < total - 8 * c
      ensures BitsIn(t, total - 8 * c)[i] == BitsIn(s, total)[8 * c..][i]
    {
      assert (8 * c + i) / 8 == c + i / 8 && (8 * c + i) % 8 == i % 8;
      assert t[..n][i / 8] == s[c..c + n][i / 8];
    }
  }

  lemma DropBytes(n: nat, p: nat)
    requires 8 * p <= n
    ensures (n - 8 * p + 7) / 8 <= (n + 7) / 8
    ensures (n - 8 * p) % 8 == n % 8
  {
  }

  lemma SliceTwice(all: seq<bool>, rest: seq<bool>, p: nat, k: nat, more: seq<bool>)
    requires p + k <= |all| && rest == all[p..]
    ensures (rest + more)[k..] == all[p + k..] + more
  {
  }

  lemma PaddingLength(n: nat)
    ensures (n + |Padding(n)|) % 8 == 0 && n + |Padding(n)| == (n + 7) / 8 * 8
  {
    assert |Padding(n)| == (8 - n % 8) % 8;
    hide *;
    RoundUp(n, n / 8, n % 8);
  }

  lemma RoundUp(n: nat, q: nat, r: nat)
    requires n == 8 * q + r && r < 8
    ensures n + (8 - r) % 8 == (n + 7) / 8 * 8
  {
  }

  lemma PadZero(b: seq<bool>)
    ensures b + PaddingPrefix(0) == b && b + PaddingPrefix(1) == b + [false]
  {
  }

  lemma PadOne(b: seq<bool>, n: int)
    requires n > 0
    ensures b + PaddingPrefix(n) + [true] == b + PaddingPrefix(n + 1)
  {
    assert PaddingPrefix(n) + [true] == PaddingPrefix(n + 1);
  }

  /** The byte boundary after n0 bits is at n0 + k. */
  lemma RoomToPad(n: nat, c: nat, b: nat)
    requires 8 * c + b == n && b < 8
    ensures c + (1 + b) / 8 <= c + 1 && c == n / 8
  {
  }

  /** How many bits fill the last byte. */
  function PadCount(n: nat): nat {
    (8 - n % 8) % 8
  }

  lemma PadStart(n0: nat, c: nat, b: nat, n: nat)
    requires b < 8 && 8 * c + b == n && (n == n0 || (n == n0 + 1 && n0 % 8 > 0)) && (n == n0 ==> b == 0)
    ensures n0 <= n <= n0 + PadCount(n0) && (PadCount(n0) > 0 ==> n0 < n)
  {
  }

  lemma PadRoom(n0: nat, k: int, n: nat, c: nat, b: nat)
    requires k == PadCount(n0) && n0 <= n <= n0 + k && (k > 0 ==> n0 < n) && b < 8 && 8 * c + b == n
    ensures b == 0 <==> n == n0 + k
  {
  }

  /** A zero and then ones. */
  function PaddingPrefix(n: int): seq<bool> {
    if n <= 0 then [] else seq(n, i => i > 0)
  }

  /** The padding after n bits: nothing on a byte boundary. */
  function Padding(n: nat): seq<bool> {
    PaddingPrefix(PadCount(n))
  }

  lemma PutBitKeeps(s: seq<byte>, s': seq<byte>, c: nat, k: nat, bit: bool, n: nat)
    requires c < |s| == |s'| && k < 8 && n == 8 * c + k && !Bit(s[c], k)
    requires s'[c] == OrBit(s[c], k, bit) && s'[..c] == s[..c]
    ensures BitsIn(s', n + 1) == BitsIn(s, n) + [bit]
  {
    forall i | 0 <= i < n + 1
      ensures BitsIn(s', n + 1)[i] == (BitsIn(s, n) + [bit])[i]
    {
      if i / 8 == c {
        OrBitAt(s[c], k, bit, i % 8);
      } else {
        assert s'[..c][i / 8] == s[..c][i / 8];
      }
    }
  }

  /** The low n bits survive truncation to w bits. */
  lemma {:induction false} LowBits(v: int, n: nat, w: nat)
    requires n <= w
    ensures BitsOf(v % Pow2(w), n) == BitsOf(v, n)
    decreases n
  {
    if n > 0 {
      LowBits(v / 2, n - 1, w - 1);
      var p := Pow2(w - 1);
      DivMod(v, p);
      var r := v % (2 * p);
      ModUnique(r, 2, v / 2 % p, v % 2);
    }
  }

  /** The next bit to write when left of n bits remain. */
  lemma {:induction false} TopOfRest(d: int, n: nat, left: nat)
    requires 0 < left <= n
    ensures BitsOf(d, n)[n - left] == (d / Pow2(left - 1) % 2 == 1)
    decreases n
  {
    if left == n {
      BitTop(d, n);
    } else {
      BitsHead(d, n);
      TopOfRest(d, n - 1, left);
      assert BitsOf(d, n)[n - left] == BitsOf(d, n)[1..][n - 1 - left];
    }
  }
}
