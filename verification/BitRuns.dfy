/** Whole runs of the bit packer: nothing lost, nothing reordered. */
module BitRuns {
  import opened IntArith
  import opened BitSeqs
  import opened Bits

  /** A value and its width in bits. */
  datatype Word = Word(value: int, width: nat)

  ghost predicate Packable(ws: seq<Word>) {
    forall i :: 0 <= i < |ws| ==> ws[i].width <= 32
  }

  function WordBits(ws: seq<Word>): seq<bool> {
    if ws == [] then [] else WordBits(ws[..|ws| - 1]) + BitsOf(ws[|ws| - 1].value, ws[|ws| - 1].width)
  }

  lemma WordBitsSnoc(ws: seq<Word>, k: nat)
    requires k < |ws|
    ensures WordBits(ws[..k + 1]) == WordBits(ws[..k]) + BitsOf(ws[k].value, ws[k].width)
  {
    assert ws[..k + 1][..k] == ws[..k];
    hide BitsOf;
  }

  /** The words' bits from number k on. */
  lemma {:induction false} WordBitsFrom(ws: seq<Word>, k: nat)
    requires k < |ws|
    ensures var a, b := |WordBits(ws[..k])|, |WordBits(ws[..k + 1])|;
      a <= b <= |WordBits(ws)| && b - a == ws[k].width && WordBits(ws)[a..b] == BitsOf(ws[k].value, ws[k].width)
  {
    hide BitsOf;
    var n := |ws| - 1;
    WordBitsSnoc(ws, k);
    assert ws[..n + 1] == ws;
    if k < n {
      WordBitsFrom(ws[..n], k);
      assert ws[..n][..k] == ws[..k] && ws[..n][..k + 1] == ws[..k + 1];
      var a, b := |WordBits(ws[..k])|, |WordBits(ws[..k + 1])|;
      assert WordBits(ws)[a..b] == WordBits(ws[..n])[a..b];
    }
  }

  method PackAll(bits: SpeexBits, ws: seq<Word>)
    requires bits.Writing() && bits.owner && Packable(ws)
    modifies bits, bits.chars
    ensures bits.Writing() && bits.overflow == old(bits.overflow) && (bits.chars == old(bits.chars) || fresh(bits.chars))
    ensures bits.Contents() == old(bits.Contents()) + WordBits(ws)
  {
    hide BitsOf, WordBits;
    ghost var before := bits.Contents();
    NoWords(before, ws);
    for k := 0 to |ws|
      invariant bits.Writing() && bits.overflow == old(bits.overflow)
      invariant bits.chars == old(bits.chars) || fresh(bits.chars)
      invariant bits.Contents() == before + WordBits(ws[..k])
    {
      WordBitsSnoc(ws, k);
      bits.Pack(ws[k].value, ws[k].width);
      assert before + (WordBits(ws[..k]) + BitsOf(ws[k].value, ws[k].width))
          == before + WordBits(ws[..k]) + BitsOf(ws[k].value, ws[k].width);
    }
    assert ws[..|ws|] == ws;
  }

  lemma NoWords(before: seq<bool>, ws: seq<Word>)
    ensures before + WordBits(ws[..0]) == before && WordBits(ws[..0]) == []
  {
  }

  /** What was packed, rewound and read with the same widths is what was put in,
      modulo the width, however often the buffer grew. */
  method PackUnpack(ws: seq<Word>) returns (vs: seq<nat>)
    requires Packable(ws)
    ensures |vs| == |ws| && forall k :: 0 <= k < |ws| ==> vs[k] == ws[k].value % Pow2(ws[k].width)
  {
    hide BitsOf, WordBits, ValueOf, Pow2, SpeexBits.Unread, SpeexBits.Writing;
    var bits := new SpeexBits();
    Ready(bits);
    PackAll(bits, ws);
    ghost var all := WordBits(ws);
    assert [] + all == all;
    Ready(bits);
    bits.Rewind();
    vs := [];
    NoWords([], ws);
    assert all[0..] == all;
    for k := 0 to |ws|
      invariant |vs| == k && forall i :: 0 <= i < k ==> vs[i] == ws[i].value % Pow2(ws[i].width)
      invariant bits.Valid() && !bits.overflow && |WordBits(ws[..k])| <= |all|
      invariant bits.Unread() == all[|WordBits(ws[..k])|..]
    {
      var v := ReadWord(bits, ws, k);
      vs := vs + [v];
    }
  }

  lemma Ready(bits: SpeexBits)
    requires bits.Writing()
    ensures bits.Valid()
  {
  }

  method ReadWord(bits: SpeexBits, ws: seq<Word>, k: nat) returns (v: nat)
    requires Packable(ws) && k < |ws| && |WordBits(ws[..k])| <= |WordBits(ws)|
    requires bits.Valid() && !bits.overflow && bits.Unread() == WordBits(ws)[|WordBits(ws[..k])|..]
    modifies bits
    ensures bits.Valid() && !bits.overflow && |WordBits(ws[..k + 1])| <= |WordBits(ws)|
    ensures bits.Unread() == WordBits(ws)[|WordBits(ws[..k + 1])|..]
    ensures v == ws[k].value % Pow2(ws[k].width)
  {
    assert ws[k].width <= 32;
    hide *;
    ghost var all, a, b := WordBits(ws), |WordBits(ws[..k])|, |WordBits(ws[..k + 1])|;
    WordBitsFrom(ws, k);
    ValueOfBits(ws[k].value, ws[k].width);
    LeftIs(bits);
    v := ReadField(bits, ws[k].width);
    LeftIs(bits);
    FieldAt(all, a, b);
  }

  lemma FieldAt(all: seq<bool>, a: nat, b: nat)
    requires a <= b <= |all|
    ensures Field(all[a..], b - a) == ValueOf(all[a..b]) && FieldRest(all[a..], b - a) == all[b..] && |all[a..]| >= b - a
  {
    hide ValueOf;
    assert all[a..][..b - a] == all[a..b];
  }

  // --------------------------------------------- packing and draining, mixed

  /** A step of a sender: pack a word, or take out the whole bytes. */
  datatype Send = Put(word: Word) | Drain

  ghost predicate Sendable(run: seq<Send>) {
    forall i :: 0 <= i < |run| && run[i].Put? ==> run[i].word.width <= 32
  }

  /** All the bits a run packs. */
  function SentBits(run: seq<Send>): seq<bool> {
    if run == [] then []
    else
      var last := run[|run| - 1];
      SentBits(run[..|run| - 1]) + if last.Put? then BitsOf(last.word.value, last.word.width) else []
  }

  lemma SentSnoc(run: seq<Send>, k: nat)
    requires k < |run|
    ensures SentBits(run[..k + 1]) == SentBits(run[..k]) + if run[k].Put? then BitsOf(run[k].word.value, run[k].word.width) else []
  {
    assert run[..k + 1][..k] == run[..k];
    hide BitsOf;
  }

  lemma BytesConcat(s: seq<byte>, t: seq<byte>)
    ensures BitsIn(s + t, 8 * |s + t|) == BitsIn(s, 8 * |s|) + BitsIn(t, 8 * |t|)
  {
    hide Bit;
    var u, v, w := BitsIn(s + t, 8 * |s + t|), BitsIn(s, 8 * |s|), BitsIn(t, 8 * |t|);
    forall i | 0 <= i < |u|
      ensures u[i] == (v + w)[i]
    {
      if i >= 8 * |s| {
        assert i / 8 == |s| + (i - 8 * |s|) / 8;
      }
    }
  }

  /** However packs and drains alternate, the bytes taken out followed by the
      bits still held are all the bits packed, in order. */
  method RunSends(bits: SpeexBits, run: seq<Send>) returns (emitted: seq<byte>)
    requires bits.Writing() && bits.owner && bits.Contents() == [] && Sendable(run)
    modifies bits, bits.chars
    ensures bits.Writing() && BitsIn(emitted, 8 * |emitted|) + bits.Contents() == SentBits(run)
  {
    hide BitsOf, SentBits, BitsIn;
    emitted := [];
    NothingSent(run);
    for k := 0 to |run|
      invariant bits.Writing() && (bits.chars == old(bits.chars) || fresh(bits.chars))
      invariant BitsIn(emitted, 8 * |emitted|) + bits.Contents() == SentBits(run[..k])
    {
      SentSnoc(run, k);
      ghost var held := bits.Contents();
      match run[k]
      case Put(w) =>
        bits.Pack(w.value, w.width);
        assert BitsIn(emitted, 8 * |emitted|) + (held + BitsOf(w.value, w.width)) == SentBits(run[..k + 1]);
      case Drain =>
        var more := DrainAll(bits);
        BytesConcat(emitted, more);
        emitted := emitted + more;
    }
    assert run[..|run|] == run;
  }

  lemma NothingSent(run: seq<Send>)
    ensures SentBits(run[..0]) == [] == BitsIn([], 0)
  {
  }

  /** speex_bits_write_whole_bytes into a buffer with enough room. */
  method DrainAll(bits: SpeexBits) returns (bytes: seq<byte>)
    requires bits.Writing()
    modifies bits, bits.chars
    ensures bits.Writing() && bits.chars == old(bits.chars)
    ensures BitsIn(bytes, 8 * |bytes|) + bits.Contents() == old(bits.Contents())
  {
    hide BitsIn;
    var room := bits.NBytes();
    var out := new byte[room];
    var n := bits.WriteWholeBytes(out, room);
    bytes := out[..n];
  }

  // ------------------------------------------------ reading and feeding, mixed

  /** A step of a receiver: read so many bits, or take in some bytes. */
  datatype Receive = Take(width: nat) | Feed(bytes: seq<byte>)

  ghost predicate Receivable(run: seq<Receive>) {
    forall i :: 0 <= i < |run| && run[i].Take? ==> run[i].width <= 32
  }

  /** All the bits a run takes in. */
  function FedBits(run: seq<Receive>): seq<bool> {
    if run == [] then []
    else
      var last := run[|run| - 1];
      FedBits(run[..|run| - 1]) + if last.Feed? then BitsIn(last.bytes, 8 * |last.bytes|) else []
  }

  lemma FedSnoc(run: seq<Receive>, k: nat)
    requires k < |run|
    ensures FedBits(run[..k + 1]) == FedBits(run[..k]) + if run[k].Feed? then BitsIn(run[k].bytes, 8 * |run[k].bytes|) else []
  {
    assert run[..k + 1][..k] == run[..k];
    hide BitsIn;
  }

  /** The values read, cut off the stream one after the other. */
  function Cut(stream: seq<bool>, widths: seq<nat>): (r: (seq<nat>, seq<bool>))
    requires Sum(widths) <= |stream|
    ensures |r.0| == |widths| && |r.1| == |stream| - Sum(widths)
  {
    if widths == [] then ([], stream)
    else
      var n := |widths| - 1;
      var r := Cut(stream, widths[..n]);
      (r.0 + [ValueOf(r.1[..widths[n]])], r.1[widths[n]..])
  }

  function Sum(widths: seq<nat>): nat {
    if widths == [] then 0 else Sum(widths[..|widths| - 1]) + widths[|widths| - 1]
  }

  /** More bits at the end do not change what was cut off before them. */
  lemma {:induction false} CutLater(stream: seq<bool>, more: seq<bool>, widths: seq<nat>)
    requires Sum(widths) <= |stream|
    ensures Cut(stream + more, widths) == (Cut(stream, widths).0, Cut(stream, widths).1 + more)
  {
    if widths != [] {
      var n := |widths| - 1;
      CutLater(stream, more, widths[..n]);
      var rest := Cut(stream, widths[..n]).1;
      assert (rest + more)[..widths[n]] == rest[..widths[n]];
      assert (rest + more)[widths[n]..] == rest[widths[n]..] + more;
    }
  }

  lemma CutNext(stream: seq<bool>, widths: seq<nat>, w: nat)
    requires Sum(widths) + w <= |stream|
    ensures var r := Cut(stream, widths); Sum(widths + [w]) == Sum(widths) + w && Cut(stream, widths + [w]) == (r.0 + [ValueOf(r.1[..w])], r.1[w..])
  {
    assert (widths + [w])[..|widths|] == widths;
  }

  /** However reads and feeds alternate, the values come off the one stream of
      all bits fed, in order and without a gap; a read past what has come sets
      overflow, and it and all reads after it give 0 and take nothing. */
  method RunReceives(bits: SpeexBits, run: seq<Receive>) returns (vs: seq<nat>, ghost widths: seq<nat>)
    requires bits.Valid() && bits.owner && !bits.overflow && bits.nbBits % 8 == 0 && Receivable(run)
    modifies bits, bits.chars
    ensures bits.Valid() && var stream := old(bits.Unread()) + FedBits(run);
      Sum(widths) <= |stream| && |widths| <= |vs| && (vs[..|widths|], bits.Unread()) == Cut(stream, widths)
    ensures |vs| == |Widths(run)| && widths <= Widths(run) && (!bits.overflow ==> widths == Widths(run))
    ensures forall i :: |widths| <= i < |vs| ==> vs[i] == 0
  {
    hide ValueOf, FedBits, BitsIn, SpeexBits.Unread, Cut, Sum, Widths;
    vs, widths := [], [];
    ghost var start := bits.Unread();
    NothingFed(run, start);
    for k := 0 to |run|
      invariant bits.Valid() && bits.nbBits % 8 == 0 && (bits.chars == old(bits.chars) || fresh(bits.chars))
      invariant Sum(widths) <= |start + FedBits(run[..k])| && |widths| <= |vs|
      invariant (vs[..|widths|], bits.Unread()) == Cut(start + FedBits(run[..k]), widths)
      invariant |vs| == |Widths(run[..k])| && forall i :: |widths| <= i < |vs| ==> vs[i] == 0
      invariant widths <= Widths(run[..k]) && (!bits.overflow ==> widths == Widths(run[..k]))
    {
      FedSnoc(run, k);
      WidthsSnoc(run, k);
      ghost var stream := start + FedBits(run[..k]);
      match run[k]
      case Take(w) =>
        assert FedBits(run[..k]) + [] == FedBits(run[..k]);
        vs, widths := TakeOne(bits, stream, vs, widths, w);
      case Feed(bytes) =>
        ghost var more := BitsIn(bytes, 8 * |bytes|);
        CutLater(stream, more, widths);
        assert stream + more == start + (FedBits(run[..k]) + more);
        bits.ReadWholeBytes(bytes);
    }
    assert run[..|run|] == run;
  }

  /** The widths a run asks for. */
  function Widths(run: seq<Receive>): seq<nat> {
    if run == [] then []
    else Widths(run[..|run| - 1]) + if run[|run| - 1].Take? then [run[|run| - 1].width] else []
  }

  lemma WidthsSnoc(run: seq<Receive>, k: nat)
    requires k < |run|
    ensures Widths(run[..k + 1]) == Widths(run[..k]) + if run[k].Take? then [run[k].width] else []
  {
    assert run[..k + 1][..k] == run[..k];
  }

  lemma NothingFed(run: seq<Receive>, start: seq<bool>)
    ensures FedBits(run[..0]) == [] && Widths(run[..0]) == [] && Sum([]) == 0 && Cut(start + FedBits(run[..0]), []) == ([], start)
  {
    assert start + [] == start;
  }

  /** One read; a short one adds nothing to the values. */
  method TakeOne(bits: SpeexBits, ghost stream: seq<bool>, vs: seq<nat>, ghost widths: seq<nat>, w: nat)
    returns (vs': seq<nat>, ghost widths': seq<nat>)
    requires bits.Valid() && w <= 32 && Sum(widths) <= |stream| && |widths| <= |vs| && (vs[..|widths|], bits.Unread()) == Cut(stream, widths)
    requires (forall i :: |widths| <= i < |vs| ==> vs[i] == 0) && (!bits.overflow ==> |vs| == |widths|)
    modifies bits
    ensures bits.Valid() && bits.chars == old(bits.chars) && bits.nbBits == old(bits.nbBits)
    ensures Sum(widths') <= |stream| && |widths'| <= |vs'| == |vs| + 1 && (vs'[..|widths'|], bits.Unread()) == Cut(stream, widths')
    ensures forall i :: |widths'| <= i < |vs'| ==> vs'[i] == 0
    ensures bits.overflow == (old(bits.overflow) || w > |old(bits.Unread())|)
    ensures widths' == if bits.overflow then widths else widths + [w]
  {
    hide ValueOf, Sum;
    ghost var before := bits.Unread();
    var v := bits.UnpackUnsigned(w);
    vs' := vs + [v];
    assert vs'[..|widths|] == vs[..|widths|];
    if bits.overflow {
      widths' := widths;
    } else {
      CutNext(stream, widths, w);
      assert bits.Unread() == before[w..];
      widths' := widths + [w];
      assert vs'[..|widths'|] == vs[..|widths|] + [v];
    }
  }
}
