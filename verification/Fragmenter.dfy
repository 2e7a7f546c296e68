// Cutting a video frame into numbered segments (ReCapABR/sim_transport/sim_sender.c).

module Segments {
  import opened Wrappers

  /** SIM_VIDEO_SIZE, the payload limit of one segment. */
  const SEGMENT_SIZE: nat := 1000

  datatype Segment = Segment(
    packetId: nat, fid: nat, timestamp: nat, index: nat, total: nat,
    ftype: nat, payloadType: nat, data: seq<byte>)
}

module Fragmenter {
  import opened Wrappers
  import opened Segments

  /** The range of the 16-bit fields that hold segment counts and sizes. */
  const U16: nat := 0x1_0000

  /** The number of pieces before it is narrowed to 16 bits. */
  function Pieces(size: nat): (n: nat)
    ensures n > 0
  {
    if size <= SEGMENT_SIZE then 1 else (size + SEGMENT_SIZE - 1) / SEGMENT_SIZE
  }

  /** The number of segments a frame is announced with, and sent as. */
  function Total(size: nat): nat {
    Pieces(size) % U16
  }

  function PieceSize(size: nat, i: nat): nat {
    var n := Pieces(size);
    if n == 1 then size
    else size / n + if i < (size % n) % U16 then 1 else 0
  }

  /** The sum of the first k piece sizes: where piece k starts in the frame. */
  function Offset(size: nat, k: nat): nat {
    if k == 0 then 0 else Offset(size, k - 1) + PieceSize(size, k - 1)
  }

  lemma Division(a: nat, b: nat)
    requires b > 0
    ensures a == b * (a / b) + a % b && 0 <= a % b < b
  {
  }

  /** Closed form of the offsets. */
  lemma {:induction false} OffsetIs(size: nat, k: nat)
    requires size > SEGMENT_SIZE
    ensures var n := Pieces(size); var r := (size % n) % U16;
      Offset(size, k) == k * (size / n) + if k < r then k else r
  {
    if k > 0 {
      var n := Pieces(size);
      OffsetIs(size, k - 1);
      Distribute(k - 1, size / n);
    }
  }

  lemma Distribute(k: nat, q: nat)
    ensures (k + 1) * q == k * q + q
  {
  }

  /** The average piece of a large frame fills at least half a segment, and none exceeds it. */
  lemma AveragePiece(size: nat)
    requires size > SEGMENT_SIZE
    ensures var n := Pieces(size);
      && n > 1 && n * SEGMENT_SIZE >= size && (n - 1) * SEGMENT_SIZE < size
      && 1 <= size / n <= SEGMENT_SIZE
      && (size / n == SEGMENT_SIZE ==> size % n == 0)
  {
    Division(size + SEGMENT_SIZE - 1, SEGMENT_SIZE);
    Quotient(size, Pieces(size), SEGMENT_SIZE);
  }

  lemma Quotient(a: nat, n: nat, s: nat)
    requires 0 < n <= a <= n * s
    ensures 1 <= a / n <= s && (a / n == s ==> a % n == 0)
  {
    Division(a, n);
    var d := a / n - s;
    assert n * (a / n) == n * s + n * d;
    if d > 0 { AtLeast(n, d); }
  }

  lemma AtLeast(n: int, d: int)
    requires n > 0 && d > 0
    ensures n * d >= n
  {
  }

  /** Pieces fit a segment and differ in size by at most one byte. */
  lemma PiecesFit(size: nat, i: nat, j: nat)
    ensures PieceSize(size, i) <= SEGMENT_SIZE
    ensures PieceSize(size, i) <= PieceSize(size, j) + 1
  {
    if size > SEGMENT_SIZE { AveragePiece(size); }
  }

  /** The announced segments carry the whole frame exactly when their number fits in 16 bits. */
  lemma TotalCarriesFrame(size: nat)
    ensures Offset(size, Total(size)) == size <==> size <= (U16 - 1) * SEGMENT_SIZE
    ensures Offset(size, Total(size)) <= size
  {
    if size <= SEGMENT_SIZE {
      assert Offset(size, 1) == Offset(size, 0) + PieceSize(size, 0);
    } else {
      AveragePiece(size);
      if Pieces(size) < U16 { AllCarried(size); } else { TailIsLost(size); }
    }
  }

  lemma AllCarried(size: nat)
    requires size > SEGMENT_SIZE && Pieces(size) < U16
    ensures Total(size) == Pieces(size) && Offset(size, Pieces(size)) == size
  {
    OffsetIs(size, Pieces(size));
    Division(size, Pieces(size));
  }

  lemma TailIsLost(size: nat)
    requires size > SEGMENT_SIZE && Pieces(size) >= U16
    ensures Offset(size, Total(size)) < size
  {
    AveragePiece(size);
    OffsetIs(size, Total(size));
    Division(size, Pieces(size));
    Division(Pieces(size), U16);
    LostTail(Pieces(size), Total(size), size / Pieces(size));
  }

  /** Dropping 65536 or more pieces of at least one byte loses data even if the kept ones are longer. */
  lemma LostTail(n: nat, t: nat, q: nat)
    requires t < U16 && t + U16 <= n && q >= 1
    ensures t * q + t < n * q && t <= n
  {
  }

  /** The sender's table of piece sizes, grown by doubling. */
  class Splitter {
    var splits: array<nat>

    constructor ()
      ensures fresh(splits) && splits.Length == 128
    {
      splits := new nat[128];
    }

    /** Doubles the table until it holds the pieces; what it held is lost. */
    method Grow(pieces: nat)
      requires splits.Length > 0
      modifies this
      ensures splits.Length >= pieces && splits.Length >= old(splits.Length)
      ensures splits == old(splits) || fresh(splits)
    {
      if pieces > splits.Length {
        var length := splits.Length;
        while pieces > length
          invariant splits.Length <= length
          decreases 2 * pieces - length
        {
          length := length * 2;
        }
        splits := new nat[length];
      }
    }

    /** The loop that deals out the remainder, one byte each to the first pieces. */
    method Fill(size: nat, pieces: nat)
      requires size > SEGMENT_SIZE && pieces == Pieces(size) <= splits.Length
      modifies splits
      ensures forall i :: 0 <= i < pieces ==> splits[i] == PieceSize(size, i) < U16
    {
      AveragePiece(size);
      var packetSize := (size / pieces) % U16;
      var remainSize := (size % pieces) % U16;
      ghost var r := remainSize;
      for i := 0 to pieces
        invariant remainSize == if i < r then r - i else 0
        invariant forall j :: 0 <= j < i ==> splits[j] == PieceSize(size, j) < U16
      {
        if remainSize > 0 {
          splits[i] := packetSize + 1;
          remainSize := remainSize - 1;
        } else {
          splits[i] := packetSize;
        }
      }
    }

    /** Cuts a frame of the given size; the piece count is a 32-bit value in the original. */
    method Split(size: nat) returns (total: nat)
      requires splits.Length > 0 && Pieces(size) < 0x1_0000_0000
      modifies this, splits
      ensures splits == old(splits) || fresh(splits)
      ensures total == Total(size) <= Pieces(size) <= splits.Length
      ensures forall i :: 0 <= i < Pieces(size) ==> splits[i] == PieceSize(size, i) < U16
    {
      PiecesFit(size, 0, 0);
      var ret := 1;
      if size <= SEGMENT_SIZE {
        splits[0] := size;
      } else {
        ret := (size + SEGMENT_SIZE - 1) / SEGMENT_SIZE;
        Grow(ret);
        Fill(size, ret);
      }
      total := ret % U16;
    }
  }

  /** What the sender fixes when a frame is put: its number, its first packet id and its bytes. */
  datatype Frame = Frame(fid: nat, firstId: nat, timestamp: nat, ftype: nat, payloadType: nat, data: seq<byte>)

  function SegmentOf(f: Frame, i: nat): (s: Segment)
    requires i < Total(|f.data|)
    ensures |s.data| <= SEGMENT_SIZE
  {
    PiecesFit(|f.data|, i, i);
    TotalCarriesFrame(|f.data|);
    OffsetMonotone(|f.data|, i, i + 1);
    OffsetMonotone(|f.data|, i + 1, Total(|f.data|));
    Segment(f.firstId + i, f.fid, f.timestamp, i, Total(|f.data|), f.ftype, f.payloadType,
            f.data[Offset(|f.data|, i)..Offset(|f.data|, i + 1)])
  }

  lemma {:induction false} OffsetMonotone(size: nat, i: nat, j: nat)
    requires i <= j
    ensures Offset(size, i) <= Offset(size, j)
    decreases j - i
  {
    if i < j { OffsetMonotone(size, i, j - 1); }
  }

  /** The bytes carried by the first k segments. */
  function Carried(f: Frame, k: nat): seq<byte>
    requires k <= Total(|f.data|)
  {
    if k == 0 then [] else Carried(f, k - 1) + SegmentOf(f, k - 1).data
  }

  lemma OffsetWithin(size: nat, k: nat)
    requires k <= Total(size)
    ensures Offset(size, k) <= size
  {
    TotalCarriesFrame(size);
    OffsetMonotone(size, k, Total(size));
  }

  lemma {:induction false} CarriedIsPrefix(f: Frame, k: nat)
    requires k <= Total(|f.data|)
    ensures Offset(|f.data|, k) <= |f.data|
    ensures Carried(f, k) == f.data[..Offset(|f.data|, k)]
  {
    OffsetWithin(|f.data|, k);
    if k > 0 {
      var i, j := Offset(|f.data|, k - 1), Offset(|f.data|, k);
      CarriedIsPrefix(f, k - 1);
      OffsetMonotone(|f.data|, k - 1, k);
      assert f.data[..i] + f.data[i..j] == f.data[..j];
    }
  }

  /** Joining all segments of a frame gives back the frame exactly when its segment count fits in 16 bits. */
  lemma SegmentsCarryFrame(f: Frame)
    ensures Carried(f, Total(|f.data|)) == f.data <==> |f.data| <= (U16 - 1) * SEGMENT_SIZE
  {
    CarriedIsPrefix(f, Total(|f.data|));
    TotalCarriesFrame(|f.data|);
  }

  /** A frame of 65536 full segments is announced with no segment at all. */
  lemma OversizeFrameIsLost()
    ensures Total(U16 * SEGMENT_SIZE) == 0
  {
  }
}
