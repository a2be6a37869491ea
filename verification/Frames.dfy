module Options {
  datatype Option<T> = None | Some(value: T)
}

module Numbers {
  function Min(a: nat, b: nat): nat {
    if a <= b then a else b
  }

  function Max(a: nat, b: nat): nat {
    if a >= b then a else b
  }
}

/** 64-bit arithmetic. */
module Words {
  const TWO_64: nat := 0x1_0000_0000_0000_0000

  function Uint64(x: int): nat {
    x % TWO_64
  }

  function Int64(x: int): int {
    (x + TWO_64 / 2) % TWO_64 - TWO_64 / 2
  }
}

/** What fits into a number of bytes. */
module Powers {
  function Power256(k: nat): nat {
    if k == 0 then 1 else 256 * Power256(k - 1)
  }
}

/** Lists of ids without repetition. */
module Lists {
  ghost predicate NoDups(ids: seq<nat>) {
    forall i, j | 0 <= i < j < |ids| :: ids[i] != ids[j]
  }

  function Elements(ids: seq<nat>): set<nat> {
    set id | id in ids
  }
}

/** Values that travel between the two ends of a connection: STREAM frames and
    the limits that the transport code shares. */
module Frames {
  type Byte = x: int | 0 <= x < 256

  /** Largest value of a 64-bit byte count. */
  const MAX_BYTE_COUNT: nat := 0xFFFF_FFFF_FFFF_FFFF

  /** A STREAM frame. `lenPresent` says whether the two-byte data length is written. */
  datatype Frame = Frame(stream: nat, offset: nat, data: seq<Byte>, fin: bool, lenPresent: bool) {
    /** Offset of the first byte after the frame. */
    function End(): nat {
      offset + |data|
    }
  }

  /** The first `n` bytes of a frame, and the rest of it, which keeps the FIN. */
  function SplitHead(f: Frame, n: nat): Frame
    requires n <= |f.data|
  {
    f.(data := f.data[..n], fin := false)
  }

  function SplitTail(f: Frame, n: nat): Frame
    requires n <= |f.data|
  {
    f.(offset := f.offset + n, data := f.data[n..])
  }

  /** `part` carries a contiguous piece of `whole`, at the position it has in `whole`. */
  predicate IsSlice(part: Frame, whole: Frame) {
    && whole.offset <= part.offset
    && part.End() <= whole.End()
    && part.data == whole.data[part.offset - whole.offset..part.End() - whole.offset]
  }

  /** The frame carries the bytes that `bytes` has at the frame's position. */
  predicate Carries(f: Frame, bytes: seq<Byte>) {
    f.End() <= |bytes| && f.data == bytes[f.offset..f.End()]
  }

  /** A piece of a slice is a slice. */
  lemma PieceIsSlice(f: Frame, start: nat, data: seq<Byte>, lo: nat, hi: nat)
    requires IsSlice(f.(offset := start, data := data), f) && lo <= hi <= |data|
    ensures IsSlice(f.(offset := start + lo, data := data[lo..hi]), f)
  {
  }

  lemma SliceCarries(part: Frame, whole: Frame, bytes: seq<Byte>)
    requires IsSlice(part, whole) && Carries(whole, bytes)
    ensures Carries(part, bytes)
  {
  }
}
