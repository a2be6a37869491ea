/** The lengths of the fields of a STREAM frame: each is the shortest that the format allows. */
module FrameLengths {
  import opened Framer
  import opened Powers
  import opened Words

  lemma PowersTo4()
    ensures Power256(0) == 1 && Power256(1) == 0x100 && Power256(2) == 0x1_0000
    ensures Power256(3) == 0x100_0000 && Power256(4) == 0x1_0000_0000
  {
    assert Power256(1) == 256 * Power256(0) && Power256(2) == 256 * Power256(1);
    assert Power256(3) == 256 * Power256(2) && Power256(4) == 256 * Power256(3);
  }

  lemma PowersTo8()
    ensures Power256(5) == 0x100_0000_0000 && Power256(6) == 0x1_0000_0000_0000
    ensures Power256(7) == 0x100_0000_0000_0000 && Power256(8) == TWO_64
  {
    PowersTo4();
    assert Power256(5) == 256 * Power256(4) && Power256(6) == 256 * Power256(5);
    assert Power256(7) == 256 * Power256(6) && Power256(8) == 256 * Power256(7);
  }

  /** A stream id is written in the fewest bytes that hold it, at least one. */
  lemma StreamIdLenIsLeast(id: nat, n: nat)
    requires id < 0x1_0000_0000
    ensures n == StreamIdLen(id) <==> 1 <= n <= 4 && id < Power256(n) && (n > 1 ==> id >= Power256(n - 1))
  {
    PowersTo4();
    if n == 1 {
    } else if n == 2 {
    } else if n == 3 {
    } else if n == 4 {
    }
  }

  /** An offset of zero is left out. Others are written in the fewest bytes that hold them, at
      least two. */
  lemma OffsetLenIsLeast(offset: nat, n: nat)
    requires 0 < offset < TWO_64
    ensures OffsetLen(0) == 0
    ensures n == OffsetLen(offset) <==> 2 <= n <= 8 && offset < Power256(n) && (n > 2 ==> offset >= Power256(n - 1))
  {
    PowersTo4();
    PowersTo8();
    if n < 5 {
      if n == 2 {
      } else if n == 3 {
      } else if n == 4 {
      }
    } else if n == 5 {
    } else if n == 6 {
    } else if n == 7 {
    } else if n == 8 {
    }
  }
}
