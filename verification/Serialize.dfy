/** The serialize buffer that collects TLVs: a growing block of bytes with a write position and a
    checkpoint.  All three counters are bytes; the block itself is seen as the TLV records that
    fit into it. */
module Serialize {
  import opened CliTree

  /** `sizeof(tlv_struct_t)`: the leaf type, the leaf id and the value, packed. */
  const TLV_SIZE := 4 + 32 + 64
  const TLV_MAX_BUFFER_SIZE := 1024

  function Reversed(s: seq<Tlv>): (r: seq<Tlv>)
    ensures |r| == |s|
  {
    if s == [] then [] else Reversed(s[1..]) + [s[0]]
  }

  lemma {:induction false} ReversedAt(s: seq<Tlv>, k: nat)
    requires k < |s|
    ensures Reversed(s)[k] == s[|s| - 1 - k]
  {
    if |s| > 1 {
      ReversedAt(s[1..], if k < |s| - 1 then k else 0);
    }
  }

  lemma ReversedSnoc(s: seq<Tlv>, x: Tlv)
    ensures Reversed(s + [x]) == [x] + Reversed(s)
  {
    forall k: nat | k <= |s| ensures Reversed(s + [x])[k] == ([x] + Reversed(s))[k] {
      ReversedAt(s + [x], k);
      if k > 0 {
        ReversedAt(s, k - 1);
      }
    }
  }

  class SerBuff {
    var b: array<Tlv>
    var size: int
    var next: int
    var checkpoint: int

    ghost predicate Valid()
      reads this
    {
      && 1 <= size && b.Length == size / TLV_SIZE
      && 0 <= next <= size && next % TLV_SIZE == 0
      && 0 <= checkpoint <= size && checkpoint % TLV_SIZE == 0
    }

    /** The TLVs before the write position. */
    ghost function Contents(): (s: seq<Tlv>)
      requires Valid()
      reads this, b
      ensures |s| == next / TLV_SIZE
    {
      b[..next / TLV_SIZE]
    }

    ghost function Mark(): nat
      requires Valid()
      reads this
    {
      checkpoint / TLV_SIZE
    }

    constructor (size: int)
      requires 1 <= size
      ensures Valid() && fresh(b) && Contents() == [] && Mark() == 0
    {
      b := new Tlv[size / TLV_SIZE];
      this.size, next, checkpoint := size, 0, 0;
    }

    /** `realloc`: a larger block that begins with the old one. */
    method Realloc()
      requires 1 <= size && b.Length <= size / TLV_SIZE
      modifies this`b
      ensures fresh(b) && b.Length == size / TLV_SIZE && b[..old(b.Length)] == old(b[..])
    {
      var larger := new Tlv[size / TLV_SIZE];
      forall i | 0 <= i < b.Length {
        larger[i] := b[i];
      }
      b := larger;
    }

    /** `serialize_string` with one TLV, as `collect_tlv` calls it. */
    method SerializeString(data: Tlv)
      requires Valid()
      modifies this, b
      ensures Valid() && (b == old(b) || fresh(b))
      ensures Contents() == old(Contents()) + [data] && Mark() == old(Mark())
    {
      var availableSize := size - next;
      var isResize := false;
      while availableSize < TLV_SIZE
        invariant availableSize == size - next && old(size) <= size && next == old(next)
            && checkpoint == old(checkpoint)
        invariant b == old(b) && b[..] == old(b[..]) && (!isResize ==> size == old(size))
        decreases TLV_SIZE - availableSize
      {
        size := size * 2;
        availableSize := size - next;
        isResize := true;
      }
      if isResize {
        Realloc();
        assert b[..next / TLV_SIZE] == old(b[..next / TLV_SIZE]);
      }
      b[next / TLV_SIZE] := data;
      next := next + TLV_SIZE;
    }

    /** `serialize_buffer_skip`: backwards it drops TLVs, forwards it leaves room for some. */
    method Skip(bytes: int)
      requires Valid() && bytes % TLV_SIZE == 0 && 0 <= next + bytes
      modifies this
      ensures next == old(next) + bytes && 1 <= size && b.Length == size / TLV_SIZE && next <= size
          && checkpoint == old(checkpoint)
      ensures (b == old(b) || fresh(b)) && Valid()
      ensures bytes <= 0 ==> b == old(b) && Contents() == old(Contents())[..next / TLV_SIZE]
      ensures bytes >= 0 ==> old(Contents()) <= Contents()
    {
      var availableSize := size - next;
      if availableSize >= bytes {
        next := next + bytes;
        return;
      }
      while availableSize < bytes
        invariant availableSize == size - next && old(size) <= size && next == old(next)
            && checkpoint == old(checkpoint) && b == old(b)
        decreases bytes - availableSize
      {
        size := size * 2;
        availableSize := size - next;
      }
      Realloc();
      next := next + bytes;
      assert b[..old(next) / TLV_SIZE] == old(b[..next / TLV_SIZE]);
    }

    method MarkCheckpoint()
      requires Valid()
      modifies this`checkpoint
      ensures Valid() && Mark() == |Contents()|
    {
      checkpoint := next;
    }

    /** Going back to the checkpoint: what is before it is kept. */
    method RestoreCheckpoint()
      requires Valid() && Mark() <= |Contents()|
      modifies this`next
      ensures Valid() && Contents() == old(Contents())[..Mark()]
    {
      next := checkpoint;
    }

    method Reset()
      requires Valid()
      modifies this`next, this`checkpoint
      ensures Valid() && Contents() == [] && Mark() == 0
    {
      next, checkpoint := 0, 0;
    }

    /** `swap_tlv_units`. */
    method SwapTlvUnits(i: int, j: int)
      requires Valid() && 0 <= i < b.Length && 0 <= j < b.Length
      modifies b
      ensures b[i] == old(b[j]) && b[j] == old(b[i])
      ensures forall k | 0 <= k < b.Length && k != i && k != j :: b[k] == old(b[k])
    {
      var tlv := b[i];
      b[i] := b[j];
      b[j] := tlv;
    }

    /** The reversal at the end of `build_cmd_tree_leaves_data`, in place from both ends. */
    method ReverseUnits()
      requires Valid()
      modifies b
      ensures Valid() && Contents() == Reversed(old(Contents())) && Mark() == old(Mark())
    {
      ghost var was := Contents();
      if next < 2 * TLV_SIZE {
        return;
      }
      var tlvUnits := next / TLV_SIZE;
      var i, j := 0, tlvUnits - 1;
      while i < tlvUnits / 2
        invariant 0 <= i <= tlvUnits / 2 && j == tlvUnits - 1 - i
        invariant forall k :: 0 <= k < i || j < k < tlvUnits ==> b[k] == was[tlvUnits - 1 - k]
        invariant forall k :: i <= k <= j ==> b[k] == was[k]
      {
        SwapTlvUnits(i, j);
        i, j := i + 1, j - 1;
      }
      forall k: nat | k < tlvUnits ensures Contents()[k] == Reversed(was)[k] {
        ReversedAt(was, k);
      }
    }
  }
}
