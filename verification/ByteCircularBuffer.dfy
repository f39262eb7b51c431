/** The ring of bytes between the socket and the message demarcar.  All counters are 16 bits
    wide, as in the program: none of the arithmetic below leaves that range. */
module ByteCircularBuffer {
  newtype byte = x: int | 0 <= x < 0x100
  newtype uint16 = x: int | 0 <= x < 0x1_0000

  /** Copying `n` bytes of `src` from `from` on to `dst` at `at`. */
  method MemCpy(dst: array<byte>, at: nat, src: seq<byte>, from: nat, n: nat)
    requires at + n <= dst.Length && from + n <= |src|
    modifies dst
    ensures dst[..] == old(dst[..at]) + src[from..from + n] + old(dst[at + n..])
  {
    var k := 0;
    while k < n
      invariant 0 <= k <= n
      invariant forall j | at <= j < at + k :: dst[j] == src[from + (j - at)]
      invariant forall j | 0 <= j < dst.Length && !(at <= j < at + k) :: dst[j] == old(dst[j])
    {
      dst[at + k] := src[from + k];
      k := k + 1;
    }
    assert dst[at..at + n] == src[from..from + n];
    assert dst[..] == dst[..at] + dst[at..at + n] + dst[at + n..];
  }

  /** The two copies of a wrapped read: the tail of `src`, then its beginning. */
  method MemCpyWrapped(dst: array<byte>, src: seq<byte>, from: nat, lead: nat, n: nat)
    requires lead <= n <= dst.Length && from + lead == |src| && n - lead <= |src|
    modifies dst
    ensures dst[..] == src[from..] + src[..n - lead] + old(dst[..])[n..]
  {
    ghost var o := dst[..];
    MemCpy(dst, 0, src, from, lead);
    assert dst[..] == src[from..] + o[lead..];
    MemCpy(dst, lead, src, 0, n - lead);
  }

  /** The bytes waiting in a ring: `size` of them from `rear` on, wrapping at the end. */
  ghost function Ring(b: seq<byte>, rear: nat, size: nat): (r: seq<byte>)
    requires rear <= |b| && size <= |b|
    ensures |r| == size
  {
    if rear + size <= |b| then b[rear..rear + size] else b[rear..] + b[..rear + size - |b|]
  }

  lemma RingAt(b: seq<byte>, rear: nat, size: nat, k: nat)
    requires rear <= |b| && size <= |b| && k < size
    ensures Ring(b, rear, size)[k] == b[Slot(|b|, rear, k)]
  {}

  /** Writing `data` into the slots behind the waiting bytes, all others kept, appends it. */
  lemma RingAppend(b: seq<byte>, b': seq<byte>, rear: nat, size: nat, data: seq<byte>)
    requires |b'| == |b| && rear <= |b| && size + |data| <= |b|
    requires forall k | 0 <= k < size :: b'[Slot(|b|, rear, k)] == b[Slot(|b|, rear, k)]
    requires forall k | 0 <= k < |data| :: b'[Slot(|b|, rear, size + k)] == data[k]
    ensures Ring(b', rear, size + |data|) == Ring(b, rear, size) + data
  {
    hide Ring;
    var r, q := Ring(b', rear, size + |data|), Ring(b, rear, size) + data;
    forall k | 0 <= k < |r| ensures r[k] == q[k] {
      RingAt(b', rear, size + |data|, k);
      if k < size {
        RingAt(b, rear, size, k);
      } else {
        assert b'[Slot(|b|, rear, size + (k - size))] == data[k - size];
      }
    }
  }

  lemma WriteOnePiece(b: seq<byte>, b': seq<byte>, rear: nat, size: nat, data: seq<byte>)
    requires rear < |b| && size + |data| <= |b|
    requires var front := Slot(|b|, rear, size);
             front + |data| <= |b| && b' == b[..front] + data + b[front + |data|..]
    ensures Ring(b', rear, size + |data|) == Ring(b, rear, size) + data
  {
    RingAppend(b, b', rear, size, data);
  }

  lemma WriteTwoPieces(b: seq<byte>, b1: seq<byte>, b': seq<byte>, rear: nat, size: nat, data: seq<byte>)
    requires rear < |b| && size + |data| <= |b|
    requires var front := Slot(|b|, rear, size);
             var lead := |b| - front;
             && lead < |data|
             && b1 == b[..front] + data[..lead]
             && b' == data[lead..] + b1[|data| - lead..]
    ensures Ring(b', rear, size + |data|) == Ring(b, rear, size) + data
  {
    RingAppend(b, b', rear, size, data);
  }

  lemma ReadOnePiece(b: seq<byte>, rear: nat, size: nat, d: nat)
    requires rear <= |b| && d <= size <= |b| && rear + d <= |b|
    ensures b[rear..rear + d] == Ring(b, rear, size)[..d]
  {}

  lemma ReadTwoPieces(b: seq<byte>, rear: nat, size: nat, d: nat)
    requires rear <= |b| && d <= size <= |b| && rear + d > |b|
    ensures b[rear..] + b[..d - (|b| - rear)] == Ring(b, rear, size)[..d]
  {}

  /** Dropping the oldest `d` bytes is moving the rear. */
  lemma RingDrop(b: seq<byte>, rear: nat, size: nat, d: nat)
    requires rear < |b| && d <= size <= |b|
    ensures Ring(b, Slot(|b|, rear, d), size - d) == Ring(b, rear, size)[d..]
  {
    hide Ring;
    var r, q := Ring(b, Slot(|b|, rear, d), size - d), Ring(b, rear, size)[d..];
    forall k | 0 <= k < |r| ensures r[k] == q[k] {
      RingAt(b, Slot(|b|, rear, d), size - d, k);
      RingAt(b, rear, size, d + k);
    }
  }

  /** Where the byte at distance `k` behind `rear` is stored. */
  ghost function Slot(n: nat, rear: nat, k: nat): nat {
    if rear + k < n then rear + k else rear + k - n
  }

  class BCB {
    const bufferSize: uint16
    const buffer: array<byte>
    var front: uint16
    var rear: uint16
    var currentSize: uint16

    ghost predicate Valid()
      reads this
    {
      && buffer.Length == bufferSize as int
      && currentSize <= bufferSize
      && (bufferSize == 0 ==> front == 0 && rear == 0)
      && (bufferSize > 0 ==> front < bufferSize && rear < bufferSize
                             && front as int == Slot(bufferSize as nat, rear as nat, currentSize as nat))
    }

    /** The queue the ring stands for, oldest byte first. */
    ghost function Contents(): (s: seq<byte>)
      reads this, buffer
      requires Valid()
      ensures |s| == currentSize as nat
    {
      Ring(buffer[..], rear as nat, currentSize as nat)
    }

    constructor (size: uint16)
      ensures Valid() && fresh(buffer) && bufferSize == size && Contents() == []
    {
      bufferSize := size;
      buffer := new byte[size as int](_ => 0);
      front, rear, currentSize := 0, 0, 0;
    }

    predicate IsFull()
      reads this
    {
      currentSize == bufferSize
    }

    function AvailableSize(): uint16
      requires Valid()
      reads this
    {
      bufferSize - currentSize
    }

    /** The copies of a write that does not reach the end of the buffer. */
    method CopyIn(data: seq<byte>, n: uint16)
      requires Valid() && n as nat <= |data|
      requires bufferSize > 0 && currentSize as nat + n as nat <= bufferSize as nat
          && front as nat + n as nat <= bufferSize as nat
      modifies buffer
      ensures Ring(buffer[..], rear as nat, currentSize as nat + n as nat) == old(Contents()) + data[..n]
    {
      hide Ring;
      ghost var b := buffer[..];
      MemCpy(buffer, front as nat, data, 0, n as nat);
      WriteOnePiece(b, buffer[..], rear as nat, currentSize as nat, data[..n]);
    }

    /** The two copies of a write that wraps. */
    method CopyInWrapped(data: seq<byte>, lead: uint16, n: uint16)
      requires Valid() && n as nat <= |data|
      requires bufferSize > 0 && currentSize as nat + n as nat <= bufferSize as nat && lead == bufferSize - front
          && lead < n
      modifies buffer
      ensures Ring(buffer[..], rear as nat, currentSize as nat + n as nat) == old(Contents()) + data[..n]
    {
      hide Ring;
      ghost var b := buffer[..];
      MemCpy(buffer, front as nat, data, 0, lead as nat);
      ghost var b1 := buffer[..];
      MemCpy(buffer, 0, data, lead as nat, (n - lead) as nat);
      WriteTwoPieces(b, b1, buffer[..], rear as nat, currentSize as nat, data[..n]);
    }

    /** All or nothing: a write that does not fit changes nothing and returns 0. */
    method Write(data: seq<byte>, dataSize: uint16) returns (n: uint16)
      requires Valid() && dataSize as nat <= |data|
      modifies this`front, this`currentSize, buffer
      ensures Valid()
      ensures old(currentSize) as nat + dataSize as nat <= bufferSize as nat ==>
                n == dataSize && Contents() == old(Contents()) + data[..dataSize]
      ensures old(currentSize) as nat + dataSize as nat > bufferSize as nat ==>
                n == 0 && Contents() == old(Contents())
    {
      hide Ring;
      if IsFull() {
        assert data[..0] == [];
        return 0;
      }
      if AvailableSize() < dataSize {
        return 0;
      }
      if front < rear {
        CopyIn(data, dataSize);
        front := front + dataSize;
        if front == bufferSize {
          assert false;
        }
        currentSize := currentSize + dataSize;
        return dataSize;
      }
      var leadingSpace := bufferSize - front;
      if dataSize <= leadingSpace {
        CopyIn(data, dataSize);
        front := front + dataSize;
        if front == bufferSize {
          front := 0;
        }
        currentSize := currentSize + dataSize;
        return dataSize;
      }
      CopyInWrapped(data, leadingSpace, dataSize);
      front := dataSize - leadingSpace;
      currentSize := currentSize + dataSize;
      return dataSize;
    }

    /** The copy, or the two copies, of a read. */
    method CopyOut(out: array<byte>, n: uint16)
      requires Valid() && out != buffer && n as nat <= out.Length && n <= currentSize
      requires rear as nat + n as nat <= bufferSize as nat
      modifies out
      ensures out[..] == Contents()[..n] + old(out[..])[n..]
    {
      hide Ring;
      ghost var o := out[..];
      MemCpy(out, 0, buffer[..], rear as nat, n as nat);
      ReadOnePiece(buffer[..], rear as nat, currentSize as nat, n as nat);
      assert out[..] == Contents()[..n] + o[n..];
    }

    method CopyOutWrapped(out: array<byte>, lead: uint16, n: uint16)
      requires Valid() && out != buffer && n as nat <= out.Length && n <= currentSize
      requires bufferSize > 0 && lead == bufferSize - rear && lead < n
      modifies out
      ensures out[..] == Contents()[..n] + old(out[..])[n..]
    {
      hide Ring;
      MemCpyWrapped(out, buffer[..], rear as nat, lead as nat, n as nat);
      ReadTwoPieces(buffer[..], rear as nat, currentSize as nat, n as nat);
    }

    /** Take the oldest `dataSize` bytes, or only look at them.  Too few bytes: nothing happens. */
    method Read(out: array<byte>, dataSize: uint16, removeReadBytes: bool) returns (n: uint16)
      requires Valid() && out != buffer && dataSize as nat <= out.Length
      modifies this`rear, this`currentSize, out
      ensures Valid() && buffer[..] == old(buffer[..])
      ensures old(currentSize) < dataSize ==> n == 0 && Contents() == old(Contents()) && out[..] == old(out[..])
      ensures old(currentSize) >= dataSize ==>
                && n == dataSize
                && out[..] == old(Contents())[..dataSize] + old(out[..])[dataSize..]
                && Contents() == if removeReadBytes then old(Contents())[dataSize..] else old(Contents())
    {
      hide Ring;
      if currentSize < dataSize {
        return 0;
      }
      if bufferSize > 0 {
        RingDrop(buffer[..], rear as nat, currentSize as nat, dataSize as nat);
      }
      if rear < front {
        CopyOut(out, dataSize);
        if removeReadBytes {
          rear := rear + dataSize;
          if rear == bufferSize {
            assert false;
          }
          currentSize := currentSize - dataSize;
        }
        return dataSize;
      }
      var leadingSpace := bufferSize - rear;
      if dataSize <= leadingSpace {
        CopyOut(out, dataSize);
        if removeReadBytes {
          rear := rear + dataSize;
          if rear == bufferSize {
            rear := 0;
          }
          currentSize := currentSize - dataSize;
        }
        return dataSize;
      }
      CopyOutWrapped(out, leadingSpace, dataSize);
      if removeReadBytes {
        rear := dataSize - leadingSpace;
        currentSize := currentSize - dataSize;
      }
      return dataSize;
    }

    method Reset()
      requires Valid()
      modifies this`front, this`rear, this`currentSize
      ensures Valid() && Contents() == []
    {
      currentSize := 0;
      front := 0;
      rear := 0;
    }
  }
}
