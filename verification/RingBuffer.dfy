// struct osdp_rb of src/osdp_common.c: a byte queue in a fixed array that wraps around.
module RingBuffer {
  import opened Bytes

  class Ring {
    const buffer: array<byte>
    var head: nat
    var tail: nat

    ghost predicate Valid()
      reads this, buffer
    {
      buffer.Length >= 2 && head < buffer.Length && tail < buffer.Length
    }

    ghost function Contents(): (s: seq<byte>)
      requires Valid()
      reads this, buffer
      ensures |s| < buffer.Length
    {
      if tail <= head then buffer[tail..head] else buffer[tail..] + buffer[..head]
    }

    constructor (size: nat)
      requires size >= 2
      ensures Valid() && fresh(buffer) && buffer.Length == size && Contents() == []
    {
      buffer := new byte[size](_ => 0);
      head, tail := 0, 0;
    }

    // Full means one slot short of the array.
    method Push(data: byte) returns (ok: bool)
      requires Valid()
      modifies this`head, buffer
      ensures Valid() && (ok <==> |old(Contents())| < buffer.Length - 1)
      ensures Contents() == if ok then old(Contents()) + [data] else old(Contents())
    {
      var next := head + 1;
      if next >= buffer.Length {
        next := 0;
      }
      if next == tail {
        return false;
      }
      buffer[head] := data;
      head := next;
      return true;
    }

    method Pop() returns (r: Option<byte>)
      requires Valid()
      modifies this`tail
      ensures Valid()
      ensures if old(Contents()) == [] then r == None && Contents() == []
              else r == Some(old(Contents())[0]) && Contents() == old(Contents())[1..]
    {
      if head == tail {
        return None;
      }
      var next := tail + 1;
      if next >= buffer.Length {
        next := 0;
      }
      r := Some(buffer[tail]);
      tail := next;
    }

    // As many bytes of src as there is room for.
    method PushBuf(src: seq<byte>) returns (n: nat)
      requires Valid()
      modifies this`head, buffer
      ensures Valid()
      ensures n == if |src| < buffer.Length - 1 - |old(Contents())| then |src| else buffer.Length - 1 - |old(Contents())|
      ensures n <= |src| && Contents() == old(Contents()) + src[..n]
    {
      hide Contents;
      n := 0;
      while n < |src|
        invariant Valid() && n <= |src|
        invariant Contents() == old(Contents()) + src[..n]
        decreases |src| - n
      {
        var ok := Push(src[n]);
        if !ok {
          return;
        }
        n := n + 1;
      }
    }

    // At most max bytes, to dst from off on.
    method PopBuf(dst: array<byte>, off: nat, max: nat) returns (n: nat)
      requires Valid() && dst != buffer && off + max <= dst.Length
      modifies this`tail, dst
      ensures Valid()
      ensures n == (if max < |old(Contents())| then max else |old(Contents())|) <= max
      ensures Contents() == old(Contents())[n..]
      ensures dst[..off] == old(dst[..off]) && dst[off..off + n] == old(Contents())[..n] && dst[off + n..] == old(dst[off + n..])
    {
      hide Contents;
      n := 0;
      while n < max
        invariant Valid() && n <= max && n <= |old(Contents())|
        invariant Contents() == old(Contents())[n..]
        invariant dst[..off] == old(dst[..off]) && dst[off..off + n] == old(Contents())[..n]
        invariant forall k :: off + n <= k < dst.Length ==> dst[k] == old(dst[k])
        decreases max - n
      {
        var b := Pop();
        if b == None {
          return;
        }
        dst[off + n] := b.value;
        n := n + 1;
      }
    }

    method Reset()
      requires Valid()
      modifies this
      ensures Valid() && Contents() == []
    {
      head, tail := 0, 0;
    }
  }
}
