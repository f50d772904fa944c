/** The two copying routines that the network glue relies on. Memory is an array of bytes and a
    pointer is an offset into it. */
module LibC {
  type Byte = b: int | 0 <= b < 256

  /** Memory after the bytes have been placed at an offset: nothing else changes. */
  function Placed(mem: seq<Byte>, at: nat, bytes: seq<Byte>): (r: seq<Byte>)
    requires at + |bytes| <= |mem|
    ensures |r| == |mem|
    ensures forall k :: 0 <= k < |mem| ==> r[k] == if at <= k < at + |bytes| then bytes[k - at] else mem[k]
  {
    mem[..at] + bytes + mem[at + |bytes|..]
  }

  /** Copies between places that do not overlap. */
  method MemCpy(dest: array<Byte>, at: nat, source: array<Byte>, from: nat, count: nat)
    requires at + count <= dest.Length && from + count <= source.Length
    requires dest != source || at + count <= from || from + count <= at
    modifies dest
    ensures dest[..] == Placed(old(dest[..]), at, old(source[from..from + count]))
  {
    var d, s, n := at, from, count;
    while n > 0
      invariant d == at + (count - n) && s == from + (count - n) && 0 <= n <= count
      invariant forall k :: 0 <= k < dest.Length ==>
        dest[k] == if at <= k < d then old(source[from + (k - at)]) else old(dest[k])
    {
      dest[d] := source[s];
      d, s, n := d + 1, s + 1, n - 1;
    }
  }

  /** Copies within one memory, whatever the overlap: the bytes that arrive are the bytes that were
      there before the call. */
  method MemMove(mem: array<Byte>, dest: nat, source: nat, count: nat)
    requires dest + count <= mem.Length && source + count <= mem.Length
    modifies mem
    ensures mem[..] == Placed(old(mem[..]), dest, old(mem[source..source + count]))
  {
    var d, s, n := dest, source, count;
    if d < s {
      while n > 0
        invariant d == dest + (count - n) && s == source + (count - n) && 0 <= n <= count
        invariant forall k :: 0 <= k < mem.Length ==>
          mem[k] == if dest <= k < d then old(mem[source + (k - dest)]) else old(mem[k])
      {
        mem[d] := mem[s];
        d, s, n := d + 1, s + 1, n - 1;
      }
    } else {
      d, s := d + n, s + n;
      while n > 0
        invariant d == dest + n && s == source + n && 0 <= n <= count
        invariant forall k :: 0 <= k < mem.Length ==>
          mem[k] == if d <= k < dest + count then old(mem[source + (k - dest)]) else old(mem[k])
      {
        d, s, n := d - 1, s - 1, n - 1;
        mem[d] := mem[s];
      }
    }
  }
}
