/** tools.c: byte loops over one memory, in which ranges may overlap. */
module Tools {
  import opened Common

  /** `mem` with the n bytes at s copied over the n bytes at d. */
  function Copied(mem: seq<byte>, d: nat, s: nat, n: nat): (r: seq<byte>)
    requires d + n <= |mem| && s + n <= |mem|
    ensures |r| == |mem|
  {
    mem[..d] + mem[s..s + n] + mem[d + n..]
  }

  /** `mem` with the n bytes at d all set to v. */
  function Filled(mem: seq<byte>, d: nat, n: nat, v: byte): (r: seq<byte>)
    requires d + n <= |mem|
    ensures |r| == |mem|
  {
    mem[..d] + seq(n, _ => v) + mem[d + n..]
  }

  /** The destination is the old source, and every byte outside it is as it was. */
  lemma CopiedBytes(mem: seq<byte>, d: nat, s: nat, n: nat, k: nat)
    requires d + n <= |mem| && s + n <= |mem| && k < |mem|
    ensures Copied(mem, d, s, n)[k] == if d <= k < d + n then mem[s + (k - d)] else mem[k]
  {
  }

  /** A byte pointer moving down, for a destination that starts inside the source. */
  method CopyDown(mem: array<byte>, dst: nat, src: nat, n: nat)
    requires src < dst < src + n && dst + n <= mem.Length
    modifies mem
    ensures mem[..] == Copied(old(mem[..]), dst, src, n)
  {
    ghost var was := mem[..];
    var s, d, left := src + n, dst + n, n;
    while left > 0
      invariant 0 <= left <= n && s == src + left && d == dst + left
      invariant forall k :: 0 <= k < dst + left ==> mem[k] == old(mem[k])
      invariant forall k :: dst + left <= k < dst + n ==> mem[k] == was[src + (k - dst)]
      invariant forall k :: dst + n <= k < mem.Length ==> mem[k] == old(mem[k])
    {
      left := left - 1;
      d := d - 1;
      s := s - 1;
      mem[d] := mem[s];
    }
    CopiedAll(was, mem[..], dst, src, n);
  }

  /** A byte pointer moving up, for every other case. */
  method CopyUp(mem: array<byte>, dst: nat, src: nat, n: nat)
    requires dst <= src || src + n <= dst
    requires dst + n <= mem.Length && src + n <= mem.Length
    modifies mem
    ensures mem[..] == Copied(old(mem[..]), dst, src, n)
  {
    ghost var was := mem[..];
    var s, d, left := src, dst, n;
    while left > 0
      invariant 0 <= left <= n && s == src + (n - left) && d == dst + (n - left)
      invariant forall k :: dst <= k < d ==> mem[k] == was[src + (k - dst)]
      invariant forall k :: 0 <= k < dst || d <= k < mem.Length ==> mem[k] == old(mem[k])
    {
      left := left - 1;
      mem[d] := mem[s];
      d := d + 1;
      s := s + 1;
    }
    CopiedAll(was, mem[..], dst, src, n);
  }

  lemma CopiedAll(was: seq<byte>, now: seq<byte>, d: nat, s: nat, n: nat)
    requires |now| == |was| && d + n <= |was| && s + n <= |was|
    requires forall k {:trigger now[k]} :: 0 <= k < |was| ==> now[k] == if d <= k < d + n then was[s + (k - d)] else was[k]
    ensures now == Copied(was, d, s, n)
  {
    forall k | 0 <= k < |was| ensures now[k] == Copied(was, d, s, n)[k] { CopiedBytes(was, d, s, n, k); }
  }

  /** memmove: right for every overlap, because the direction is chosen so that no source
      byte is overwritten before it is read. */
  method Memmove(mem: array<byte>, dst: nat, src: nat, n: nat) returns (r: nat)
    requires dst + n <= mem.Length && src + n <= mem.Length
    modifies mem
    ensures r == dst && mem[..] == Copied(old(mem[..]), dst, src, n)
  {
    if n == 0 { return dst; }
    if src < dst && src + n > dst {
      CopyDown(mem, dst, src, n);
    } else {
      CopyUp(mem, dst, src, n);
    }
    r := dst;
  }

  /** set_memory: value as a char. */
  method SetMemory(mem: array<byte>, start: nat, value: int, length: nat) returns (r: nat)
    requires start + length <= mem.Length && length < 0x8000_0000
    modifies mem
    ensures r == start && mem[..] == Filled(old(mem[..]), start, length, value % 256)
  {
    var v: byte := value % 256;
    for i := 0 to length
      invariant forall k :: start <= k < start + i ==> mem[k] == v
      invariant forall k :: 0 <= k < start || start + i <= k < mem.Length ==> mem[k] == old(mem[k])
    {
      mem[start + i] := v;
    }
    r := start;
  }
}
