/** The random sources installed before any cryptography loads: chunked filling of byte views. */
module RandomFill {

  type Byte = bv8

  /** The most bytes getRandomBytes hands out in one request. */
  const MAX: nat := 1024

  /** expo-crypto's generator, reading an unknown tape of random bytes. */
  class Generator {
    const tape: nat -> Byte
    var position: nat
    var requests: seq<nat>

    constructor (tape: nat -> Byte)
      ensures this.tape == tape && position == 0 && requests == []
    {
      this.tape := tape;
      position, requests := 0, [];
    }

    /** Larger requests are rejected by the native module. */
    method GetRandomBytes(count: nat) returns (bytes: seq<Byte>)
      requires count <= MAX
      modifies this
      ensures bytes == seq(count, i requires 0 <= i => tape(old(position) + i))
      ensures position == old(position) + count && requests == old(requests) + [count]
    {
      var from := position;
      bytes := seq(count, i requires 0 <= i => tape(from + i));
      position := position + count;
      requests := requests + [count];
    }
  }

  /** new Uint8Array(buffer, byteOffset, byteLength): writes past its end are ignored. */
  class ByteView {
    const buffer: array<Byte>
    const byteOffset: nat
    const length: nat
    // The indices assigned so far, in order.
    ghost var written: seq<nat>

    ghost predicate Valid() {
      byteOffset + length <= buffer.Length
    }

    constructor (buffer: array<Byte>, byteOffset: nat, length: nat)
      requires byteOffset + length <= buffer.Length
      ensures Valid() && this.buffer == buffer && this.byteOffset == byteOffset && this.length == length && written == []
    {
      this.buffer, this.byteOffset, this.length := buffer, byteOffset, length;
      written := [];
    }

    method Set(i: nat, v: Byte)
      requires Valid()
      modifies buffer, this`written
      ensures written == old(written) + [i]
      ensures buffer[..] == if i < length then old(buffer[..])[byteOffset + i := v] else old(buffer[..])
    {
      written := written + [i];
      if i < length {
        buffer[byteOffset + i] := v;
      }
    }
  }

  function Sum(s: seq<nat>): nat {
    if s == [] then 0 else Sum(s[..|s| - 1]) + s[|s| - 1]
  }

  /** Requests that were all allowed, none of them empty. */
  predicate Allowed(s: seq<nat>) {
    forall i :: 0 <= i < |s| ==> 1 <= s[i] <= MAX
  }

  /** The request sizes for n bytes: full chunks and a remainder. */
  function Chunks(n: nat): seq<nat> {
    if n == 0 then [] else [Min(MAX, n)] + Chunks(n - Min(MAX, n))
  }

  lemma {:induction false} SumFront(k: nat, s: seq<nat>)
    ensures Sum([k] + s) == k + Sum(s)
  {
    if s == [] {
      assert [k] + s == [k] && [k][..0] == [];
    } else {
      assert ([k] + s)[..|s|] == [k] + s[..|s| - 1];
      SumFront(k, s[..|s| - 1]);
    }
  }

  /** No request is empty or rejected, they add up to n, and there are no more than needed. */
  lemma {:induction false} ChunksFit(n: nat)
    ensures Allowed(Chunks(n)) && Sum(Chunks(n)) == n && |Chunks(n)| == (n + MAX - 1) / MAX
  {
    if n > 0 {
      var k := Min(MAX, n);
      ChunksFit(n - k);
      SumFront(k, Chunks(n - k));
    }
  }

  /** The bytes of `before` with `count` bytes from `start` on replaced by the tape from `position` on. */
  ghost predicate FilledWindow(after: seq<Byte>, before: seq<Byte>, start: nat, count: nat, tape: nat -> Byte, position: nat) {
    && |after| == |before|
    && forall j :: 0 <= j < |before| ==>
         after[j] == if start <= j < start + count then tape(position + (j - start)) else before[j]
  }

  function Min(a: nat, b: nat): nat {
    if a < b then a else b
  }

  /** The next byte of the tape, assigned to the next index of a view of `length` bytes. */
  lemma OneMoreByte(now: seq<Byte>, before: seq<Byte>, start: nat, length: nat, k: nat, tape: nat -> Byte, position: nat)
    requires start + length <= |before| && FilledWindow(now, before, start, Min(k, length), tape, position)
    ensures FilledWindow(if k < length then now[start + k := tape(position + k)] else now,
                         before, start, Min(k + 1, length), tape, position)
    ensures Upto(k + 1) == Upto(k) + [k]
  {
  }

  /** 0, 1, ..., n - 1 */
  function Upto(n: nat): seq<nat> {
    seq(n, i => i)
  }

  /** Indices 0 to k - 1 have been assigned, in order, from the tape; those outside the view were ignored. */
  ghost predicate Progress(out: ByteView, before: seq<Byte>, earlier: seq<nat>, k: nat, tape: nat -> Byte, position: nat)
    reads out, out.buffer
  {
    out.written == earlier + Upto(k) && FilledWindow(out.buffer[..], before, out.byteOffset, Min(k, out.length), tape, position)
  }

  /** The inner loop. */
  method CopyChunk(out: ByteView, offset: nat, random: seq<Byte>,
                   ghost before: seq<Byte>, ghost earlier: seq<nat>, ghost tape: nat -> Byte, ghost position: nat)
    requires out.Valid() && Progress(out, before, earlier, offset, tape, position)
    requires forall i :: 0 <= i < |random| ==> random[i] == tape(position + offset + i)
    modifies out.buffer, out`written
    ensures Progress(out, before, earlier, offset + |random|, tape, position)
  {
    for i := 0 to |random|
      invariant Progress(out, before, earlier, offset + i, tape, position)
    {
      OneMoreByte(out.buffer[..], before, out.byteOffset, out.length, offset + i, tape, position);
      out.Set(offset + i, random[i]);
    }
  }

  /**
   The first n bytes of the view come from the generator, each written once and
   in order from its own position of the tape; nothing else in the buffer changes.
   */
  method FillRandom(rng: Generator, out: ByteView, n: nat)
    requires out.Valid()
    modifies rng, out.buffer, out`written
    ensures out.written == old(out.written) + Upto(n)
    ensures FilledWindow(out.buffer[..], old(out.buffer[..]), out.byteOffset, Min(n, out.length), rng.tape, old(rng.position))
    ensures rng.position == old(rng.position) + n && rng.requests == old(rng.requests) + Chunks(n)
  {
    ghost var before, from, asked, earlier := out.buffer[..], rng.position, rng.requests, out.written;
    var offset := 0;
    while offset < n
      invariant rng.position == from + Min(offset, n)
      invariant Progress(out, before, earlier, Min(offset, n), rng.tape, from)
      invariant rng.requests + Chunks(n - Min(offset, n)) == asked + Chunks(n)
    {
      var chunk := Min(MAX, n - offset);
      assert Chunks(n - offset) == [chunk] + Chunks(n - Min(offset + MAX, n));
      var random := rng.GetRandomBytes(chunk);
      CopyChunk(out, offset, random, before, earlier, rng.tape, from);
      offset := offset + MAX;
    }
  }

  /** The getRandomValues shim: a typed array is filled through a byte view of its own window. */
  method GetRandomValues(rng: Generator, buffer: array<Byte>, byteOffset: nat, byteLength: nat)
    requires byteOffset + byteLength <= buffer.Length
    modifies rng, buffer
    ensures FilledWindow(buffer[..], old(buffer[..]), byteOffset, byteLength, rng.tape, old(rng.position))
    ensures rng.position == old(rng.position) + byteLength && rng.requests == old(rng.requests) + Chunks(byteLength)
  {
    var view := new ByteView(buffer, byteOffset, byteLength);
    FillRandom(rng, view, view.length);
  }
}
