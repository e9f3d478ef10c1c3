/**
 A byte queue in blocks of a fixed size: bytes are added behind the last block
 and taken from the front of the first one, which may be partly consumed.
 */
module IoBuffer {

  import opened Wrappers

  class Block {
    const data: array<byte>
    var len: int

    ghost predicate Valid()
      reads this
    {
      0 <= len <= data.Length
    }

    ghost function Bytes(): (s: seq<byte>)
      requires Valid()
      reads this, data
    {
      data[..len]
    }

    constructor (size: nat)
      ensures Valid() && data.Length == size && len == 0 && fresh(data)
    {
      data := new byte[size];
      len := 0;
    }

    /** Copy bytes behind those that are there. */
    method Append(src: seq<byte>)
      requires Valid() && len + |src| <= data.Length
      modifies `len, data
      ensures Valid() && Bytes() == old(Bytes()) + src && len == old(len) + |src|
    {
      forall j | 0 <= j < |src| {
        data[len + j] := src[j];
      }
      len := len + |src|;
    }
  }

  /** The memory of the blocks. */
  ghost predicate Owned(blocks: seq<Block>, repr: set<object>) {
    forall i :: 0 <= i < |blocks| ==> blocks[i] in repr && blocks[i].data in repr
  }

  /** No two blocks share memory. */
  ghost predicate Apart(blocks: seq<Block>) {
    blocks != [] ==>
      var front, last := blocks[..|blocks| - 1], blocks[|blocks| - 1];
      Apart(front) && forall b :: b in front ==> b != last && b.data != last.data
  }

  lemma {:induction false} ApartTail(blocks: seq<Block>)
    requires blocks != [] && Apart(blocks)
    ensures Apart(blocks[1..])
    decreases |blocks|
  {
    if |blocks| > 1 {
      var front, tail := blocks[..|blocks| - 1], blocks[1..];
      ApartTail(front);
      assert tail[..|tail| - 1] == front[1..] && tail[|tail| - 1] == blocks[|blocks| - 1];
      assert forall b :: b in front[1..] ==> b in front;
    }
  }

  ghost predicate AllValid(blocks: seq<Block>, repr: set<object>)
    reads repr
  {
    Owned(blocks, repr) && forall i :: 0 <= i < |blocks| ==> blocks[i].Valid()
  }

  /** Blocks that hold something. */
  ghost predicate Full(blocks: seq<Block>, repr: set<object>)
    reads repr
  {
    AllValid(blocks, repr) && forall i :: 0 <= i < |blocks| ==> blocks[i].len > 0
  }

  /** The bytes of all blocks in order. */
  ghost function Join(blocks: seq<Block>, repr: set<object>): (s: seq<byte>)
    requires AllValid(blocks, repr)
    reads repr
  {
    if blocks == [] then [] else blocks[0].Bytes() + Join(blocks[1..], repr)
  }

  lemma {:induction false} JoinAppend(a: seq<Block>, b: Block, repr: set<object>)
    requires AllValid(a, repr) && b in repr && b.data in repr && b.Valid()
    ensures Join(a + [b], repr) == Join(a, repr) + b.Bytes()
    decreases |a|
  {
    if a == [] {
      assert a + [b] == [b] && [b][1..] == [];
    } else {
      assert (a + [b])[1..] == a[1..] + [b];
      JoinAppend(a[1..], b, repr);
    }
  }

  lemma {:induction false} JoinSame(a: seq<Block>, p: set<object>, q: set<object>)
    requires AllValid(a, p) && AllValid(a, q)
    ensures Join(a, p) == Join(a, q)
    decreases |a|
  {
    if a != [] {
      JoinSame(a[1..], p, q);
    }
  }

  lemma FrontIsApart(blocks: seq<Block>, repr: set<object>)
    requires AllValid(blocks, repr) && blocks != [] && Apart(blocks)
    ensures var last := blocks[|blocks| - 1]; AllValid(blocks[..|blocks| - 1], repr - {last, last.data})
  {
  }

  lemma BehindCursor(all: seq<byte>, bytes: seq<byte>, src: seq<byte>, p: nat)
    requires p <= |all + bytes|
    ensures p <= |all + (bytes + src)| && (all + (bytes + src))[p..] == (all + bytes)[p..] + src
  {
  }

  lemma LastBlock(blocks: seq<Block>, repr: set<object>, others: set<object>)
    requires AllValid(blocks, repr) && blocks != [] && AllValid(blocks[..|blocks| - 1], others)
    ensures Join(blocks, repr) == Join(blocks[..|blocks| - 1], others) + blocks[|blocks| - 1].Bytes()
  {
    var front := blocks[..|blocks| - 1];
    assert blocks == front + [blocks[|blocks| - 1]];
    JoinAppend(front, blocks[|blocks| - 1], repr);
    JoinSame(front, repr, others);
  }

  lemma JoinEmpty(a: seq<Block>, b: Block, p: set<object>, q: set<object>)
    requires AllValid(a, p) && p <= q && b in q && b.data in q && b.Valid() && b.len == 0
    ensures AllValid(a + [b], q) && Join(a + [b], q) == Join(a, p)
  {
    JoinSame(a, p, q);
    JoinAppend(a, b, q);
    assert b.Bytes() == [];
  }

  lemma FirstIsLonger(blocks: seq<Block>, repr: set<object>)
    requires AllValid(blocks, repr)
    ensures blocks != [] ==> blocks[0].len <= |Join(blocks, repr)|
  {
  }

  class IoBuffer {
    const allocationSize: int
    var buffer: seq<Block>
    var ptr: int
    ghost var Repr: set<object>

    /** No two blocks share memory, and only the last one may be empty; the cursor is in the first block. */
    ghost predicate Loose()
      reads this, Repr
    {
      && allocationSize >= 1
      && this !in Repr && AllValid(buffer, Repr)
      && (forall i :: 0 <= i < |buffer| ==> buffer[i].data.Length == allocationSize)
      && (forall i :: 0 <= i < |buffer| - 1 ==> buffer[i].len > 0)
      && Apart(buffer)
      && 0 <= ptr && (if buffer == [] then ptr == 0 else ptr < buffer[0].len || (ptr == 0 && |buffer| == 1))
    }

    ghost predicate Valid()
      reads this, Repr
    {
      Loose() && (buffer != [] ==> buffer[|buffer| - 1].len > 0)
    }

    /** The bytes in the queue. */
    ghost function Contents(): (s: seq<byte>)
      requires Loose()
      reads this, Repr
    {
      FirstIsLonger(buffer, Repr);
      Join(buffer, Repr)[ptr..]
    }

    constructor (allocationSize: int)
      requires allocationSize >= 1
      ensures Valid() && Contents() == [] && this.allocationSize == allocationSize
    {
      this.allocationSize := allocationSize;
      buffer, ptr, Repr := [], 0, {};
    }

    method Size() returns (total: int)
      requires Valid()
      ensures total == |Contents()|
    {
      total := 0;
      FirstIsLonger(buffer, Repr);
      var i := 0;
      while i < |buffer|
        invariant 0 <= i <= |buffer| && total + |Join(buffer[i..], Repr)| == |Join(buffer, Repr)|
      {
        assert buffer[i..][1..] == buffer[i + 1..];
        total := total + buffer[i].len;
        i := i + 1;
      }
      total := total - ptr;
    }

    /** A queue without blocks is the only empty one. */
    method Empty() returns (empty: bool)
      requires Valid()
      ensures empty <==> Contents() == []
    {
      FirstIsLonger(buffer, Repr);
      return buffer == [];
    }

    /** peek: copy out the first bytes, as many as there are. */
    method Peek(len: int) returns (dest: seq<byte>)
      requires Valid() && len >= 0
      ensures dest == Contents()[..if len < |Contents()| then len else |Contents()|]
    {
      FirstIsLonger(buffer, Repr);
      dest := [];
      ghost var all, repr := Contents(), Repr;
      var left, i, p := len, buffer, ptr;
      while left > 0
        invariant 0 <= left && |dest| + left == len && dest <= all && Full(i, repr)
        invariant left > 0 ==> Rest(i, repr, p, dest, all)
        decreases |i|, left
      {
        if i == [] {
          break;
        }
        var tc := i[0].len - p;
        if tc > left {
          tc := left;
        }
        CopyBlock(i, repr, p, tc, dest, all);
        dest := dest + i[0].data[p..p + tc];
        i, p := i[1..], 0;
        left := left - tc;
      }
    }

    /** removeblock */
    method RemoveBlock()
      requires buffer != []
      modifies `buffer, `ptr
      ensures buffer == old(buffer)[1..] && ptr == 0
    {
      buffer := buffer[1..];
      ptr := 0;
    }

    /** Move the cursor on in the first block, and leave the block behind when it is used up. */
    method Advance(tn: int)
      requires Valid() && buffer != [] && 0 <= tn <= buffer[0].len - ptr
      modifies `buffer, `ptr
      ensures Valid() && tn <= |old(Contents())| && Contents() == old(Contents())[tn..]
    {
      FirstIsLonger(buffer, Repr);
      InFirstBlock(buffer, Repr, ptr, tn);
      ApartTail(buffer);
      ptr := ptr + tn;
      if ptr == buffer[0].len {
        RemoveBlock();
        FirstIsLonger(buffer, Repr);
      }
    }

    /** skip: drop the first bytes. Dropping more than there are is an error of the caller. */
    method Skip(len: int)
      requires Valid() && 0 <= len <= |Contents()|
      modifies `buffer, `ptr
      ensures Valid() && Contents() == old(Contents())[len..]
    {
      hide Apart, AllValid, Block.Bytes;
      ghost var all := Contents();
      var left := len;
      while left > 0
        invariant Valid() && 0 <= left <= len <= |all| && Contents() == all[len - left..]
      {
        FirstIsLonger(buffer, Repr);
        var tn := left;
        if tn > buffer[0].len - ptr {
          tn := buffer[0].len - ptr;
        }
        TailOfTail(all, len - left, tn);
        Advance(tn);
        left := left - tn;
      }
    }

    /** read: peek, and skip what was peeked. */
    method Read(len: int) returns (dest: seq<byte>)
      requires Valid() && len >= 0
      modifies `buffer, `ptr
      ensures Valid() && dest + Contents() == old(Contents())
      ensures |dest| == if len < |old(Contents())| then len else |old(Contents())|
    {
      ghost var before := Contents();
      dest := Peek(len);
      Skip(|dest|);
      assert before == before[..|dest|] + before[|dest|..];
    }

    /** The write of the kernel takes a prefix, or fails. */
    method WriteFd(data: seq<byte>) returns (w: int)
      ensures -1 <= w <= |data|
    {
      w :| -1 <= w <= |data|;
    }

    /** tofile: what was written is gone from the queue, and nothing else. */
    method ToFile(len: int) returns (written: int, ghost sent: seq<byte>)
      requires Valid() && len >= 0
      modifies `buffer, `ptr
      ensures Valid() && 0 <= written <= len
      ensures sent + Contents() == old(Contents()) && |sent| == written
    {
      written, sent := 0, [];
      var left := len;
      while left > 0 && buffer != []
        invariant Valid() && 0 <= left && written + left == len
        invariant sent + Contents() == old(Contents()) && |sent| == written
        decreases left
      {
        FirstIsLonger(buffer, Repr);
        var tc := buffer[0].len - ptr;
        if tc > left {
          tc := left;
        }
        var w := WriteFd(buffer[0].data[ptr..ptr + tc]);
        if w < 0 {
          w := 0;
        }
        ghost var before := Contents();
        Advance(w);
        Regroup(sent, before, w);
        sent := sent + before[..w];
        written := written + w;
        left := left - w;
        if tc != w {
          break;
        }
      }
    }

    /** The first place of a character in a block, or its end. */
    method SearchBlock(b: Block, from: int, ch: int) returns (p: int)
      requires b.Valid() && 0 <= from <= b.len
      ensures from <= p <= b.len && (p < b.len ==> b.data[p] as int == ch)
      ensures forall k :: from <= k < p ==> b.data[k] as int != ch
    {
      p := from;
      while p < b.len && b.data[p] as int != ch
        invariant from <= p <= b.len && forall k :: from <= k < p ==> b.data[k] as int != ch
      {
        p := p + 1;
      }
    }

    /** searchchr: the first place of a character. A byte is never equal to a negative char. */
    method SearchChr(ch: int) returns (c: int)
      requires Valid() && -128 <= ch < 128
      ensures c == -1 ==> forall k :: 0 <= k < |Contents()| ==> Contents()[k] as int != ch
      ensures c != -1 ==> 0 <= c < |Contents()| && Contents()[c] as int == ch
                          && forall k :: 0 <= k < c ==> Contents()[k] as int != ch
    {
      hide Apart, Block.Bytes;
      FirstIsLonger(buffer, Repr);
      ghost var all, repr := Contents(), Repr;
      var i, p := buffer, ptr;
      c := 0;
      while i != []
        invariant Full(i, repr) && 0 <= c <= |all| && 0 <= p <= |Join(i, repr)| && (i != [] ==> p <= i[0].len)
        invariant all[c..] == Join(i, repr)[p..]
        invariant forall k :: 0 <= k < c ==> all[k] as int != ch
        decreases |i|
      {
        var q := SearchBlock(i[0], p, ch);
        Matched(i, repr, p, q, all, c);
        c := c + (q - p);
        if q < i[0].len {
          return;
        }
        i, p := i[1..], 0;
      }
      assert all[c..] == [];
      c := -1;
    }

    /** addblock */
    method AddBlock()
      requires Valid()
      modifies `buffer, `Repr
      ensures Loose() && Contents() == old(Contents())
      ensures |buffer| == |old(buffer)| + 1 && buffer[..|old(buffer)|] == old(buffer)
      ensures Repr >= old(Repr) && fresh(Repr - old(Repr))
      ensures buffer[|buffer| - 1].len == 0
    {
      hide Join, Block.Bytes;
      var b := new Block(allocationSize);
      ghost var repr := Repr + {b, b.data};
      FirstIsLonger(buffer, Repr);
      JoinEmpty(buffer, b, Repr, repr);
      assert (buffer + [b])[..|buffer|] == buffer;
      buffer := buffer + [b];
      Repr := repr;
    }

    /** Copy bytes behind the last block's. */
    method Fill(src: seq<byte>)
      requires Loose() && buffer != [] && 0 < |src| <= allocationSize - buffer[|buffer| - 1].len
      modifies buffer[|buffer| - 1], buffer[|buffer| - 1].data
      ensures Valid() && Contents() == old(Contents()) + src
    {
      hide Join, Apart;
      var last := buffer[|buffer| - 1];
      ghost var front, others := buffer[..|buffer| - 1], Repr - {last, last.data};
      FrontIsApart(buffer, Repr);
      LastBlock(buffer, Repr, others);
      FirstIsLonger(buffer, Repr);
      ghost var all, bytes := Join(front, others), last.Bytes();
      last.Append(src);
      LastBlock(buffer, Repr, others);
      BehindCursor(all, bytes, src, ptr);
    }

    /** One round of write: at least one byte goes into the last block, or a new one. */
    method WriteSome(source: seq<byte>) returns (tc: int)
      requires Valid() && source != []
      modifies `buffer, `Repr, Repr
      ensures 0 < tc <= |source| && Valid() && Contents() == old(Contents()) + source[..tc] && fresh(Repr - old(Repr))
    {
      tc := |source|;
      if buffer == [] || allocationSize == buffer[|buffer| - 1].len {
        AddBlock();
      }
      if tc > allocationSize - buffer[|buffer| - 1].len {
        tc := allocationSize - buffer[|buffer| - 1].len;
      }
      Fill(source[..tc]);
    }

    /** write: the bytes are added at the end. */
    method Write(source: seq<byte>)
      requires Valid()
      modifies `buffer, `Repr, Repr
      ensures Valid() && Contents() == old(Contents()) + source && fresh(Repr - old(Repr))
    {
      hide Join, AllValid, Apart, IoBuffer.Contents;
      ghost var before := Contents();
      var k := 0;
      while k < |source|
        invariant 0 <= k <= |source| && Valid() && Contents() == before + source[..k]
        invariant fresh(Repr - old(Repr))
      {
        var tc := WriteSome(source[k..]);
        Extend(before, source, k, tc);
        k := k + tc;
      }
      assert source[..k] == source;
    }
  }

  lemma Extend(before: seq<byte>, source: seq<byte>, k: nat, tc: nat)
    requires k + tc <= |source|
    ensures before + source[..k] + source[k..][..tc] == before + source[..k + tc]
  {
    assert source[..k] + source[k..][..tc] == source[..k + tc];
  }

  /** Bytes of the first block from p to q are those of the whole from c on. */
  lemma Matched(blocks: seq<Block>, repr: set<object>, p: nat, q: nat, all: seq<byte>, c: nat)
    requires AllValid(blocks, repr) && blocks != [] && p <= q <= blocks[0].len
    requires c <= |all| && p <= |Join(blocks, repr)| && all[c..] == Join(blocks, repr)[p..]
    ensures c + q - p <= |all| && forall k :: c <= k < c + q - p ==> all[k] == blocks[0].data[p + (k - c)]
    ensures q < blocks[0].len ==> c + q - p < |all| && all[c + q - p] == blocks[0].data[q]
    ensures q == blocks[0].len ==> all[c + q - p..] == Join(blocks[1..], repr)
  {
    var joined := Join(blocks, repr);
    assert joined == blocks[0].Bytes() + Join(blocks[1..], repr);
    forall k | c <= k < |all|
      ensures all[k] == joined[p + (k - c)]
    {
      assert all[k] == all[c..][k - c];
    }
    assert q == blocks[0].len ==> all[c + q - p..] == joined[q..];
  }

  lemma TailOfTail(all: seq<byte>, p: nat, n: nat)
    requires p + n <= |all|
    ensures all[p..][n..] == all[p + n..]
  {
  }

  lemma Regroup(a: seq<byte>, b: seq<byte>, n: nat)
    requires n <= |b|
    ensures a + b[..n] + b[n..] == a + b
  {
  }

  /** What is still to be copied: the blocks from the cursor on. */
  ghost predicate Rest(blocks: seq<Block>, repr: set<object>, p: int, dest: seq<byte>, all: seq<byte>)
    requires AllValid(blocks, repr)
    reads repr
  {
    && 0 <= p && (if blocks != [] then p < blocks[0].len else p == 0)
    && p <= |Join(blocks, repr)| && dest + Join(blocks, repr)[p..] == all
  }

  /** Copying a part of the first block, and going on with the next one if the block was finished. */
  lemma CopyBlock(blocks: seq<Block>, repr: set<object>, p: nat, tc: nat, dest: seq<byte>, all: seq<byte>)
    requires Full(blocks, repr) && blocks != [] && p + tc <= blocks[0].len && Rest(blocks, repr, p, dest, all)
    ensures dest + blocks[0].data[p..p + tc] <= all
    ensures p + tc == blocks[0].len ==> Rest(blocks[1..], repr, 0, dest + blocks[0].data[p..p + tc], all)
  {
  }

  /** Moving on in the first block moves on in the whole, and its end is the beginning of the rest. */
  lemma InFirstBlock(blocks: seq<Block>, repr: set<object>, p: nat, n: nat)
    requires AllValid(blocks, repr) && blocks != [] && p + n <= blocks[0].len
    ensures var all := Join(blocks, repr);
      p + n <= |all| && all[p..][n..] == all[p + n..]
        && (p + n == blocks[0].len ==> all[p + n..] == Join(blocks[1..], repr)[0..])
  {
  }
}
