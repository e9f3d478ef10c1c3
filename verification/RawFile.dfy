/**
 Files that are split into pieces: name, name.001, name.002, ... A reader sees
 their concatenation, with seeks and reads at any offset, while one piece is
 open at a time and the kernel may return fewer bytes than it was asked for.
 */
module RawFile {

  import opened Wrappers

  type File = seq<byte>

  /** size_t has 64 bits: a byte count that became negative is a huge one. */
  const SIZE := 0x1_0000_0000_0000_0000

  function ToSize(x: int): (n: int)
    ensures 0 <= n < SIZE && (0 <= x < SIZE ==> n == x)
  {
    x % SIZE
  }

  function Concat(pieces: seq<File>): (all: File) {
    if pieces == [] then [] else Concat(pieces[..|pieces| - 1]) + pieces[|pieces| - 1]
  }

  /** All pieces have the split size, except perhaps the last one. A single file may be empty. */
  ghost predicate Regular(pieces: seq<File>) {
    |pieces| >= 1
    && (|pieces| >= 2 ==> |pieces[0]| > 0)
    && forall i :: 0 <= i < |pieces| - 1 ==> |pieces[i]| == |pieces[0]|
  }

  lemma {:induction false} PieceInConcat(pieces: seq<File>, split: nat, k: nat)
    requires k < |pieces| && forall i :: 0 <= i < |pieces| - 1 ==> |pieces[i]| == split
    ensures split * k + |pieces[k]| <= |Concat(pieces)|
    ensures Concat(pieces)[split * k..split * k + |pieces[k]|] == pieces[k]
    ensures |Concat(pieces)| == split * (|pieces| - 1) + |pieces[|pieces| - 1]|
    decreases |pieces|
  {
    var rest, last := pieces[..|pieces| - 1], pieces[|pieces| - 1];
    if rest != [] {
      PieceInConcat(rest, split, if k < |rest| then k else 0);
      OneMore(split, |rest|);
      if k < |rest| {
        assert Concat(pieces)[..|Concat(rest)|] == Concat(rest);
      }
    } else {
      assert Concat(rest) == [];
    }
  }

  lemma OneMore(split: int, n: nat)
    requires n > 0
    ensures split * (n - 1) + split == split * n
  {
  }

  /** What lies in one piece lies at its place in the whole. */
  lemma SliceOfPiece(pieces: seq<File>, split: nat, k: nat, from: nat, to: nat)
    requires k < |pieces| && from <= to <= |pieces[k]|
    requires forall i :: 0 <= i < |pieces| - 1 ==> |pieces[i]| == split
    ensures split * k + to <= |Concat(pieces)|
    ensures Concat(pieces)[split * k + from..split * k + to] == pieces[k][from..to]
  {
    PieceInConcat(pieces, split, k);
    SliceOfSlice(Concat(pieces), split * k, split * k + |pieces[k]|, from, to);
  }

  lemma SliceOfSlice(all: File, low: nat, high: nat, from: nat, to: nat)
    requires low <= high <= |all| && from <= to <= high - low
    ensures all[low..high][from..to] == all[low + from..low + to]
  {
    var x, y := all[low..high][from..to], all[low + from..low + to];
    forall i | 0 <= i < to - from
      ensures x[i] == y[i]
    {
      assert x[i] == all[low..high][from + i] == all[low + from + i];
    }
  }

  lemma OneFile(pieces: seq<File>)
    requires |pieces| == 1
    ensures Concat(pieces) == pieces[0]
  {
    assert pieces[..|pieces| - 1] == [];
    assert Concat(pieces[..|pieces| - 1]) == [];
  }

  /** The number of the piece that an offset falls into; offsets behind the end belong to the last one. */
  function PieceOf(off: nat, split: nat, n: nat): (k: nat)
    requires split > 0 && n > 0
    ensures k < n && split * k <= off && (k < n - 1 ==> off < split * k + split)
  {
    if off / split >= n then
      DivBounds(off, split, n);
      n - 1
    else
      DivMod(off, split);
      off / split
  }

  lemma DivMod(off: nat, split: nat)
    requires split > 0
    ensures split * (off / split) <= off < split * (off / split) + split
  {
    assert off == split * (off / split) + off % split;
  }

  lemma DivBounds(off: nat, split: nat, n: nat)
    requires split > 0 && n > 0 && off / split >= n
    ensures split * (n - 1) <= off
  {
    assert off == split * (off / split) + off % split;
    assert split * (n - 1) <= split * (off / split);
  }

  datatype Whence = Set | Cur | End

  class RawFile {
    // the directory, and what the kernel knows of the open file
    var files: seq<File>
    var fd: int
    var position: int

    const cached: bool
    var splitSize: int
    var totalLength: int
    var currentOffset: int
    var lastOffset: int
    var baseOffset: int
    var nrFiles: int
    var currentFile: int

    ghost function Contents(): (all: File)
      reads this
    {
      Concat(files)
    }

    /** A file that has been opened. */
    ghost predicate Valid()
      reads this
    {
      && Regular(files) && nrFiles == |files| && splitSize >= 0 && 0 <= fd < nrFiles && fd == currentFile
        && position >= 0
      && (nrFiles == 1 ==> baseOffset == 0 && (currentOffset == position || currentOffset == -1))
      && (nrFiles >= 2 ==>
            && splitSize == |files[0]| && totalLength == |Contents()|
            && baseOffset == splitSize * fd && lastOffset == baseOffset + position && currentOffset >= 0)
    }

    constructor (files: seq<File>, cached: bool)
      ensures this.files == files && this.cached == cached
      ensures currentFile == 0 && baseOffset == 0
    {
      this.files, this.cached := files, cached;
      fd, position := -1, 0;
      splitSize, totalLength, currentOffset, baseOffset, lastOffset, nrFiles, currentFile := 0, 0, 0, 0, 0, 0, 0;
    }

    /** scan: count the pieces and add up their lengths. There are at most 1000. */
    method Scan()
      modifies `nrFiles, `totalLength, `splitSize
      ensures nrFiles == if |files| < 1000 then |files| else 1000
      ensures totalLength == |Concat(files[..nrFiles])|
      ensures |files| > 0 ==> splitSize == |files[0]|
    {
      nrFiles, totalLength := 0, 0;
      while nrFiles < 1000
        invariant 0 <= nrFiles <= 1000 && nrFiles <= |files|
        invariant totalLength == |Concat(files[..nrFiles])|
        invariant nrFiles > 0 ==> splitSize == |files[0]|
      {
        if nrFiles >= |files| {
          break;
        }
        if nrFiles == 0 {
          splitSize := |files[0]|;
        }
        totalLength := totalLength + |files[nrFiles]|;
        assert files[..nrFiles + 1][..nrFiles] == files[..nrFiles];
        nrFiles := nrFiles + 1;
      }
    }

    method Open() returns (r: int)
      requires currentFile == 0 && baseOffset == 0
      requires Regular(files) && |files| <= 1000
      modifies this
      ensures Valid() && r >= 0 && (cached ==> r == 0) && files == old(files) && currentOffset == 0
    {
      Scan();
      assert files[..nrFiles] == files;
      currentOffset, lastOffset := 0, 0;
      fd, position := 0, 0;
      if cached {
        return 0;
      }
      r :| r >= 0;
    }

    /** lseek of the kernel: a negative position is refused. */
    method SeekFd(offset: int) returns (r: int)
      requires position >= 0
      modifies `position
      ensures offset >= 0 ==> r == position == offset
      ensures offset < 0 ==> r == -1 && position == old(position)
    {
      if offset < 0 {
        return -1;
      }
      position := offset;
      return offset;
    }

    /** read of the kernel: at least one byte before the end of the file, or an error. */
    method ReadFd(count: int) returns (ret: int, data: File)
      requires 0 <= fd < |files| && position >= 0 && count >= 0
      modifies `position
      ensures ret <= count && position == old(position) + (if ret > 0 then ret else 0)
      ensures ret > 0 ==> position <= |files[fd]| && data == files[fd][old(position)..position]
      ensures ret == 0 ==> count == 0 || old(position) >= |files[fd]|
      ensures ret <= 0 ==> data == []
    {
      ret, data := 0, [];
      if * {
        ret := -1;
      } else if count > 0 && position < |files[fd]| {
        var most := if count < |files[fd]| - position then count else |files[fd]| - position;
        ret :| 1 <= ret <= most;
        data := files[fd][position..position + ret];
        position := position + ret;
      }
    }

    /** The one file may grow while it is read. */
    method Grow(more: File)
      requires Valid() && nrFiles == 1
      modifies `files
      ensures Valid() && Contents() == old(Contents()) + more && nrFiles == 1
    {
      files := [files[0] + more];
      OneFile(old(files));
      OneFile(files);
    }

    /** lseek_internal */
    method LseekInternal(offset: int, whence: Whence) returns (r: int)
      requires Valid()
      modifies `position, `currentOffset
      ensures r >= 0 ==> position >= 0 && (nrFiles == 1 ==> r == position)
      ensures nrFiles >= 2 ==> position == old(position) && r == currentOffset
      ensures var target := match whence
          case Set => offset
          case Cur => (if nrFiles == 1 then old(position) else old(currentOffset)) + offset
          case End => |Contents()| + offset;
        r == if target >= 0 then target else if nrFiles >= 2 then 0 else if cached then old(position) else -1
      ensures position >= 0 && (r < 0 ==> position == old(position))
      ensures nrFiles == 1 ==> currentOffset == old(currentOffset)
    {
      if nrFiles < 2 {
        OneFile(files);
        var target := match whence case Set => offset case Cur => position + offset case End => |files[0]| + offset;
        r := SeekFd(target);
        if cached {
          r := position;
        }
        return;
      }
      match whence {
        case Set => currentOffset := offset;
        case Cur => currentOffset := currentOffset + offset;
        case End => currentOffset := totalLength + offset;
      }
      if currentOffset < 0 {
        currentOffset := 0;
      }
      return currentOffset;
    }

    /** lseek */
    method Lseek(offset: int, whence: Whence) returns (r: int)
      requires Valid()
      modifies `position, `currentOffset
      ensures Valid() && r == currentOffset
      ensures var target := match whence
          case Set => offset
          case Cur => (if nrFiles == 1 then old(position) else old(currentOffset)) + offset
          case End => |Contents()| + offset;
        r == if target >= 0 then target else if nrFiles >= 2 then 0 else if cached then old(position) else -1
    {
      r := LseekInternal(offset, whence);
      currentOffset := r;
    }

    /** switchOffset: open the piece that holds the offset, and go to it. */
    method SwitchOffset(off: int) returns (r: int)
      requires Valid() && off >= 0 && (nrFiles == 1 ==> position == off)
      modifies `fd, `position, `currentFile, `baseOffset, `lastOffset
      ensures Valid() && r == lastOffset == off && baseOffset + position == off
      ensures nrFiles >= 2 ==> off < |Contents()| ==> position < |files[fd]|
    {
      PieceInConcat(files, if nrFiles == 1 then 0 else splitSize, 0);
      if splitSize != 0 {
        ghost var k := PieceOf(off, splitSize, nrFiles);
        var filenr := off / splitSize;
        if filenr >= nrFiles {
          filenr := nrFiles - 1;
        }
        if filenr != currentFile {
          fd, position := filenr, 0;
          baseOffset := splitSize * filenr;
          lastOffset := baseOffset;
          currentFile := filenr;
        }
      } else {
        baseOffset := 0;
      }
      if off != lastOffset {
        r := SeekFd(off - baseOffset);
        lastOffset := r + baseOffset;
      }
      return lastOffset;
    }

    /** The end of read: fetch from the open piece, and move on by what was fetched. */
    method Fetch(count: int) returns (ret: int, data: File)
      requires Valid() && currentOffset >= 0 && count >= 0 && lastOffset == currentOffset == baseOffset + position
      modifies `position, `lastOffset, `currentOffset
      ensures Valid()
      ensures ret <= count && (ret <= 0 ==> data == [])
      ensures ret > 0 ==> old(currentOffset) + ret <= |Contents()| &&
                          data == Contents()[old(currentOffset)..old(currentOffset) + ret]
      ensures ret == 0 ==> count == 0 || old(position) >= |files[fd]|
      ensures currentOffset == old(currentOffset) + (if ret > 0 then ret else 0)
    {
      ghost var from := position;
      ret, data := ReadFd(count);
      if ret > 0 {
        SliceOfPiece(files, if nrFiles >= 2 then splitSize else 0, fd, from, position);
        lastOffset := lastOffset + ret;
        currentOffset := lastOffset;
      }
    }

    /** read: the bytes at the offset, and at least one of them before the end unless the kernel reports an error. */
    method Read(offset: int, count: int) returns (ret: int, data: File)
      requires Valid() && offset >= 0 && 0 <= count < SIZE
      modifies `fd, `position, `currentFile, `baseOffset, `lastOffset, `currentOffset
      ensures Valid()
      ensures ret <= count && (ret <= 0 ==> data == [])
      ensures ret > 0 ==> offset + ret <= |Contents()| && data == Contents()[offset..offset + ret]
      ensures ret == 0 ==> count == 0 || offset >= |Contents()|
      ensures currentOffset == offset + (if ret > 0 then ret else 0)
    {
      if offset != currentOffset {
        currentOffset := LseekInternal(offset, Set);
        if currentOffset < 0 {
          return currentOffset, [];
        }
      }
      var l := SwitchOffset(currentOffset);
      var n := count;
      if nrFiles >= 2 {
        if currentOffset + n > totalLength {
          n := ToSize(totalLength - currentOffset);
        }
      } else {
        OneFile(files);
      }
      ret, data := Fetch(n);
    }
  }
}
