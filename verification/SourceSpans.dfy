/**
 The spans of a recording that are to be played. Offsets are 64-bit file
 offsets; a transport stream packet has 188 bytes. In normal play the next span
 is the rest of the one the current offset lies in, or the next one after it.
 */
module SourceSpans {

  const BLOCK_SIZE := 188

  import opened Wrappers

  /** align(x, 188): align toward zero. */
  function Align(x: int): (y: int)
    ensures y % BLOCK_SIZE == 0 && (if x >= 0 then 0 <= y <= x < y + BLOCK_SIZE else y - BLOCK_SIZE < x <= y <= 0)
  {
    if x < 0 then -(-x - (-x) % BLOCK_SIZE) else x - x % BLOCK_SIZE
  }

  /** The largest span handed out. */
  const MAX_SPAN := Align(10 * 1024 * 1024)

  datatype Span = Span(first: int, second: int)

  /** Sorted, disjoint and not empty. */
  ghost predicate Ordered(spans: seq<Span>) {
    && (forall i :: 0 <= i < |spans| ==> 0 <= spans[i].first < spans[i].second)
    && (forall i, j :: 0 <= i < j < |spans| ==> spans[i].second <= spans[j].first)
  }

  /** Ordered, and made of whole packets. */
  ghost predicate Regular(spans: seq<Span>) {
    && Ordered(spans)
    && forall i :: 0 <= i < |spans| ==> spans[i].first % BLOCK_SIZE == 0 && spans[i].second % BLOCK_SIZE == 0
  }

  lemma WholePackets(x: int)
    requires x % BLOCK_SIZE == 0
    ensures Align(x) == x
  {
  }

  ghost predicate InSpan(spans: seq<Span>, x: int) {
    exists i :: 0 <= i < |spans| && spans[i].first <= x < spans[i].second
  }

  /** Span i is the first whose aligned end lies behind current. */
  ghost predicate IsNext(spans: seq<Span>, current: int, i: int) {
    && 0 <= i < |spans| && current < Align(spans[i].second)
    && forall j :: 0 <= j < i ==> Align(spans[j].second) <= current
  }

  /**
   getNextSourceSpan in normal play. Without spans everything is played. The first span that is not over is played from
   the aligned offset or from its own beginning, which is not aligned: a span that does not begin at a packet can be
   left by less than a packet.
   */
  method GetNextSourceSpan(spans: seq<Span>, offset: int) returns (start: int, size: int)
    requires Ordered(spans) && offset >= 0
    ensures size % BLOCK_SIZE == 0 && 0 <= size <= MAX_SPAN && start >= Align(offset)
    ensures spans == [] ==> start == Align(offset) && size == 10485700
    ensures forall i :: IsNext(spans, Align(offset), i) ==> IsPartOf(spans[i], Align(offset), start, size)
    ensures spans != [] && (forall i :: !IsNext(spans, Align(offset), i)) ==> start == Align(offset) && size == 0
    ensures Regular(spans) ==> start % BLOCK_SIZE == 0
    ensures Regular(spans) && spans != [] ==>
      && (forall x :: Align(offset) <= x < start ==> !InSpan(spans, x))
      && (size == 0 <==> forall x :: x >= Align(offset) ==> !InSpan(spans, x))
      && (size > 0 ==> exists i :: 0 <= i < |spans| && spans[i].first <= start && start + size <= spans[i].second)
  {
    hide Align, Regular, InSpan;
    var max := MAX_SPAN;
    var current := Align(offset);
    for i := 0 to |spans|
      invariant forall j :: 0 <= j < i ==> Align(spans[j].second) <= current
    {
      var alignedStart := Align(spans[i].first);
      var alignedEnd := Align(spans[i].second);
      Aligned(spans[i], current);
      if current >= alignedStart && current < alignedEnd {
        start := current;
        size := if alignedEnd - current > max then max else alignedEnd - current;
        Found(spans, current, i, start, size);
        return;
      }
      if current < alignedStart {
        start := spans[i].first;
        size := if spans[i].second - spans[i].first > max then max else alignedEnd - alignedStart;
        Found(spans, current, i, start, size);
        return;
      }
    }
    start := current;
    if spans == [] {
      size := max;
    } else {
      size := 0;
    }
    AllOver(spans, current);
  }

  /** How the aligned ends of a span lie. */
  lemma Aligned(s: Span, current: int)
    requires 0 <= s.first < s.second && current % BLOCK_SIZE == 0
    ensures (Align(s.second) - current) % BLOCK_SIZE == 0 && (Align(s.second) - Align(s.first)) % BLOCK_SIZE == 0
    ensures Align(s.first) <= Align(s.second) && (current > Align(s.first) ==> current > s.first)
    ensures s.second - s.first <= MAX_SPAN ==> Align(s.second) - Align(s.first) <= MAX_SPAN
  {
    WholeDifference(current, Align(s.second));
    WholeDifference(Align(s.first), Align(s.second));
    WholeFits(Align(s.first), s.second);
    if current > Align(s.first) {
      WholeSteps(Align(s.first), current);
    }
    if Align(s.second) - Align(s.first) > MAX_SPAN {
      WholeSteps(MAX_SPAN, Align(s.second) - Align(s.first));
    }
  }

  lemma WholeDifference(a: int, b: int)
    requires a % BLOCK_SIZE == 0 && b % BLOCK_SIZE == 0
    ensures (b - a) % BLOCK_SIZE == 0
  {
  }

  /** What is handed out for a span of which something is left. */
  predicate IsPartOf(s: Span, current: int, start: int, size: int) {
    if current >= Align(s.first) then start == current && size == Min(Align(s.second) - current, MAX_SPAN)
    else start == s.first && size == if s.second - s.first > MAX_SPAN then MAX_SPAN
      else Align(s.second) - Align(s.first)
  }

  lemma Found(spans: seq<Span>, current: int, i: nat, start: int, size: int)
    requires Ordered(spans) && current % BLOCK_SIZE == 0
    requires i < |spans| && forall j :: 0 <= j < i ==> Align(spans[j].second) <= current
    requires current < Align(spans[i].second) || current < Align(spans[i].first)
    requires IsPartOf(spans[i], current, start, size)
    ensures IsNext(spans, current, i) && forall k :: IsNext(spans, current, k) ==> k == i
    ensures Regular(spans) ==>
      && start % BLOCK_SIZE == 0 && size > 0 && InSpan(spans, start)
      && (forall x :: current <= x < start ==> !InSpan(spans, x))
      && spans[i].first <= start && start + size <= spans[i].second
  {
    Aligned(spans[i], current);
    if Regular(spans) {
      forall j | 0 <= j < |spans|
        ensures Align(spans[j].second) == spans[j].second && Align(spans[j].first) == spans[j].first {
        WholePackets(spans[j].first);
        WholePackets(spans[j].second);
      }
    }
  }

  /**
   It begins before the span by less than a packet, ends behind it by less than a packet, and leaves less than a
   packet unless it is cut.
   */
  lemma PartIsClose(s: Span, current: int, start: int, size: int)
    requires 0 <= s.first < s.second && current % BLOCK_SIZE == 0 && current < Align(s.second)
      && IsPartOf(s, current, start, size)
    ensures s.first - BLOCK_SIZE < start && start + size < s.second + BLOCK_SIZE
    ensures size == MAX_SPAN || start + size > s.second - BLOCK_SIZE
    ensures size == 0 <==> Align(s.first) == Align(s.second)
  {
    Aligned(s, current);
  }

  /** It always lies inside the span exactly if the span begins at a packet, or ends in the packet it begins in. */
  lemma PartIsInside(s: Span)
    requires 0 <= s.first < s.second
    ensures (forall current: nat, start, size ::
              (current % BLOCK_SIZE == 0 && current < Align(s.second) && IsPartOf(s, current, start, size)) ==>
                s.first <= start && start + size <= s.second)
      <==> s.first % BLOCK_SIZE == 0 || Align(s.first) == Align(s.second)
  {
    var low, high := Align(s.first), Align(s.second);
    Aligned(s, low);
    if s.first % BLOCK_SIZE != 0 && low < high {
      var size := Min(high - low, MAX_SPAN);
      assert IsPartOf(s, low, low, size) && low < s.first;
    } else if s.first % BLOCK_SIZE == 0 {
      WholePackets(s.first);
    }
  }

  /** A span that does not begin at a packet, and what is handed out of it. */
  method PartBeforeItsSpan() returns (start: int, size: int)
    ensures start == 188 < 200 && size == 188
  {
    var spans := [Span(200, 400)];
    assert IsNext(spans, Align(188), 0);
    start, size := GetNextSourceSpan(spans, 188);
  }

  lemma AllOver(spans: seq<Span>, current: int)
    requires forall j :: 0 <= j < |spans| ==> Align(spans[j].second) <= current
    ensures Regular(spans) ==> forall x :: x >= current ==> !InSpan(spans, x)
  {
    if Regular(spans) {
      forall j | 0 <= j < |spans| ensures spans[j].second <= current {
        WholePackets(spans[j].second);
      }
    }
  }

  // ---------------------------------------------------------------- what is to be played

  function Min(a: int, b: int): (m: int) {
    if a < b then a else b
  }

  /** The bytes of the file from lo up to hi, as far as the file goes. */
  function Piece(file: seq<byte>, lo: int, hi: int): (p: seq<byte>) {
    if 0 <= lo < hi && lo < |file| then file[lo..Min(hi, |file|)] else []
  }

  /** The bytes of the spans in front of pos. */
  function Played(spans: seq<Span>, file: seq<byte>, pos: int): (p: seq<byte>) {
    if spans == [] then []
    else Piece(file, spans[0].first, Min(spans[0].second, pos)) + Played(spans[1..], file, pos)
  }

  /** The whole of what is to be played, in front of pos. */
  function Stream(spans: seq<Span>, file: seq<byte>, pos: int): (p: seq<byte>) {
    if spans == [] then Piece(file, 0, pos) else Played(spans, file, pos)
  }

  lemma PieceGrows(file: seq<byte>, lo: int, pos: int, n: nat)
    requires 0 <= lo <= pos && pos + n <= |file|
    ensures Piece(file, lo, pos + n) == Piece(file, lo, pos) + file[pos..pos + n]
  {
  }

  lemma PieceIsMonotone(file: seq<byte>, lo: int, p: int, q: int)
    requires p <= q
    ensures Piece(file, lo, p) <= Piece(file, lo, q)
  {
  }

  lemma TailSpans(spans: seq<Span>)
    requires Ordered(spans) && spans != []
    ensures Ordered(spans[1..]) && forall i :: 0 <= i < |spans[1..]| ==> spans[0].second <= spans[1..][i].first
    ensures forall x :: InSpan(spans[1..], x) ==> InSpan(spans, x)
  {
    forall x | InSpan(spans[1..], x)
      ensures InSpan(spans, x)
    {
      var i :| 0 <= i < |spans[1..]| && spans[1..][i].first <= x < spans[1..][i].second;
      assert spans[i + 1].first <= x < spans[i + 1].second;
    }
  }

  /** A part of one span continues what is played before it. */
  lemma {:induction false} PlayedGrows(spans: seq<Span>, file: seq<byte>, i: nat, pos: int, n: nat)
    requires Ordered(spans) && i < |spans| && spans[i].first <= pos && pos + n <= spans[i].second && pos + n <= |file|
    ensures Played(spans, file, pos + n) == Played(spans, file, pos) + file[pos..pos + n]
    decreases |spans|
  {
    TailSpans(spans);
    if i == 0 {
      FirstGrows(spans, file, pos, n);
    } else {
      assert spans[1..][i - 1] == spans[i];
      PlayedGrows(spans[1..], file, i - 1, pos, n);
      LaterGrows(spans, file, pos, n);
    }
  }

  lemma LaterGrows(spans: seq<Span>, file: seq<byte>, pos: int, n: nat)
    requires spans != [] && spans[0].second <= pos && 0 <= pos && pos + n <= |file|
    requires Played(spans[1..], file, pos + n) == Played(spans[1..], file, pos) + file[pos..pos + n]
    ensures Played(spans, file, pos + n) == Played(spans, file, pos) + file[pos..pos + n]
  {
    Associative(Piece(file, spans[0].first, spans[0].second), Played(spans[1..], file, pos), file[pos..pos + n]);
  }

  lemma FirstGrows(spans: seq<Span>, file: seq<byte>, pos: int, n: nat)
    requires spans != [] && forall i :: 0 <= i < |spans[1..]| ==> spans[0].second <= spans[1..][i].first
    requires 0 <= spans[0].first <= pos && pos + n <= spans[0].second && pos + n <= |file|
    ensures Played(spans, file, pos + n) == Played(spans, file, pos) + file[pos..pos + n]
  {
    hide Piece;
    NothingLater(spans[1..], file, pos, spans[0].second);
    NothingLater(spans[1..], file, pos + n, spans[0].second);
    PieceGrows(file, spans[0].first, pos, n);
  }

  /** Nothing is played in front of the first span. */
  lemma {:induction false} NothingLater(spans: seq<Span>, file: seq<byte>, pos: int, from: int)
    requires forall i :: 0 <= i < |spans| ==> from <= spans[i].first
    requires pos <= from
    ensures Played(spans, file, pos) == []
  {
    if spans != [] {
      assert from <= spans[0].first;
      NothingLater(spans[1..], file, pos, from);
    }
  }

  /** Moving over offsets outside all spans plays nothing. */
  lemma {:induction false} PlayedSkips(spans: seq<Span>, file: seq<byte>, p: int, q: int)
    requires Ordered(spans) && p <= q && forall x :: p <= x < q ==> !InSpan(spans, x)
    ensures Played(spans, file, q) == Played(spans, file, p)
    decreases |spans|
  {
    if spans != [] {
      TailSpans(spans);
      PlayedSkips(spans[1..], file, p, q);
      SkipsFirst(spans, p, q);
    }
  }

  lemma SkipsFirst(spans: seq<Span>, p: int, q: int)
    requires spans != [] && spans[0].first < spans[0].second && p <= q && forall x :: p <= x < q ==> !InSpan(spans, x)
    ensures p == q || spans[0].second <= p || q <= spans[0].first
  {
    var x := if spans[0].first <= p then p else spans[0].first;
    if p < q && p < spans[0].second && spans[0].first < q {
      assert InSpan(spans, x);
    }
  }

  /** What is played in front of an earlier position is a prefix of what is played in front of a later one. */
  lemma {:induction false} PlayedIsMonotone(spans: seq<Span>, file: seq<byte>, p: int, q: int)
    requires Ordered(spans) && p <= q
    ensures Played(spans, file, p) <= Played(spans, file, q)
  {
    if spans != [] {
      var s := spans[0];
      TailSpans(spans);
      var before, after := Piece(file, s.first, Min(s.second, p)), Piece(file, s.first, Min(s.second, q));
      PieceIsMonotone(file, s.first, Min(s.second, p), Min(s.second, q));
      if p < s.second {
        NothingLater(spans[1..], file, p, s.second);
        assert Played(spans, file, p) == before;
        PrefixExtends(before, after, Played(spans[1..], file, q));
      } else {
        PlayedIsMonotone(spans[1..], file, p, q);
        PrefixOfSums(before, Played(spans[1..], file, p), Played(spans[1..], file, q));
      }
    }
  }

  /** The next size bytes lie in one span. */
  ghost predicate InOneSpan(spans: seq<Span>, pos: int, size: int) {
    spans == [] || exists i :: 0 <= i < |spans| && spans[i].first <= pos && pos + size <= spans[i].second
  }

  lemma SpanShrinks(spans: seq<Span>, pos: int, size: int, n: nat)
    ensures InOneSpan(spans, pos, size) ==> InOneSpan(spans, pos + n, size - n)
  {
    if spans != [] && InOneSpan(spans, pos, size) {
      var i :| 0 <= i < |spans| && spans[i].first <= pos && pos + size <= spans[i].second;
      assert spans[i].first <= pos + n;
    }
  }

  /** Reading on inside one span continues the stream. */
  lemma StreamGrows(spans: seq<Span>, file: seq<byte>, pos: nat, n: nat, size: nat)
    requires Ordered(spans) && (spans == [] || (n <= size && InOneSpan(spans, pos, size))) && pos + n <= |file|
    ensures Stream(spans, file, pos + n) == Stream(spans, file, pos) + file[pos..pos + n]
  {
    if spans == [] {
      PieceGrows(file, 0, pos, n);
    } else {
      var i :| 0 <= i < |spans| && spans[i].first <= pos && pos + size <= spans[i].second;
      PlayedGrows(spans, file, i, pos, n);
    }
  }

  /** Behind the end of the file there is nothing to play. */
  lemma {:induction false} NothingBehindFile(spans: seq<Span>, file: seq<byte>, pos: int)
    requires Ordered(spans) && pos >= |file|
    ensures Stream(spans, file, pos) == Stream(spans, file, |file|)
  {
    if spans != [] {
      TailSpans(spans);
      PlayedBehindFile(spans, file, pos);
    }
  }

  lemma {:induction false} PlayedBehindFile(spans: seq<Span>, file: seq<byte>, pos: int)
    requires pos >= |file|
    ensures Played(spans, file, pos) == Played(spans, file, |file|)
  {
    if spans != [] {
      PlayedBehindFile(spans[1..], file, pos);
    }
  }

  /** What is streamed in front of an earlier position is a prefix of what is streamed in front of a later one. */
  lemma StreamIsMonotone(spans: seq<Span>, file: seq<byte>, p: int, q: int)
    requires Ordered(spans) && p <= q
    ensures Stream(spans, file, p) <= Stream(spans, file, q)
  {
    if spans == [] {
      PieceIsMonotone(file, 0, p, q);
    } else {
      PlayedIsMonotone(spans, file, p, q);
    }
  }

  /** All that is left of the file from pos on is less than a packet, or no span covers any of it. */
  ghost predicate NothingLeft(spans: seq<Span>, file: seq<byte>, pos: int) {
    |file| - pos < BLOCK_SIZE || (spans != [] && forall x :: x >= pos ==> !InSpan(spans, x))
  }

  /** Then all whole packets have been streamed, and all of the stream if the file is made of whole packets. */
  lemma NothingLeftMeans(spans: seq<Span>, file: seq<byte>, pos: nat)
    requires Ordered(spans) && pos % BLOCK_SIZE == 0 && NothingLeft(spans, file, pos)
    ensures Stream(spans, file, Align(|file|)) <= Stream(spans, file, pos)
    ensures |file| % BLOCK_SIZE == 0 ==> Stream(spans, file, pos) == Stream(spans, file, |file|)
  {
    var whole := Align(|file|);
    if whole <= pos {
      StreamIsMonotone(spans, file, whole, pos);
    } else {
      assert |file| - pos >= BLOCK_SIZE by {
        WholeSteps(pos, whole);
      }
      PlayedSkips(spans, file, pos, whole);
    }
    if |file| % BLOCK_SIZE == 0 {
      WholePackets(|file|);
      if pos >= |file| {
        NothingBehindFile(spans, file, pos);
      }
    }
  }

  /** Some whole packet of the file, from pos on, is still to be played. */
  ghost predicate PacketLeft(spans: seq<Span>, file: seq<byte>, pos: int) {
    exists x :: IsPacket(spans, file, pos, x)
  }

  ghost predicate IsPacket(spans: seq<Span>, file: seq<byte>, pos: int, x: int) {
    x % BLOCK_SIZE == 0 && pos <= x && x + BLOCK_SIZE <= |file| && (spans == [] || InSpan(spans, x))
  }

  /** All whole packets have been streamed exactly if none is left. */
  lemma CompleteIffNoPacketLeft(spans: seq<Span>, file: seq<byte>, pos: nat)
    requires Regular(spans) && pos % BLOCK_SIZE == 0
    ensures Stream(spans, file, Align(|file|)) <= Stream(spans, file, pos) <==> !PacketLeft(spans, file, pos)
  {
    if PacketLeft(spans, file, pos) {
      var x :| IsPacket(spans, file, pos, x);
      PacketIsMissing(spans, file, pos, x);
    } else {
      NoPacketIsMissing(spans, file, pos);
    }
  }

  lemma PacketIsMissing(spans: seq<Span>, file: seq<byte>, pos: nat, x: nat)
    requires Regular(spans) && IsPacket(spans, file, pos, x)
    ensures |Stream(spans, file, Align(|file|))| >= |Stream(spans, file, pos)| + BLOCK_SIZE
  {
    hide Align, Stream;
    if spans != [] {
      var i :| 0 <= i < |spans| && spans[i].first <= x < spans[i].second;
      WholeSteps(x, spans[i].second);
      assert spans[i].first <= x && x + BLOCK_SIZE <= spans[i].second;
    }
    StreamGrows(spans, file, x, BLOCK_SIZE, BLOCK_SIZE);
    StreamIsMonotone(spans, file, pos, x);
    NextWhole(x);
    WholeFits(x + BLOCK_SIZE, |file|);
    StreamIsMonotone(spans, file, x + BLOCK_SIZE, Align(|file|));
  }

  lemma NextWhole(x: int)
    requires x % BLOCK_SIZE == 0
    ensures (x + BLOCK_SIZE) % BLOCK_SIZE == 0
  {
  }

  lemma WholeFits(a: int, n: nat)
    requires a % BLOCK_SIZE == 0 && a <= n
    ensures a <= Align(n)
  {
  }

  lemma NoPacketIsMissing(spans: seq<Span>, file: seq<byte>, pos: nat)
    requires Regular(spans) && pos % BLOCK_SIZE == 0 && !PacketLeft(spans, file, pos)
    ensures Stream(spans, file, Align(|file|)) <= Stream(spans, file, pos)
  {
    var whole := Align(|file|);
    if whole <= pos {
      StreamIsMonotone(spans, file, whole, pos);
    } else {
      WholeSteps(pos, whole);
      assert spans == [] ==> IsPacket(spans, file, pos, pos);
      forall y | pos <= y < whole ensures !InSpan(spans, y) {
        if InSpan(spans, y) {
          InSpanMeansPacket(spans, file, pos, y);
        }
      }
      PlayedSkips(spans, file, pos, whole);
    }
  }

  /** A span that holds an offset holds the packet around it. */
  lemma InSpanMeansPacket(spans: seq<Span>, file: seq<byte>, pos: nat, y: int)
    requires Regular(spans) && pos % BLOCK_SIZE == 0 && pos <= y < Align(|file|) && InSpan(spans, y)
    ensures PacketLeft(spans, file, pos)
  {
    var i :| 0 <= i < |spans| && spans[i].first <= y < spans[i].second;
    var x := Align(y);
    WholeFits(spans[i].first, y);
    WholeFits(pos, y);
    WholeSteps(x, Align(|file|));
    assert InSpan(spans, x);
    assert IsPacket(spans, file, pos, x);
  }

  lemma WholeSteps(a: int, b: int)
    requires a % BLOCK_SIZE == 0 && b % BLOCK_SIZE == 0 && a < b
    ensures b - a >= BLOCK_SIZE
  {
  }

  lemma PrefixExtends<T>(a: seq<T>, b: seq<T>, c: seq<T>)
    requires a <= b
    ensures a <= b + c
  {
  }

  lemma PrefixOfSums<T>(h: seq<T>, a: seq<T>, b: seq<T>)
    requires a <= b
    ensures h + a <= h + b
  {
  }
}
