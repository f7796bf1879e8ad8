/** Reading newline-delimited requests from a byte stream that arrives in chunks
    of any size, without ever holding more than a bounded part of a line.

    The first half is about byte strings only: which pieces a stream has. The
    second half is the reader, which sees the stream chunk by chunk. */
module LineReader {
  import opened Text
  import opened Sums

  type Byte = b: int | 0 <= b < 256

  const NEWLINE: Byte := 10

  // ---------------------------------------------------------------------------
  // Pieces
  // ---------------------------------------------------------------------------

  /** No newline among the first `n` bytes. */
  predicate Clear(data: seq<Byte>, n: int)
    requires n <= |data|
  {
    forall i :: 0 <= i < n ==> data[i] != NEWLINE
  }

  /** The length of the first piece: up to and with the first newline, or all of
      it when there is none. */
  function PieceLen(data: seq<Byte>): (n: nat)
    ensures n <= |data| && (data != [] ==> n > 0)
    ensures Clear(data, n - 1)
    ensures n < |data| ==> data[n - 1] == NEWLINE
  {
    if data == [] then 0
    else if data[0] == NEWLINE then 1
    else PieceLen(data[1..]) + 1
  }

  /** The stream, split after every newline. */
  function Pieces(data: seq<Byte>): seq<seq<Byte>> {
    if data == [] then [] else [data[..PieceLen(data)]] + Pieces(data[PieceLen(data)..])
  }

  /** The part of a piece that is kept. */
  function Capped(piece: seq<Byte>, max: nat): seq<Byte> {
    if |piece| <= max + 1 then piece else piece[..max + 1]
  }

  /** A line: not empty, with no newline but possibly its last byte. */
  predicate IsPiece(piece: seq<Byte>) {
    piece != [] && Clear(piece, |piece| - 1)
  }

  predicate Terminated(piece: seq<Byte>) {
    piece != [] && piece[|piece| - 1] == NEWLINE
  }

  /** A split into lines: only the last may lack its newline. */
  ghost predicate SplitsLines(pieces: seq<seq<Byte>>) {
    && (forall k :: 0 <= k < |pieces| ==> IsPiece(pieces[k]))
    && (forall k :: 0 <= k < |pieces| - 1 ==> Terminated(pieces[k]))
  }

  function Joined(pieces: seq<seq<Byte>>): seq<Byte> {
    if pieces == [] then [] else pieces[0] + Joined(pieces[1..])
  }

  /** The first newline fixes the length of the first piece. */
  lemma PieceLenIs(data: seq<Byte>, n: nat)
    requires 0 < n <= |data| && Clear(data, n - 1)
    requires n < |data| ==> data[n - 1] == NEWLINE
    ensures PieceLen(data) == n
  {
    var m := PieceLen(data);
    assert m == |data| || data[m - 1] == NEWLINE;
    assert n == |data| || data[n - 1] == NEWLINE;
  }

  lemma OneMorePiece(first: seq<Byte>, rest: seq<seq<Byte>>)
    requires IsPiece(first) && SplitsLines(rest) && (rest != [] ==> Terminated(first))
    ensures SplitsLines([first] + rest) && Joined([first] + rest) == first + Joined(rest)
  {
    assert ([first] + rest)[1..] == rest;
  }

  /** The pieces join to the stream and split it into lines. */
  lemma {:induction false} PiecesSplit(data: seq<Byte>)
    ensures Joined(Pieces(data)) == data && SplitsLines(Pieces(data))
  {
    if data != [] {
      var n := PieceLen(data);
      PiecesSplit(data[n..]);
      assert data == data[..n] + data[n..];
      OneMorePiece(data[..n], Pieces(data[n..]));
    }
  }

  /** Byte by byte: a piece has the newline, which is byte 10, nowhere but at its end,
      and every piece but the last does end in it. */
  lemma PieceBytes(data: seq<Byte>, k: nat)
    requires k < |Pieces(data)|
    ensures
      var piece := Pieces(data)[k];
      && piece != []
      && (forall i :: 0 <= i < |piece| - 1 ==> piece[i] != 10)
      && (k < |Pieces(data)| - 1 ==> piece[|piece| - 1] == 10)
  {
    PiecesSplit(data);
  }

  /** They are the only split into lines there is. */
  lemma {:induction false} PiecesAreTheOnlySplit(pieces: seq<seq<Byte>>)
    requires SplitsLines(pieces)
    ensures Pieces(Joined(pieces)) == pieces
  {
    if pieces != [] {
      var first, rest := pieces[0], pieces[1..];
      var data := Joined(pieces);
      assert data == first + Joined(rest);
      assert SplitsLines(rest);
      if rest == [] {
        assert data == first;
      } else {
        assert Terminated(first);
      }
      assert Clear(data, |first| - 1);
      PieceLenIs(data, |first|);
      assert data[..|first|] == first && data[|first|..] == Joined(rest);
      PiecesAreTheOnlySplit(rest);
      assert pieces == [first] + rest;
    }
  }

  lemma FirstPieceStays(before: seq<Byte>, after: seq<Byte>)
    requires Terminated(before)
    ensures
      var n, all := PieceLen(before), before + after;
      PieceLen(all) == n && all[..n] == before[..n] && all[n..] == before[n..] + after
  {
    var n, all := PieceLen(before), before + after;
    assert forall i :: 0 <= i < |before| ==> all[i] == before[i];
    PieceLenIs(all, n);
  }

  /** What follows a newline is split as if it were alone. */
  lemma {:induction false} NewlineSeparates(before: seq<Byte>, after: seq<Byte>)
    requires before == [] || Terminated(before)
    ensures Pieces(before + after) == Pieces(before) + Pieces(after)
  {
    if before == [] {
      assert before + after == after;
    } else {
      var n := PieceLen(before);
      FirstPieceStays(before, after);
      NewlineSeparates(before[n..], after);
      Regroup([before[..n]], Pieces(before[n..]), Pieces(after));
    }
  }

  // ---------------------------------------------------------------------------
  // The stream
  // ---------------------------------------------------------------------------

  datatype Outcome<+T> = Ok(value: T) | Failed

  /** A buffered reader: it hands out some of what is left, as much or as little
      as it likes, and may fail at any time. */
  class Source {
    var rest: seq<Byte>
    var broke: bool

    constructor (data: seq<Byte>)
      ensures rest == data && !broke
    {
      rest, broke := data, false;
    }

    /** `fill_buf`: empty only at the end of the stream. */
    method FillBuf() returns (chunk: Outcome<seq<Byte>>)
      modifies this`broke
      ensures broke == (old(broke) || chunk.Failed?)
      ensures chunk.Ok? ==> chunk.value <= rest && (rest != [] ==> chunk.value != [])
    {
      if * {
        broke := true;
        return Failed;
      }
      if rest == [] {
        return Ok([]);
      }
      var n: nat :| 0 < n <= |rest|;
      chunk := Ok(rest[..n]);
    }

    method Consume(n: nat)
      requires n <= |rest|
      modifies this`rest
      ensures rest == old(rest)[n..]
    {
      rest := rest[n..];
    }

    /** `read`: what `fill_buf` shows, taken at once. */
    method Read(limit: nat) returns (chunk: Outcome<seq<Byte>>)
      requires limit > 0
      modifies this
      ensures broke == (old(broke) || chunk.Failed?)
      ensures chunk.Failed? ==> rest == old(rest)
      ensures chunk.Ok? ==> old(rest) == chunk.value + rest && |chunk.value| <= limit
      ensures chunk.Ok? && chunk.value == [] ==> rest == []
    {
      chunk := FillBuf();
      if chunk.Ok? {
        if |chunk.value| > limit {
          chunk := Ok(chunk.value[..limit]);
        }
        Consume(|chunk.value|);
      }
    }
  }

  /** Where in a chunk the first newline is. */
  method FindNewline(chunk: seq<Byte>) returns (found: Option<nat>)
    ensures found.None? ==> Clear(chunk, |chunk|)
    ensures found.Some? ==> found.value < |chunk| && chunk[found.value] == NEWLINE && Clear(chunk, found.value)
  {
    for index := 0 to |chunk|
      invariant Clear(chunk, index)
    {
      if chunk[index] == NEWLINE {
        return Some(index);
      }
    }
    found := None;
  }

  function Min(a: nat, b: nat): nat {
    if a < b then a else b
  }

  /** Part-way through a piece: `seen` bytes of `data` are gone, none of them a
      newline, and `kept` is what is kept of them. */
  predicate Reading(data: seq<Byte>, seen: nat, rest: seq<Byte>, kept: seq<Byte>, max: nat) {
    && seen <= |data|
    && rest == data[seen..]
    && Clear(data, seen)
    && kept == Capped(data[..seen], max)
  }

  /** The piece is over, and `kept` is what is kept of it. */
  predicate Done(data: seq<Byte>, rest: seq<Byte>, kept: seq<Byte>, max: nat) {
    rest == data[PieceLen(data)..] && kept == Capped(data[..PieceLen(data)], max)
  }

  /** What is left of `data` when no more than its first piece was read. */
  ghost predicate LeftInPiece(data: seq<Byte>, rest: seq<Byte>) {
    exists k :: 0 <= k <= PieceLen(data) && rest == data[k..]
  }

  lemma StaysInPiece(data: seq<Byte>, seen: nat)
    requires seen <= |data| && Clear(data, seen)
    ensures seen <= PieceLen(data)
    ensures seen == |data| ==> PieceLen(data) == |data| && data[..seen] == data
  {
    var n := PieceLen(data);
    assert n == |data| || data[n - 1] == NEWLINE;
  }

  /** Appending what still fits keeps the line a capped prefix. */
  lemma CappedGrows(data: seq<Byte>, seen: nat, chunk: seq<Byte>, more: nat, max: nat)
    requires seen <= |data| && chunk <= data[seen..] && more <= |chunk|
    ensures
      var line, longer := Capped(data[..seen], max), Capped(data[..seen + more], max);
      && longer == line + chunk[..Min(max + 1 - |line|, more)]
      && (|line| > max ==> longer == line)
  {
    assert data[..seen + more] == data[..seen] + chunk[..more];
  }

  /** The first `consumed` bytes of the chunk are seen; the last of them may be
      the newline. */
  lemma ChunkIsSeen(data: seq<Byte>, seen: nat, chunk: seq<Byte>, consumed: nat)
    requires seen <= |data| && chunk <= data[seen..] && Clear(data, seen)
    requires 0 < consumed <= |chunk| && Clear(chunk, consumed - 1)
    ensures seen + consumed <= |data| && data[seen..][consumed..] == data[seen + consumed..]
    ensures chunk[consumed - 1] != NEWLINE ==> Clear(data, seen + consumed)
    ensures chunk[consumed - 1] == NEWLINE ==> PieceLen(data) == seen + consumed
  {
    forall i | seen <= i < seen + consumed
      ensures data[i] == chunk[i - seen]
    {
      assert data[seen..][i - seen] == chunk[i - seen];
    }
    if chunk[consumed - 1] == NEWLINE {
      PieceLenIs(data, seen + consumed);
    }
  }

  /** Part-way is within the piece; at the end of the stream, it is the piece. */
  lemma ReadingStays(data: seq<Byte>, seen: nat, rest: seq<Byte>, kept: seq<Byte>, max: nat)
    requires Reading(data, seen, rest, kept, max)
    ensures LeftInPiece(data, rest)
    ensures rest == [] ==> Done(data, rest, kept, max) && (kept == [] <==> data == [])
  {
    StaysInPiece(data, seen);
    if rest == [] {
      assert seen == |data|;
    }
  }

  /** What is kept once `consumed` bytes of a chunk are used. */
  function KeptWith(kept: seq<Byte>, chunk: seq<Byte>, consumed: nat, max: nat): seq<Byte>
    requires consumed <= |chunk|
  {
    if |kept| <= max then kept + chunk[..Min(max + 1 - |kept|, consumed)] else kept
  }

  /** Using a chunk up to its newline ends the piece; using one without a newline goes
      on with it. */
  lemma ChunkIsUsed(data: seq<Byte>, seen: nat, rest: seq<Byte>, kept: seq<Byte>, chunk: seq<Byte>, consumed: nat,
                    max: nat)
    requires Reading(data, seen, rest, kept, max) && chunk <= rest
    requires 0 < consumed <= |chunk| && Clear(chunk, consumed - 1)
    ensures
      var kept' := KeptWith(kept, chunk, consumed, max);
      if chunk[consumed - 1] == NEWLINE then Done(data, rest[consumed..], kept', max)
      else Reading(data, seen + consumed, rest[consumed..], kept', max)
  {
    CappedGrows(data, seen, chunk, consumed, max);
    ChunkIsSeen(data, seen, chunk, consumed);
  }

  /** Use one chunk: keep what still fits, consume up to the newline. */
  method TakeChunk(source: Source, chunk: seq<Byte>, kept: seq<Byte>, max: nat, ghost data: seq<Byte>, ghost seen: nat)
    returns (kept': seq<Byte>, over: bool)
    requires Reading(data, seen, source.rest, kept, max)
    requires chunk <= source.rest && chunk != []
    modifies source`rest
    ensures over ==> Done(data, source.rest, kept', max)
    ensures !over ==> Reading(data, seen + |chunk|, source.rest, kept', max)
    ensures |kept'| <= max + 1
  {
    var newline := FindNewline(chunk);
    var consumed := if newline.Some? then newline.value + 1 else |chunk|;
    ChunkIsUsed(data, seen, source.rest, kept, chunk, consumed, max);
    kept' := kept;
    if |kept| <= max {
      kept' := kept + chunk[..Min(max + 1 - |kept|, consumed)];
    }
    source.Consume(consumed);
    over := newline.Some?;
  }

  /** `read_json_line_capped`: the next piece, cut to its first `max + 1` bytes,
      however the stream is chunked. A stream that fails is not read past the end
      of the piece. */
  method ReadLine(source: Source, max: nat) returns (line: Outcome<Option<seq<Byte>>>)
    modifies source
    ensures source.broke == (old(source.broke) || line.Failed?)
    ensures line.Failed? ==> LeftInPiece(old(source.rest), source.rest)
    ensures line.Ok? ==> source.rest == old(source.rest)[PieceLen(old(source.rest))..]
    ensures line.Ok? ==> (line.value.None? <==> old(source.rest) == [])
    ensures line.Ok? && line.value.Some? ==>
              line.value.value == Capped(old(source.rest)[..PieceLen(old(source.rest))], max)
  {
    ghost var data := source.rest;
    ghost var seen: nat := 0;
    var kept: seq<Byte> := [];
    while true
      invariant Reading(data, seen, source.rest, kept, max) && |kept| <= max + 1
      invariant source.broke == old(source.broke)
      decreases |source.rest|
    {
      ReadingStays(data, seen, source.rest, kept, max);
      var chunk := source.FillBuf();
      if chunk.Failed? {
        return Failed;
      }
      if chunk.value == [] {
        return Ok(if kept == [] then None else Some(kept));
      }
      var over;
      kept, over := TakeChunk(source, chunk.value, kept, max, data, seen);
      seen := seen + |chunk.value|;
      if over {
        return Ok(Some(kept));
      }
    }
  }

  // ---------------------------------------------------------------------------
  // Reading everything, up to a limit
  // ---------------------------------------------------------------------------

  function Prefix(data: seq<Byte>, max: nat): seq<Byte> {
    if |data| <= max then data else data[..max]
  }

  /** `read_capped`: drain the stream, keep its first `max` bytes, and say
      whether anything is missing. */
  method ReadCapped(source: Source, max: nat) returns (bytes: seq<Byte>, truncated: bool)
    requires !source.broke
    modifies source
    ensures !source.broke ==> bytes == Prefix(old(source.rest), max) && (truncated <==> |old(source.rest)| > max)
    ensures source.broke ==> truncated && bytes <= Prefix(old(source.rest), max)
  {
    ghost var data := source.rest;
    ghost var seen: nat := 0;
    bytes, truncated := [], false;
    while true
      invariant seen <= |data| && source.rest == data[seen..] && !source.broke
      invariant bytes == Prefix(data[..seen], max) && truncated == (seen > max)
      decreases |source.rest|
    {
      PrefixGrows(data, seen, max);
      var chunk := source.Read(8192);
      if chunk.Failed? {
        truncated := true;
        return;
      }
      if chunk.value == [] {
        return;
      }
      assert data[seen..][..|chunk.value|] == chunk.value;
      PrefixAppends(data, seen, chunk.value, max);
      if |bytes| < max {
        var keep := Min(max - |bytes|, |chunk.value|);
        bytes := bytes + chunk.value[..keep];
        truncated := truncated || keep < |chunk.value|;
      } else {
        truncated := true;
      }
      seen := seen + |chunk.value|;
    }
  }

  lemma PrefixGrows(data: seq<Byte>, seen: nat, max: nat)
    requires seen <= |data|
    ensures Prefix(data[..seen], max) <= Prefix(data, max)
    ensures data[seen..] == [] ==> data[..seen] == data
  {
  }

  lemma PrefixAppends(data: seq<Byte>, seen: nat, chunk: seq<Byte>, max: nat)
    requires seen <= |data| && chunk <= data[seen..]
    ensures
      var bytes := Prefix(data[..seen], max);
      && Prefix(data[..seen + |chunk|], max) == bytes + chunk[..Min(max - |bytes|, |chunk|)]
      && data[seen..][|chunk|..] == data[seen + |chunk|..]
  {
    assert data[..seen + |chunk|] == data[..seen] + chunk;
  }
}
