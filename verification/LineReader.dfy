/** Reading a process's output line by line in bounded memory
    (src/agent/process.rs). */
module LineReader {
  import opened Basics

  /** One line, at most its reader's cap long; `cut` when it was longer. */
  datatype Line = Line(bytes: seq<byte>, cut: bool)

  // ----- The specification -----

  /** The newline-terminated pieces of a stream, and its non-empty tail. */
  function Pieces(s: seq<byte>): seq<seq<byte>>
    decreases |s|
  {
    if s == [] then []
    else
      var i := IndexOf(s, NEWLINE);
      if i == |s| then [s] else [s[..i + 1]] + Pieces(s[i + 1..])
  }

  function CutTo(max: nat, piece: seq<byte>): Line {
    Line(piece[..Min(|piece|, max)], |piece| > max)
  }

  function CutAll(max: nat, pieces: seq<seq<byte>>): seq<Line> {
    if pieces == [] then [] else [CutTo(max, pieces[0])] + CutAll(max, pieces[1..])
  }

  /** Every line is kept up to the cap: all of it, or its start, exactly as long
      as the cap allows, and marked as cut. */
  lemma {:induction false} CutAllMeans(max: nat, pieces: seq<seq<byte>>)
    ensures |CutAll(max, pieces)| == |pieces|
    ensures forall i :: 0 <= i < |pieces| ==>
              var line := CutAll(max, pieces)[i];
              if |pieces[i]| <= max then line == Line(pieces[i], false)
              else line.cut && |line.bytes| == max && line.bytes <= pieces[i]
  {
    if pieces != [] {
      CutAllMeans(max, pieces[1..]);
    }
  }

  function Lines(max: nat, s: seq<byte>): seq<Line> {
    CutAll(max, Pieces(s))
  }

  /** A piece that a newline ends, and only there. */
  ghost predicate Terminated(piece: seq<byte>) {
    piece != [] && piece[|piece| - 1] == NEWLINE && NEWLINE !in piece[..|piece| - 1]
  }

  ghost predicate Unterminated(piece: seq<byte>) {
    piece != [] && NEWLINE !in piece
  }

  ghost predicate AreLines(pieces: seq<seq<byte>>) {
    forall i :: 0 <= i < |pieces| ==> Terminated(pieces[i]) || (i == |pieces| - 1 && Unterminated(pieces[i]))
  }

  /** The pieces are the only way to cut the stream into lines. */
  lemma {:induction false} PiecesAreTheLines(s: seq<byte>, pieces: seq<seq<byte>>)
    ensures Concat(pieces) == s && AreLines(pieces) <==> pieces == Pieces(s)
    decreases |s|
  {
    hide IndexOf;
    PiecesCut(s);
    if Concat(pieces) == s && AreLines(pieces) && pieces != [] {
      var rest := pieces[1..];
      assert forall i :: 0 <= i < |rest| ==> rest[i] == pieces[i + 1];
      assert s == pieces[0] + Concat(rest);
      PiecesAreTheLines(Concat(rest), rest);
      if Terminated(pieces[0]) {
        var n := |pieces[0]|;
        assert s[..n] == pieces[0] && s[n..] == Concat(rest) && s[..n - 1] == pieces[0][..n - 1];
        IndexOfIs(s, NEWLINE, n - 1);
      } else {
        assert rest == [] && s == pieces[0] && s[..|s|] == s;
        IndexOfIs(s, NEWLINE, |s|);
      }
    }
  }

  lemma {:induction false} PiecesCut(s: seq<byte>)
    ensures Concat(Pieces(s)) == s && AreLines(Pieces(s))
    decreases |s|
  {
    hide IndexOf;
    if s != [] {
      var i := IndexOf(s, NEWLINE);
      if i == |s| {
        assert s[..i] == s && Concat([s][1..]) == [];
      } else {
        PiecesCut(s[i + 1..]);
        assert Pieces(s)[1..] == Pieces(s[i + 1..]);
        assert s[..i + 1][..i] == s[..i];
      }
    }
  }

  /** A stream that starts with a line. */
  lemma LinesFirst(max: nat, piece: seq<byte>, rest: seq<byte>)
    requires Terminated(piece) || (Unterminated(piece) && rest == [])
    ensures Lines(max, piece + rest) == [CutTo(max, piece)] + Lines(max, rest)
  {
    var s := piece + rest;
    var n := |piece|;
    if Terminated(piece) {
      assert s[..n - 1] == piece[..n - 1];
      IndexOfIs(s, NEWLINE, n - 1);
      assert s[..n] == piece && s[n..] == rest;
    } else {
      assert s == piece && s[..n] == s;
      IndexOfIs(s, NEWLINE, n);
    }
    assert Pieces(s) == [piece] + Pieces(rest);
    assert Pieces(s)[1..] == Pieces(rest);
  }

  lemma NothingLeft()
    ensures Concat<byte>([]) == []
  {
  }

  lemma LinesOfNothing(max: nat)
    ensures Lines(max, []) == []
  {
  }

  // ----- The reader -----

  /** A buffered reader: the stream arrives in non-empty chunks, cut anywhere;
      with none left it is at its end. */
  class Source {
    var chunks: seq<seq<byte>>

    ghost predicate Valid()
      reads this
    {
      forall i :: 0 <= i < |chunks| ==> chunks[i] != []
    }

    constructor (chunks: seq<seq<byte>>)
      requires forall i :: 0 <= i < |chunks| ==> chunks[i] != []
      ensures Valid() && this.chunks == chunks
    {
      this.chunks := chunks;
    }

    /** What is buffered: empty only at the end of the stream. */
    method FillBuf() returns (buf: seq<byte>)
      requires Valid()
      ensures buf == if chunks == [] then [] else chunks[0]
    {
      buf := if chunks == [] then [] else chunks[0];
    }

    method Consume(n: nat)
      requires Valid() && chunks != [] && 0 < n <= |chunks[0]|
      modifies this
      ensures Valid() && |chunks| <= |old(chunks)|
      ensures n == |old(chunks)[0]| ==> |chunks| < |old(chunks)|
      ensures old(chunks)[0][..n] + Concat(chunks) == Concat(old(chunks))
    {
      if n == |chunks[0]| {
        assert chunks[0][..n] == chunks[0];
        chunks := chunks[1..];
      } else {
        assert chunks[0] == chunks[0][..n] + chunks[0][n..];
        assert ([chunks[0][n..]] + chunks[1..])[1..] == chunks[1..];
        chunks := [chunks[0][n..]] + chunks[1..];
      }
    }
  }

  datatype Next = Cancelled | End | Got(line: Line)

  class LineReader {
    const reader: Source
    const max: nat
    var line: seq<byte>
    var cut: bool
    /** The part of the current line that was read, dropped bytes included. */
    ghost var begun: seq<byte>

    ghost predicate Valid()
      reads this, reader
    {
      && reader.Valid() && NEWLINE !in begun
      && Line(line, cut) == CutTo(max, begun)
    }

    /** What is still to be returned. */
    ghost function Rest(): seq<byte>
      reads this, reader
    {
      begun + Concat(reader.chunks)
    }

    constructor (reader: Source, max: nat)
      requires reader.Valid()
      ensures Valid() && this.reader == reader && this.max == max
      ensures begun == [] && Rest() == Concat(reader.chunks)
    {
      this.reader, this.max := reader, max;
      line, cut, begun := [], false, [];
    }

    /** The next line. The only await is for the buffer: the call is dropped
        there after `patience` waits, and has then lost nothing. The invariant
        at every await keeps the buffered line within `max`. */
    method Next(patience: nat) returns (next: Next)
      requires Valid()
      modifies this, reader
      ensures Valid() && |line| <= max
      ensures next.Cancelled? ==> patience <= |old(reader.chunks)| && Rest() == old(Rest())
      ensures next.End? ==> old(Rest()) == [] && Rest() == []
      ensures next.Got? ==> begun == [] && Lines(max, old(Rest())) == [next.line] + Lines(max, Rest())
      ensures next.Got? ==> |Rest()| < |old(Rest())|
    {
      hide Lines, IndexOf, Concat, Pieces, CutAll;
      NothingLeft();
      var waits := 0;
      while waits < patience
        invariant Valid() && |line| <= max
        invariant Rest() == old(Rest())
        invariant waits <= patience && waits + |reader.chunks| <= |old(reader.chunks)|
      {
        var buf := reader.FillBuf();
        waits := waits + 1;
        if buf == [] {
          if line == [] && !cut {
            return End;
          }
          LinesFirst(max, begun, []);
          assert begun + [] == begun == Rest();
          var last := Take();
          assert Rest() == [];
          return Got(last);
        }
        var i := IndexOf(buf, NEWLINE);
        var len, ends := if i < |buf| then i + 1 else |buf|, i < |buf|;
        ghost var before := begun;
        Keep(buf[..len]);
        reader.Consume(len);
        assert before + (buf[..len] + Concat(reader.chunks)) == Rest();
        if ends {
          assert buf[..len] == buf[..i] + [NEWLINE];
          LinesFirst(max, begun, Concat(reader.chunks));
          var full := Take();
          assert Rest() == Concat(reader.chunks);
          return Got(full);
        }
      }
      return Cancelled;
    }

    /** Keep what fits of `bytes`; the rest is dropped as it arrives. */
    method Keep(bytes: seq<byte>)
      requires Line(line, cut) == CutTo(max, begun) && bytes != []
      modifies this`line, this`cut, this`begun
      ensures Line(line, cut) == CutTo(max, begun) && begun == old(begun) + bytes
    {
      var room := max - |line|;
      if |bytes| > room {
        line := line + bytes[..room];
        cut := true;
      } else {
        line := line + bytes;
      }
      begun := begun + bytes;
    }

    method Take() returns (taken: Line)
      modifies this`line, this`cut, this`begun
      ensures taken == Line(old(line), old(cut))
      ensures line == [] && !cut && begun == []
    {
      taken := Line(line, cut);
      line, cut, begun := [], false, [];
    }
  }

  /** Read a stream to its end, however it is chunked and whichever calls
      were dropped half way: the lines are those of the whole stream. */
  method ReadAll(chunks: seq<seq<byte>>, max: nat, dropped: seq<nat>) returns (lines: seq<Line>)
    requires forall i :: 0 <= i < |chunks| ==> chunks[i] != []
    ensures lines == Lines(max, Concat(chunks))
  {
    hide Lines, CutTo;
    LinesOfNothing(max);
    var source := new Source(chunks);
    var reader := new LineReader(source, max);
    lines := [];
    for i := 0 to |dropped|
      invariant reader.Valid() && reader.reader == source && reader.max == max
      invariant lines + Lines(max, reader.Rest()) == Lines(max, Concat(chunks))
    {
      var next := reader.Next(dropped[i]);
      if next.Got? {
        lines := lines + [next.line];
      }
    }
    while true
      invariant reader.Valid() && reader.reader == source && reader.max == max
      invariant lines + Lines(max, reader.Rest()) == Lines(max, Concat(chunks))
      decreases |reader.Rest()|
    {
      var next := reader.Next(|source.chunks| + 1);
      if next.End? {
        return;
      }
      lines := lines + [next.line];
    }
  }
}
