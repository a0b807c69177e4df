/** Reading one line of an Agent response from a pipe that hands over its bytes in chunks. */
module LineReader {
  const MAXIMUM_BYTES := 65536
  const BUFFER_SIZE := 1024
  const NEWLINE := 10
  const RETURN := 13

  type Octet = b: int | 0 <= b < 256

  datatype LineResult = Line(text: seq<Octet>) | TooLarge | Incomplete

  /** The pipe: every read hands over the next chunk, of whatever size it arrived in; none left is the end. */
  class ChunkedStream {
    var chunks: seq<seq<Octet>>

    predicate Valid()
      reads this
    {
      forall i | 0 <= i < |chunks| :: 0 < |chunks[i]| <= BUFFER_SIZE
    }

    constructor (chunks: seq<seq<Octet>>)
      requires forall i | 0 <= i < |chunks| :: 0 < |chunks[i]| <= BUFFER_SIZE
      ensures Valid() && this.chunks == chunks
    {
      this.chunks := chunks;
    }

    method Read(buffer: array<Octet>) returns (count: nat)
      requires Valid() && buffer.Length == BUFFER_SIZE
      modifies this, buffer
      ensures Valid() && count <= buffer.Length
      ensures count == 0 <==> old(chunks) == []
      ensures if count == 0 then chunks == [] else old(chunks) == [buffer[..count]] + chunks
    {
      if chunks == [] {
        return 0;
      }
      var chunk := chunks[0];
      count := |chunk|;
      for i := 0 to count
        invariant buffer[..i] == chunk[..i]
        invariant chunks == old(chunks)
      {
        buffer[i] := chunk[i];
      }
      assert buffer[..count] == chunk;
      chunks := chunks[1..];
    }
  }

  function Joined(chunks: seq<seq<Octet>>): seq<Octet> {
    if chunks == [] then [] else chunks[0] + Joined(chunks[1..])
  }

  /** The position of the first newline, or the length if there is none. */
  function UntilNewline(data: seq<Octet>): (n: nat)
    ensures n <= |data| && NEWLINE !in data[..n] && (n < |data| ==> data[n] == NEWLINE)
  {
    if data == [] || data[0] == NEWLINE then 0
    else
      var n := 1 + UntilNewline(data[1..]);
      assert data[..n] == [data[0]] + data[1..][..n - 1];
      n
  }

  function TrimReturns(text: seq<Octet>): seq<Octet> {
    if text != [] && text[|text| - 1] == RETURN then TrimReturns(text[..|text| - 1]) else text
  }

  /** What reading a line from these bytes means, however they are cut. */
  function LineOf(data: seq<Octet>): LineResult {
    var n := UntilNewline(data);
    if n > MAXIMUM_BYTES then TooLarge
    else if n < |data| then Line(TrimReturns(data[..n]))
    else Incomplete
  }

  method IndexOf(buffer: array<Octet>, value: Octet, count: nat) returns (index: int)
    requires count <= buffer.Length
    ensures -1 <= index < count
    ensures index >= 0 ==> buffer[index] == value && value !in buffer[..index]
    ensures index == -1 ==> value !in buffer[..count]
  {
    for i := 0 to count
      invariant value !in buffer[..i]
    {
      if buffer[i] == value {
        return i;
      }
    }
    index := -1;
  }

  lemma {:induction false} NewlineAfter(before: seq<Octet>, after: seq<Octet>)
    requires NEWLINE !in before
    ensures UntilNewline(before + after) == |before| + UntilNewline(after)
  {
    if before == [] {
      assert before + after == after;
    } else {
      assert (before + after)[1..] == before[1..] + after;
      NewlineAfter(before[1..], after);
    }
  }

  lemma {:induction false} LineFound(text: seq<Octet>, rest: seq<Octet>)
    requires NEWLINE !in text && |text| <= MAXIMUM_BYTES
    ensures LineOf(text + [NEWLINE] + rest) == Line(TrimReturns(text))
  {
    assert text + [NEWLINE] + rest == text + ([NEWLINE] + rest);
    NewlineAfter(text, [NEWLINE] + rest);
    assert (text + [NEWLINE] + rest)[..|text|] == text;
  }

  lemma {:induction false} LineTooLarge(text: seq<Octet>, rest: seq<Octet>)
    requires NEWLINE !in text && |text| > MAXIMUM_BYTES
    ensures LineOf(text + rest) == TooLarge
  {
    NewlineAfter(text, rest);
  }

  lemma {:induction false} LineIncomplete(text: seq<Octet>)
    requires NEWLINE !in text && |text| <= MAXIMUM_BYTES
    ensures LineOf(text) == Incomplete
  {
    NewlineAfter(text, []);
    assert text + [] == text;
  }

  /** One read taken off the stream, cut where the newline is if it has one. */
  lemma {:induction false} PieceTaken(message: seq<Octet>, piece: seq<Octet>, used: nat, later: seq<Octet>)
    requires used <= |piece|
    ensures message + (piece + later) == (message + piece[..used]) + (piece[used..] + later)
    ensures used < |piece| ==>
              message + (piece + later) == (message + piece[..used]) + [piece[used]] + (piece[used + 1..] + later)
  {
  }

  method ReadLine(stream: ChunkedStream) returns (result: LineResult)
    requires stream.Valid()
    modifies stream
    ensures stream.Valid()
    ensures result == LineOf(Joined(old(stream.chunks)))
  {
    hide LineOf, TrimReturns;
    var buffer := new Octet[BUFFER_SIZE];
    var message: seq<Octet> := [];
    ghost var all := Joined(stream.chunks);
    assert all == message + all;
    while true
      invariant stream.Valid()
      invariant all == message + Joined(stream.chunks)
      invariant NEWLINE !in message && |message| <= MAXIMUM_BYTES
      decreases |stream.chunks|
    {
      var count := stream.Read(buffer);
      if count == 0 {
        LineIncomplete(message);
        assert all == message;
        return Incomplete;
      }
      var newline := IndexOf(buffer, NEWLINE, count);
      var used := if newline >= 0 then newline else count;
      ghost var piece, later := buffer[..count], Joined(stream.chunks);
      PieceTaken(message, piece, used, later);
      assert piece[..used] == buffer[..used];
      var longer := message + buffer[..used];
      if |message| + used > MAXIMUM_BYTES {
        LineTooLarge(longer, piece[used..] + later);
        return TooLarge;
      }
      message := longer;
      if newline >= 0 {
        LineFound(message, piece[used + 1..] + later);
        return Line(TrimReturns(message));
      }
      assert piece[used..] + later == later;
    }
  }

  /** Trimming removes exactly the carriage returns at the end. */
  lemma {:induction false} TrimmedReturns(text: seq<Octet>)
    ensures var t := TrimReturns(text);
            && t <= text && (t == [] || t[|t| - 1] != 13)
            && forall i | |t| <= i < |text| :: text[i] == 13
    decreases |text|
  {
    if text != [] && text[|text| - 1] == RETURN {
      TrimmedReturns(text[..|text| - 1]);
    }
  }

  /** The line is what stands before the first newline, without the carriage returns at its end. */
  lemma {:induction false} LineReads(data: seq<Octet>, n: nat)
    requires n < |data| && n <= 65536 && data[n] == 10 && 10 !in data[..n]
    ensures LineOf(data).Line?
    ensures var t := LineOf(data).text;
            && t <= data[..n] && (t == [] || t[|t| - 1] != 13)
            && forall i | |t| <= i < n :: data[i] == 13
  {
    assert data == data[..n] + data[n..];
    NewlineAfter(data[..n], data[n..]);
    TrimmedReturns(data[..n]);
    var t := TrimReturns(data[..n]);
    forall i | |t| <= i < n ensures data[i] == 13 {
      assert data[..n][i] == data[i];
    }
  }

  /** The line, and the errors, by what is in the bytes: a line exactly when a newline comes within the
      limit, too large exactly when none does in the first 65537 bytes, incomplete otherwise. */
  lemma {:induction false} LineCases(data: seq<Octet>)
    ensures LineOf(data).Line? <==> exists n :: 0 <= n < |data| && n <= 65536 && data[n] == 10
    ensures LineOf(data).TooLarge? <==> |data| > 65536 && 10 !in data[..65537]
    ensures LineOf(data).Incomplete? <==> |data| <= 65536 && 10 !in data
  {
    var n := UntilNewline(data);
    assert NEWLINE !in data[..n];
    forall i | 0 <= i < n ensures data[i] != NEWLINE {
      assert data[i] == data[..n][i];
    }
    if n < |data| && n <= MAXIMUM_BYTES {
      assert |data| > MAXIMUM_BYTES ==> data[..MAXIMUM_BYTES + 1][n] == NEWLINE;
    } else if n > MAXIMUM_BYTES {
      assert data[..MAXIMUM_BYTES + 1] == data[..n][..MAXIMUM_BYTES + 1];
    } else {
      assert data[..n] == data;
    }
  }
}
