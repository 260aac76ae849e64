/**
 * The writer that cuts what the Go runtime prints into log messages (ringlogger/global.go).
 */
module GlobalLog {
  import opened Config
  import opened RingLog

  const BUFFER_SIZE := MAX_LINE - 1 - MAX_TAG - 3
  const NEWLINE: byte := 10

  /** A message for the log: it has a newline, or it fills the buffer. */
  predicate IsChunk(c: seq<byte>) {
    0 < |c| <= BUFFER_SIZE && (NEWLINE in c || |c| == BUFFER_SIZE)
  }

  class GlobalWriter {
    const buffer: array<byte>
    var location: int
    /** The arguments of the calls of Global.Write so far. */
    var messages: seq<seq<byte>>

    ghost predicate Valid()
      reads this, buffer
    {
      && buffer.Length == BUFFER_SIZE
      && 0 <= location <= buffer.Length
      && NEWLINE !in buffer[..location]
      && forall c :: c in messages ==> IsChunk(c)
    }

    /** Everything written so far. */
    ghost function Stream(): seq<byte>
      requires Valid()
      reads this, buffer
    {
      Concat(messages) + buffer[..location]
    }

    constructor ()
      ensures Valid() && Stream() == [] && messages == [] && fresh(buffer)
    {
      buffer := new byte[BUFFER_SIZE];
      location := 0;
      messages := [];
    }

    /** globalWrite. No byte is lost, repeated or moved; what stays buffered has no newline. */
    method Write(p: seq<byte>) returns (n: nat)
      requires Valid()
      modifies this, buffer
      ensures Valid() && n == |p|
      ensures Stream() == old(Stream()) + p
      ensures old(messages) <= messages
    {
      var b := p;
      while |b| > 0
        invariant Valid() && old(messages) <= messages
        invariant Stream() + b == old(Stream()) + p
        decreases |b|, location
      {
        var amountToCopy := Min(|b|, buffer.Length - location);
        ghost var stream := Stream() + b;
        Append(b[..amountToCopy]);
        assert Concat(messages) + buffer[..location] + b[amountToCopy..] == stream by {
          assert b == b[..amountToCopy] + b[amountToCopy..];
        }
        b := b[amountToCopy..];
        var foundNl := HasNewline(location - amountToCopy);
        if foundNl || |b| > 0 {
          ConcatAppend(messages, buffer[..location]);
          Flush();
          assert Stream() == Concat(messages);
        }
      }
      n := |p|;
    }

    /** Copies into the free part of the buffer, with the newline check still to come. */
    method Append(c: seq<byte>)
      requires buffer.Length == BUFFER_SIZE && 0 <= location && location + |c| <= buffer.Length
      modifies `location, buffer
      ensures location == old(location) + |c|
      ensures buffer[..location] == old(buffer[..location]) + c
    {
      for i := 0 to |c|
        invariant location == old(location)
        invariant buffer[..location + i] == old(buffer[..location]) + c[..i]
      {
        buffer[location + i] := c[i];
        assert buffer[..location + i + 1] == buffer[..location + i] + [c[i]];
      }
      location := location + |c|;
    }

    method HasNewline(from: int) returns (found: bool)
      requires 0 <= from <= location <= buffer.Length
      ensures found <==> NEWLINE in buffer[from..location]
    {
      found := false;
      var i := from;
      while i < location
        invariant from <= i <= location && !found && NEWLINE !in buffer[from..i]
      {
        if buffer[i] == NEWLINE {
          found := true;
          break;
        }
        assert buffer[from..i + 1] == buffer[from..i] + [buffer[i]];
        i := i + 1;
      }
    }

    method Flush()
      requires buffer.Length == BUFFER_SIZE && 0 <= location <= buffer.Length
      modifies `location, `messages
      ensures location == 0 && messages == old(messages) + [buffer[..old(location)]]
    {
      messages := messages + [buffer[..location]];
      location := 0;
    }

    /** Any sequence of calls. */
    method WriteAll(ps: seq<seq<byte>>)
      requires Valid()
      modifies this, buffer
      ensures Valid()
      ensures Stream() == old(Stream()) + Concat(ps)
    {
      for i := 0 to |ps|
        invariant Valid() && Stream() == old(Stream()) + Concat(ps[..i])
      {
        var _ := Write(ps[i]);
        assert ps[..i + 1] == ps[..i] + [ps[i]];
        ConcatAppend(ps[..i], ps[i]);
      }
      assert ps[..|ps|] == ps;
    }
  }

  /** The log never cuts such a message, whatever the tag: the line is the tag in brackets and
      the whole trimmed message. */
  lemma {:induction false} ChunkIsNotCut(tag: seq<byte>, c: seq<byte>, ts: int)
    requires |tag| <= MAX_TAG && IsChunk(c)
    ensures Added(tag, c, ts) == if Trim(c) == [] then []
      else [Entry(ts, UpToNul([LEFT] + tag + [RIGHT, SPACE] + Trim(c)))]
  {
    var a, b := Trimmed(c);
    ShortLineIsWhole(tag, Trim(c));
  }
}
