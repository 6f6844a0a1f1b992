/** Connections as the agent sees them: bytes arrive in chunks of any size, a write may stop
    half-way, and one bounded buffered reader is shared by the request line and what follows it. */
module Streams {
  import opened Common

  const LINE_LIMIT: nat := 16 * 1024

  /** The receiving half of a connection. `pending` is everything the peer still sends. */
  class Source {
    var pending: seq<Byte>
    const ending: Ending

    constructor (pending: seq<Byte>, ending: Ending)
      ensures this.pending == pending && this.ending == ending
    {
      this.pending := pending;
      this.ending := ending;
    }

    /** One read of any size. A read that delivers nothing reports how the stream ended, and the
        last bytes may come together with that report. */
    method Read(into: array<Byte>, start: nat, limit: nat) returns (count: nat, failure: Option<Failure>)
      requires start < limit <= into.Length
      modifies this`pending, into
      ensures count <= limit - start && count <= |old(pending)|
      ensures pending == old(pending)[count..]
      ensures into[start..start + count] == old(pending)[..count]
      ensures into[..start] == old(into[..start]) && into[start + count..] == old(into[start + count..])
      ensures count == 0 ==> failure.Some?
      ensures failure.Some? ==> pending == [] && failure.value == ending
    {
      count :| 0 <= count <= limit - start && count <= |pending| && (count > 0 || pending == []);
      ghost var before := into[..];
      forall i | 0 <= i < count {
        into[start + i] := pending[i];
      }
      assert forall i :: 0 <= i < count ==> into[start..start + count][i] == pending[i];
      assert into[start..start + count] == pending[..count];
      assert into[..start] == before[..start] && into[start + count..] == before[start + count..];
      pending := pending[count..];
      var early: bool := *;
      failure := if pending == [] && (count == 0 || early) then Some(ending) else None;
    }
  }

  /** The sending half of a connection: `written` is every byte handed to the transport. */
  class Sink {
    var written: seq<Byte>
    var broken: bool   // a write has failed
    var open: bool

    constructor ()
      ensures written == [] && !broken && open
    {
      written, broken, open := [], false, true;
    }

    method Close()
      modifies this`open
      ensures !open
    {
      open := false;
    }

    /** A write either takes every byte or fails after a proper prefix; writing nothing succeeds. */
    method Write(bytes: seq<Byte>) returns (ok: bool)
      modifies this`written, this`broken
      ensures broken == (old(broken) || !ok)
      ensures ok ==> written == old(written) + bytes
      ensures !ok ==> old(written) <= written < old(written) + bytes
    {
      ok := *;
      if ok || bytes == [] {
        ok := true;
        written := written + bytes;
      } else {
        var count: nat :| count < |bytes|;
        written, broken := written + bytes[..count], true;
      }
    }
  }

  /** The failure reported when a full read stops after `got` bytes. */
  function Short(got: nat, ending: Ending): Failure {
    if got > 0 && ending == EndOfFile then UnexpectedEndOfFile else ending
  }

  /** Position of the first newline, or the length of the text when there is none. */
  function NewlineAt(bytes: seq<Byte>): (i: nat)
    ensures i <= |bytes|
    ensures i < |bytes| ==> bytes[i] == 10
    ensures forall k :: 0 <= k < i ==> bytes[k] != 10
  {
    if bytes == [] || bytes[0] == 10 then 0 else 1 + NewlineAt(bytes[1..])
  }

  datatype Line = Line(text: seq<Byte>) | NoLine(failure: Failure)

  /** The bytes up to and including the first newline, when they fit the bound. */
  function FirstLine(stream: seq<Byte>): Option<seq<Byte>> {
    var i := NewlineAt(stream);
    if i < |stream| && i < LINE_LIMIT then Some(stream[..i + 1]) else None
  }

  predicate NoNewline(stream: seq<Byte>, n: nat)
    requires n <= |stream|
  {
    forall k :: 0 <= k < n ==> stream[k] != 10
  }

  lemma NewlineIs(stream: seq<Byte>, i: nat)
    requires i <= |stream| && NoNewline(stream, i) && (i < |stream| ==> stream[i] == 10)
    ensures NewlineAt(stream) == i
  {
  }

  /** Searching on from a part known to hold no newline finds the first one of the whole stream. */
  lemma NewlineContinues(stream: seq<Byte>, s: nat, n: nat)
    requires s <= n <= |stream| && NoNewline(stream, s)
    ensures var i := s + NewlineAt(stream[s..n]); i <= n && NoNewline(stream, i) && (i < n ==> NewlineAt(stream) == i)
  {
    var part := stream[s..n];
    var i := s + NewlineAt(part);
    assert forall k :: s <= k < i ==> stream[k] == part[k - s];
    if i < n {
      assert stream[i] == part[i - s];
      NewlineIs(stream, i);
    }
  }

  lemma NoFirstLine(stream: seq<Byte>, n: nat)
    requires n <= |stream| && NoNewline(stream, n) && (n >= LINE_LIMIT || n == |stream|)
    ensures FirstLine(stream) == None
  {
  }

  /** Why a stream has no first line: what remains is longer than the bound, or it ended. A stream of
      exactly the bound gives either report, by whether its end arrived with its last bytes. */
  predicate NoLineReason(stream: seq<Byte>, ending: Ending, failure: Failure) {
    || (failure == BufferFull && |stream| >= LINE_LIMIT)
    || (failure == ending && |stream| <= LINE_LIMIT)
  }

  /** A buffered reader whose buffer size is the line bound. */
  class BufferedReader {
    const source: Source
    const buffer: array<Byte>
    var r: nat
    var w: nat
    var failure: Option<Failure>

    ghost predicate Valid()
      reads this, source, buffer
    {
      && buffer.Length == LINE_LIMIT
      && r <= w <= buffer.Length
      && (failure.Some? ==> source.pending == [] && failure.value == source.ending)
    }

    /** Every byte this reader has still to deliver. */
    ghost function Pending(): seq<Byte>
      requires Valid()
      reads this, source, buffer
    {
      buffer[r..w] + source.pending
    }

    constructor (source: Source)
      ensures Valid() && this.source == source && Pending() == source.pending
      ensures fresh(buffer)
    {
      this.source := source;
      buffer := new Byte[LINE_LIMIT];
      r, w, failure := 0, 0, None;
    }

    method Slide()
      requires Valid()
      modifies this`r, this`w, buffer
      ensures Valid() && r == 0 && w == old(w - r) && buffer[..w] == old(buffer[r..w])
    {
      if r > 0 {
        forall i | 0 <= i < w - r {
          buffer[i] := buffer[r + i];
        }
        r, w := 0, w - r;
      }
    }

    /** Slides the unread bytes to the front of the buffer and reads once more behind them. */
    method Fill()
      requires Valid() && w - r < buffer.Length && failure.None?
      modifies this, buffer, source`pending
      ensures Valid() && r == 0
      ensures Pending() == old(Pending())
      ensures w >= old(w - r) && buffer[..old(w - r)] == old(buffer[r..w])
      ensures w == old(w - r) ==> failure.Some?
    {
      ghost var unread := buffer[r..w];
      Slide();
      ghost var stream := source.pending;
      var count;
      count, failure := source.Read(buffer, w, buffer.Length);
      assert buffer[..w] == unread;
      assert buffer[w..w + count] == stream[..count];
      w := w + count;
      assert buffer[..w] == unread + stream[..count];
      assert stream == stream[..count] + stream[count..];
    }

    /** Hands out the next `count` buffered bytes. */
    method Take(count: nat) returns (text: seq<Byte>)
      requires Valid() && count <= w - r
      modifies this`r
      ensures Valid()
      ensures text == old(Pending())[..count] && Pending() == old(Pending())[count..]
    {
      text := buffer[r..r + count];
      assert buffer[r..w] == text + buffer[r + count..w];
      r := r + count;
    }

    /** Searches the buffered bytes from the `s`-th on. */
    method Search(s: nat) returns (i: nat)
      requires Valid() && s <= w - r && NoNewline(Pending(), s)
      ensures i <= w - r && NoNewline(Pending(), i)
      ensures i < w - r ==> NewlineAt(Pending()) == i
      ensures i == w - r && (i >= LINE_LIMIT || i == |Pending()|) ==> FirstLine(Pending()) == None
    {
      i := s + NewlineAt(buffer[r + s..w]);
      assert Pending()[s..w - r] == buffer[r + s..w];
      NewlineContinues(Pending(), s, w - r);
      if i == w - r && (i >= LINE_LIMIT || i == |Pending()|) {
        NoFirstLine(Pending(), i);
      }
    }

    /** Reads up to and including the first newline. */
    method ReadSlice() returns (line: Line)
      requires Valid()
      modifies this, buffer, source`pending
      ensures Valid()
      ensures line.Line? ==> FirstLine(old(Pending())) == Some(line.text)
      ensures line.Line? ==> Pending() == old(Pending())[|line.text|..]
      ensures line.NoLine? ==> FirstLine(old(Pending())) == None
      ensures line.NoLine? ==> NoLineReason(old(Pending()), source.ending, line.failure)
      ensures line.NoLine? ==> Pending() == if line.failure == BufferFull then old(Pending())[LINE_LIMIT..] else []
      ensures line.NoLine? && line.failure != BufferFull ==> failure == None
    {
      ghost var stream := Pending();
      var s := 0;
      while true
        invariant Valid() && Pending() == stream
        invariant 0 <= s <= w - r && NoNewline(stream, s)
        decreases LINE_LIMIT - (w - r), if failure.None? then 1 else 0
      {
        var i := Search(s);
        if i < w - r {
          var text := Take(i + 1);
          line := Line(text);
          return;
        }
        if failure.Some? {
          line := NoLine(failure.value);
          r, failure := w, None;
          return;
        }
        if w - r >= buffer.Length {
          r := w;
          line := NoLine(BufferFull);
          return;
        }
        s := w - r;
        Fill();
      }
    }

    /** One read into `into[start..limit]`: buffered bytes first, and with an empty buffer one read
        of the connection, straight into the destination when that is at least a buffer long. */
    method Read(into: array<Byte>, start: nat, limit: nat) returns (count: nat, report: Option<Failure>)
      requires Valid() && start < limit <= into.Length && into != buffer
      modifies this, buffer, source`pending, into
      ensures Valid() && count <= limit - start && count <= |old(Pending())|
      ensures Pending() == old(Pending())[count..]
      ensures into[start..start + count] == old(Pending())[..count]
      ensures into[..start] == old(into[..start]) && into[start + count..] == old(into[start + count..])
      ensures count == 0 ==> report.Some?
      ensures report.Some? ==> Pending() == [] && report.value == source.ending
    {
      if r == w {
        if failure.Some? {
          count, report, failure := 0, failure, None;
          return;
        }
        if limit - start >= buffer.Length {
          assert Pending() == source.pending;
          count, report := source.Read(into, start, limit);
          return;
        }
        r, w := 0, 0;
        Fill();
        if w == 0 {
          count, report, failure := 0, failure, None;
          return;
        }
      }
      report := None;
      count := if limit - start < w - r then limit - start else w - r;
      var chunk := Take(count);
      forall i | 0 <= i < count {
        into[start + i] := chunk[i];
      }
    }

    /** Fills the whole destination, reading as often as it takes. */
    method ReadFull(into: array<Byte>) returns (report: Option<Failure>)
      requires Valid() && into != buffer
      modifies this, buffer, source`pending, into
      ensures Valid()
      ensures |old(Pending())| >= into.Length ==>
        report == None && into[..] == old(Pending())[..into.Length] && Pending() == old(Pending())[into.Length..]
      ensures |old(Pending())| < into.Length ==>
        report == Some(Short(|old(Pending())|, source.ending)) && Pending() == []
    {
      ghost var stream := Pending();
      var got := 0;
      report := None;
      while got < into.Length && report.None?
        invariant Valid() && got <= into.Length && got <= |stream|
        invariant into[..got] == stream[..got] && Pending() == stream[got..]
        invariant report.Some? ==> got == |stream| && report.value == source.ending
        decreases into.Length - got, if report.None? then 1 else 0
      {
        var count;
        ghost var rest := Pending();
        count, report := Read(into, got, into.Length);
        assert into[..got + count] == stream[..got] + rest[..count];
        assert stream[got..][..count] == stream[got..got + count];
        got := got + count;
      }
      if got == into.Length {
        report := None;
      } else if got > 0 && report == Some(EndOfFile) {
        report := Some(UnexpectedEndOfFile);
      }
    }
  }

  /** The bound of a line: 16384 bytes with its newline. */
  lemma LineBound(text: seq<Byte>, rest: seq<Byte>)
    requires NoNewline(text, |text|)
    ensures FirstLine(text + [10] + rest) == if |text| + 1 <= 16384 then Some(text + [10]) else None
  {
    var stream := text + [10] + rest;
    assert stream[..|text|] == text && stream[|text|] == 10;
    assert forall k :: 0 <= k < |text| ==> stream[k] == text[k];
    NewlineIs(stream, |text|);
    assert stream[..|text| + 1] == text + [10];
  }

  /** A full read that got nothing reports how the stream ended; one that was cut short tells a plain
      end apart from it. */
  lemma ShortReads(got: nat, ending: Ending)
    ensures Short(0, ending) == ending && Short(got, Broken) == Broken
    ensures got > 0 ==> Short(got, EndOfFile) == UnexpectedEndOfFile
  {
  }
}
