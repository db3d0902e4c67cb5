/** The incremental reader: a one-character-lookahead stream buffer driven by `std::getline`. */
module SocketIstreams {
  import opened Wrappers
  import opened Framing
  import opened FramingTheorems

  /** One direction of a connection: the bytes that were written and not yet read. */
  class ByteStream {
    var pending: string

    constructor ()
      ensures pending == ""
    {
      pending := "";
    }

    /** `::write`: the bytes join the queue in order. */
    method Deliver(bytes: string)
      modifies this
      ensures pending == old(pending) + bytes
    {
      pending := pending + bytes;
    }

    /** `::read` of one byte, on a queue that holds one. */
    method Receive() returns (c: char)
      requires pending != ""
      modifies this
      ensures old(pending) == [c] + pending
    {
      c := pending[0];
      pending := pending[1..];
    }
  }

  class SocketStreambuf {
    const stream: ByteStream
    var currChar: char
    var nextChar: char
    var isEOS: bool

    /** The queue when reading began, and the index of `currChar` among the characters it shows. */
    ghost const source: string
    ghost var pos: nat

    ghost predicate Valid()
      reads this, stream
    {
      && HasFrame(source)
      && pos <= |FrameText(source)|
      && pos + 2 <= |Strip(source)|
      && currChar == Strip(source)[pos]
      && nextChar == Strip(source)[pos + 1]
      && (isEOS <==> pos == |FrameText(source)|)
      && stream.pending == source[RawLen(source, pos + 2)..]
    }

    /** The text the buffer has not given out yet. */
    ghost function Rest(): string
      reads this, stream
      requires Valid()
    { FrameText(source)[pos..] }

    constructor (stream: ByteStream)
      requires HasFrame(stream.pending)
      modifies stream
      ensures Valid() && this.stream == stream && source == old(stream.pending) && pos == 0
    {
      this.stream := stream;
      this.source := stream.pending;
      this.pos := 0;
      isEOS := false;
      new;
      ShowsTwo(source, 0);
      RawLenAdd(source, 1, 1);
      nextChar := Peek();
      Next(0);
    }

    /** The next character that is no '\r'. */
    method Peek() returns (c: char)
      requires Strip(stream.pending) != ""
      modifies stream
      ensures c == Strip(old(stream.pending))[0]
      ensures stream.pending == old(stream.pending)[RawLen(old(stream.pending), 1)..]
    {
      ghost var s := stream.pending;
      ghost var n := 1;
      c := stream.Receive();
      while c == '\r'
        invariant n <= |s| && stream.pending == s[n..] && n >= 1 && c == s[n - 1]
        invariant c == '\r' ==> Strip(s[n..]) == Strip(s) && RawLen(s, 1) == n + RawLen(s[n..], 1)
        invariant c != '\r' ==> Strip(s)[0] == c && RawLen(s, 1) == n
        decreases |stream.pending|
      {
        assert s[n..][1..] == s[n + 1..];
        c := stream.Receive();
        n := n + 1;
      }
    }

    /** Shifts the lookahead by one; `at` is where `nextChar` stands in the stream. */
    method Next(ghost at: nat)
      requires HasFrame(source) && at <= |FrameText(source)| && !isEOS
      requires at < |Strip(source)| && nextChar == Strip(source)[at]
      requires stream.pending == source[RawLen(source, at + 1)..]
      modifies this, stream
      ensures Valid() && pos == at
    {
      hide Strip, RawLen, FirstBlank;
      ShowsTwo(source, at);
      RawLenAdd(source, at + 1, 1);
      currChar := nextChar;
      nextChar := Peek();
      if currChar == '\n' && nextChar == '\n' { isEOS := true; }
      pos := at;
    }

    /** Shows the next character without taking it; None is end of file. */
    method Underflow() returns (c: Option<char>)
      requires Valid()
      ensures c == if Rest() == "" then None else Some(Rest()[0])
    {
      ShowsTwo(source, pos);
      if isEOS { return None; }
      return Some(currChar);
    }

    /** Takes a character; the last one is taken but reported as end of file. */
    method Uflow() returns (c: Option<char>)
      requires Valid()
      modifies this, stream
      ensures Valid() && pos == if old(Rest()) == "" then old(pos) else old(pos) + 1
      ensures c == if |old(Rest())| <= 1 then None else Some(old(Rest())[0])
    {
      ShowsTwo(source, pos);
      if isEOS { return None; }
      var tmp := currChar;
      Next(pos + 1);
      if isEOS { return None; }
      return Some(tmp);
    }

    /** `snextc` of an unbuffered stream buffer: `sbumpc`, then `sgetc` (sections 27.6.3.2.3 and 27.6.3.4.3). */
    method Snextc() returns (c: Option<char>)
      requires Valid()
      modifies this, stream
      ensures Valid() && pos == if old(Rest()) == "" then old(pos) else old(pos) + 1
      ensures c == if |old(Rest())| <= 1 then None else Some(old(Rest())[1])
    {
      c := Uflow();
      if c.Some? { c := Underflow(); }
    }
  }

  /** Below the first blank line there are always two characters to show, and no blank. */
  lemma {:induction false} ShowsTwo(source: string, at: nat)
    requires HasFrame(source) && at <= |FrameText(source)|
    ensures at + 2 <= |Strip(source)|
    ensures BlankAt(Strip(source), at) <==> at == |FrameText(source)|
    ensures at < |FrameText(source)| ==> FrameText(source)[at] == Strip(source)[at]
  {
    assert IsFirstBlank(Strip(source), FirstBlank(Strip(source)));
  }

  /** After a newline inside a frame there is always one more line, and it is not empty. */
  lemma {:induction false} LineFollowsNewline(source: string, k: nat)
    requires HasFrame(source) && k < |FrameText(source)| && FrameText(source)[k] == '\n'
    ensures k + 1 < |FrameText(source)|
  {
    ShowsTwo(source, k);
    ShowsTwo(source, k + 1);
  }

  class SocketIstream {
    const sb: SocketStreambuf
    var eofbit: bool
    var failbit: bool

    ghost predicate Valid()
      reads this, sb, sb.stream
    {
      sb.Valid() && (eofbit ==> sb.Rest() == "")
    }

    constructor (stream: ByteStream)
      requires HasFrame(stream.pending)
      modifies stream
      ensures Valid() && fresh(sb) && sb.stream == stream && sb.source == old(stream.pending) && sb.pos == 0
      ensures !eofbit && !failbit
    {
      sb := new SocketStreambuf(stream);
      eofbit, failbit := false, false;
    }

    /** The lines of the frame that further calls will return. */
    ghost function Remaining(): (lines: seq<string>)
      reads this, sb, sb.stream
      requires Valid()
      ensures lines == [] ==> sb.stream.pending == AfterFrame(sb.source)
    {
      if eofbit || sb.Rest() == "" then [] else SplitFrom(FrameText(sb.source), sb.pos)
    }

    /** The same, counting the `line` that the last call returned and nobody has used yet. */
    ghost function After(line: string): seq<string>
      reads this, sb, sb.stream
      requires Valid()
    {
      if failbit then [] else [line] + Remaining()
    }

    /** `std::getline(stream, line)` with delimiter '\n' (section 21.4.8.9 of ISO/IEC 14882:2014). */
    method GetLine() returns (line: string)
      requires Valid()
      modifies this, sb, sb.stream
      ensures Valid()
      ensures old(failbit) ==> failbit
      ensures !old(failbit) ==> After(line) == old(Remaining())
      ensures failbit && !old(failbit) ==> Remaining() == []
    {
      hide Strip, RawLen, FirstBlank, BlankAt, SplitFrom, LineEnd;
      line := "";
      if eofbit || failbit {
        failbit := true;
        return;
      }
      ghost var text := FrameText(sb.source);
      ghost var from := sb.pos;
      var extracted := false;
      var c := sb.Underflow();
      while c.Some? && c.value != '\n'
        invariant sb.Valid() && from <= sb.pos && !eofbit && !failbit
        invariant line == text[from..sb.pos] && '\n' !in line
        invariant extracted <==> from < sb.pos
        invariant c == if sb.Rest() == "" then None else Some(sb.Rest()[0])
        decreases |sb.Rest()|
      {
        assert text[from..sb.pos + 1] == line + [c.value];
        line := line + [c.value];
        extracted := true;
        c := sb.Snextc();
      }
      LineEndIs(text, from, sb.pos);
      SplitStep(text, from);
      if c.None? {
        eofbit := true;
      } else {
        LineFollowsNewline(sb.source, sb.pos);
        extracted := true;
        var _ := sb.Uflow();
      }
      if !extracted { failbit := true; }
    }
  }
}
