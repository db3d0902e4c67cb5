/** A connected socket: frames are read with `Read` and written with `WriteLine(s)` and `Send`. */
module Sockets {
  import opened Framing
  import opened FramingTheorems
  import opened SocketIstreams

  /** The bytes `send()` adds: a blank line, and one more line before it when nothing was ever written. */
  function Closing(writeCount: int): string {
    if writeCount == 0 then CRLF + CRLF else CRLF
  }

  /** All the bytes of one reply: its lines, then what `send()` adds after them. */
  function ReplyBytes(writeCount: int, lines: seq<string>): string {
    EncodeLines(lines) + Closing(if lines == [] then writeCount else 1)
  }

  lemma {:induction false} Regroup(done: seq<string>, line: string, rest: seq<string>)
    ensures done + ([line] + rest) == (done + [line]) + rest
  {
  }

  class Socket {
    const inbound: ByteStream
    const outbound: ByteStream
    var writeCount: int

    /** Every byte this socket ever wrote. */
    ghost var sent: string

    ghost predicate Valid()
      reads this
    {
      inbound != outbound && writeCount >= 0 && (writeCount == 0 <==> sent == "")
    }

    constructor (inbound: ByteStream, outbound: ByteStream)
      requires inbound != outbound
      ensures Valid() && this.inbound == inbound && this.outbound == outbound && sent == ""
    {
      this.inbound, this.outbound := inbound, outbound;
      writeCount, sent := 0, "";
    }

    /** Reads one frame: its lines, and not a byte of what follows it. */
    method Read() returns (result: seq<string>)
      requires HasFrame(inbound.pending)
      modifies inbound
      ensures result == FrameLines(old(inbound.pending))
      ensures inbound.pending == AfterFrame(old(inbound.pending))
    {
      hide SplitFrom, Strip, RawLen, HasBlank;
      result := [];
      var stream := new SocketIstream(inbound);
      ghost var lines := stream.Remaining();
      var line := stream.GetLine();
      while !stream.failbit
        invariant stream.Valid() && fresh(stream) && fresh(stream.sb)
        invariant stream.sb.stream == inbound && stream.sb.source == old(inbound.pending)
        invariant result + stream.After(line) == lines
        invariant stream.failbit ==> stream.Remaining() == []
        decreases |stream.After(line)|
      {
        Regroup(result, line, stream.Remaining());
        result := result + [line];
        line := stream.GetLine();
      }
    }

    method WriteLine(d: string)
      requires Valid()
      modifies this`writeCount, this`sent, outbound
      ensures Valid() && writeCount == old(writeCount) + 1
      ensures outbound.pending == old(outbound.pending) + EncodeLines([d])
      ensures sent == old(sent) + EncodeLines([d])
    {
      assert EncodeLines([d]) == d + CRLF by { assert [d][1..] == []; }
      writeCount := writeCount + 1;
      outbound.Deliver(d + CRLF);
      sent := sent + (d + CRLF);
    }

    /** The vector overload counts its lines twice: once itself and once per line written. */
    method WriteLines(data: seq<string>)
      requires Valid()
      modifies this`writeCount, this`sent, outbound
      ensures Valid() && writeCount == old(writeCount) + 2 * |data|
      ensures outbound.pending == old(outbound.pending) + EncodeLines(data)
      ensures sent == old(sent) + EncodeLines(data)
    {
      if data == [] { return; }
      writeCount := writeCount + |data|;
      ghost var before := writeCount;
      for i := 0 to |data|
        invariant writeCount == before + i
        invariant outbound.pending == old(outbound.pending) + EncodeLines(data[..i])
        invariant sent == old(sent) + EncodeLines(data[..i])
        invariant i > 0 ==> Valid()
      {
        assert data[..i + 1] == data[..i] + [data[i]];
        EncodeLinesConcat(data[..i], [data[i]]);
        assert EncodeLines([data[i]]) == data[i] + CRLF by { assert [data[i]][1..] == []; }
        writeCount := writeCount + 1;
        outbound.Deliver(data[i] + CRLF);
        sent := sent + (data[i] + CRLF);
      }
      assert data[..|data|] == data;
    }

    /** Since a given moment exactly these lines went out, and the counter has moved if there were any. */
    ghost predicate Wrote(before: string, countBefore: int, lines: seq<string>)
      reads this, outbound
    {
      && outbound.pending == before + EncodeLines(lines)
      && (lines == [] ==> writeCount == countBefore)
      && (lines != [] ==> writeCount > 0)
    }

    lemma {:induction false} WroteNothing()
      ensures Wrote(outbound.pending, writeCount, [])
    {
    }

    /** One more `write` of lines. */
    method Emit(more: seq<string>, ghost before: string, ghost countBefore: int, ghost lines: seq<string>)
      requires Valid() && Wrote(before, countBefore, lines)
      modifies this`writeCount, this`sent, outbound
      ensures Valid() && Wrote(before, countBefore, lines + more)
    {
      EncodeLinesConcat(lines, more);
      WriteLines(more);
      assert more == [] ==> lines + more == lines;
    }

    method WriteOnly(line: string)
      requires Valid()
      modifies this`writeCount, this`sent, outbound
      ensures Valid() && Wrote(old(outbound.pending), old(writeCount), [line])
    {
      WriteLine(line);
    }

    method Send()
      requires Valid()
      modifies this`writeCount, this`sent, outbound
      ensures Valid() && writeCount > 0
      ensures outbound.pending == old(outbound.pending) + Closing(old(writeCount))
      ensures sent == old(sent) + Closing(old(writeCount))
    {
      assert EncodeLines([""]) == CRLF by { assert [""][1..] == []; }
      if writeCount == 0 { WriteLine(""); }
      WriteLine("");
    }
  }

  // ----- what a reply is, given the traffic before it -----

  /** The bytes are one frame and nothing else. */
  ghost predicate IsOneFrame(bytes: string) { HasFrame(bytes) && FrameLen(bytes) == |bytes| }

  /** A bare `send()` is an empty frame exactly when it is the first output of the connection. */
  lemma {:induction false} TwoBlankLines()
    ensures IsOneFrame(CRLF + CRLF) && FrameLines(CRLF + CRLF) == []
    ensures !HasFrame(CRLF)
  {
    assert EncodeLines([""]) == CRLF by { assert [""][1..] == []; }
    FrameOfMessage([""], "");
    assert Encode([""]) + "" == CRLF + CRLF;
    NoEarlyFrame([""], 2);
    assert Encode([""])[..2] == CRLF;
  }

  lemma {:induction false} BareSend(writeCount: int)
    ensures IsOneFrame(ReplyBytes(writeCount, [])) <==> writeCount == 0
    ensures writeCount == 0 ==> FrameLines(ReplyBytes(writeCount, [])) == []
  {
    TwoBlankLines();
    assert ReplyBytes(writeCount, []) == if writeCount == 0 then CRLF + CRLF else CRLF;
  }

  /**
   Later a bare `send()` delivers nothing: its blank line becomes a leading empty line of the next message,
   or closes that message's frame at once when the message itself starts with an empty line.
   */
  lemma {:induction false} LateBareSend(writeCount: int, m: seq<string>, rest: string)
    requires writeCount != 0 && OneFrame(m)
    ensures !HasFrame(ReplyBytes(writeCount, []))
    ensures HasFrame(ReplyBytes(writeCount, []) + (Encode(m) + rest))
    ensures m[0] != "" ==>
              && FrameLines(ReplyBytes(writeCount, []) + (Encode(m) + rest)) == [""] + m
              && AfterFrame(ReplyBytes(writeCount, []) + (Encode(m) + rest)) == rest
    ensures m[0] == "" ==>
              && FrameLines(ReplyBytes(writeCount, []) + (Encode(m) + rest)) == []
              && AfterFrame(ReplyBytes(writeCount, []) + (Encode(m) + rest)) == Encode(m[1..]) + rest
  {
    var l := [""] + m;
    assert l[1..] == m && ReplyBytes(writeCount, []) == CRLF;
    assert Encode(l) == CRLF + Encode(m) by { Assoc(CRLF, EncodeLines(m), CRLF); }
    Assoc(CRLF, Encode(m), rest);
    ReadBack(l, rest);
    TwoBlankLines();
    if m[0] == "" {
      assert Taken(l) == 1 && l[..1] == [""] && l[2..] == m[1..];
    } else {
      forall i | 1 <= i < |l| ensures l[i] != "" { assert i > 1 ==> m[i - 1] != ""; }
      assert Taken(l) == |l| && l[..|l|] == l;
    }
  }

  /** A reply of at least one line never depends on earlier traffic. */
  lemma {:induction false} ReplyIsEncode(writeCount: int, lines: seq<string>)
    requires lines != []
    ensures ReplyBytes(writeCount, lines) == Encode(lines)
  {
  }
}
