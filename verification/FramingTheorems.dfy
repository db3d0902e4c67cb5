/** What the wire format promises: exact round trips, frame streams, closure under reading. */
module FramingTheorems {
  import opened Framing

  // ----- stripping and raw lengths -----

  lemma {:induction false} Assoc(a: string, b: string, c: string)
    ensures (a + b) + c == a + (b + c)
  {
  }

  lemma {:induction false} StripConcat(a: string, b: string)
    ensures Strip(a + b) == Strip(a) + Strip(b)
  {
    if a == "" {
      assert a + b == b;
    } else {
      StripConcat(a[1..], b);
      assert (a + b)[1..] == a[1..] + b;
      Assoc([a[0]], Strip(a[1..]), Strip(b));
    }
  }

  lemma {:induction false} StripCRLF()
    ensures Strip(CRLF) == "\n"
  {
    assert CRLF[1..] == "\n" && "\n"[1..] == "";
  }

  lemma {:induction false} StripClean(a: string)
    ensures '\r' !in Strip(a)
    ensures '\r' !in a ==> Strip(a) == a
  {
    if a != "" { StripClean(a[1..]); }
  }

  lemma {:induction false} StripStep(s: string)
    requires s != ""
    ensures Strip(s) == if s[0] == '\r' then Strip(s[1..]) else [s[0]] + Strip(s[1..])
  {
  }

  lemma {:induction false} StripOne(c: char)
    ensures Strip([c]) == if c == '\r' then "" else [c]
  {
    assert [c][1..] == "";
  }

  lemma {:induction false} RawLenStep(s: string, n: nat)
    requires 0 < n <= |Strip(s)|
    ensures var m := if s[0] == '\r' then n else n - 1;
            s != "" && m <= |Strip(s[1..])| && RawLen(s, n) == 1 + RawLen(s[1..], m)
  {
  }

  lemma {:induction false} RawLenNothing(s: string)
    ensures RawLen(s, 0) == 0
  {
  }

  lemma {:induction false} DropAfterOne(s: string, k: nat)
    requires 0 < k <= |s|
    ensures s[1..][k - 1..] == s[k..] && s[..k] == [s[0]] + s[1..][..k - 1]
  {
  }

  /** Reading `n` characters leaves a stream that shows the rest, and continues additively. */
  lemma {:induction false} RawLenSplits(s: string, n: nat)
    requires n <= |Strip(s)|
    ensures Strip(s[RawLen(s, n)..]) == Strip(s)[n..]
    ensures Strip(s[..RawLen(s, n)]) == Strip(s)[..n]
    ensures n > 0 ==> RawLen(s, n) > 0 && s[RawLen(s, n) - 1] == Strip(s)[n - 1]
    decreases |s|
  {
    hide Strip, RawLen;
    if n == 0 {
      RawLenNothing(s);
      assert Strip("") == "" by { StripClean(""); }
    } else {
      RawLenStep(s, n);
      StripStep(s);
      var m := if s[0] == '\r' then n else n - 1;
      var k := RawLen(s, n);
      RawLenSplits(s[1..], m);
      DropAfterOne(s, k);
      StripConcat([s[0]], s[1..][..k - 1]);
      StripOne(s[0]);
      if m == 0 { RawLenNothing(s[1..]); }
    }
  }

  lemma {:induction false} RawLenAdd(s: string, n: nat, m: nat)
    requires n + m <= |Strip(s)|
    ensures Strip(s[RawLen(s, n)..]) == Strip(s)[n..]
    ensures RawLen(s, n + m) == RawLen(s, n) + RawLen(s[RawLen(s, n)..], m)
    decreases |s|
  {
    hide Strip, RawLen;
    if n == 0 {
      RawLenNothing(s);
    } else {
      RawLenStep(s, n);
      RawLenStep(s, n + m);
      StripStep(s);
      RawLenAdd(s[1..], if s[0] == '\r' then n else n - 1, m);
      DropAfterOne(s, RawLen(s, n));
    }
  }

  lemma {:induction false} RawLenExtend(p: string, z: string, n: nat)
    requires n <= |Strip(p)|
    ensures n <= |Strip(p + z)| && RawLen(p + z, n) == RawLen(p, n)
  {
    StripConcat(p, z);
    if n > 0 {
      assert (p + z)[1..] == p[1..] + z;
      RawLenExtend(p[1..], z, if p[0] == '\r' then n else n - 1);
    }
  }

  lemma {:induction false} RawLenWhole(p: string)
    requires p == "" || p[|p| - 1] != '\r'
    ensures RawLen(p, |Strip(p)|) == |p|
  {
    if p != "" {
      RawLenWhole(p[1..]);
    }
  }

  lemma {:induction false} FirstBlankIs(t: string, i: nat)
    requires IsFirstBlank(t, i)
    ensures HasBlank(t) && FirstBlank(t) == i
  {
    var f := FirstBlank(t);
    assert IsFirstBlank(t, f);
  }

  // ----- a frame is a prefix of the stream -----

  /** The frame is text, then a blank line, and ends on the second newline of that blank line. */
  lemma {:induction false} FrameShape(s: string)
    requires HasFrame(s)
    ensures s == s[..FrameLen(s)] + AfterFrame(s)
    ensures Strip(s[..FrameLen(s)]) == FrameText(s) + "\n\n"
    ensures FrameLen(s) > 0 && s[FrameLen(s) - 1] == '\n'
    ensures forall j :: !BlankAt(FrameText(s) + "\n", j)
  {
    var t := Strip(s);
    var f := FirstBlank(t);
    RawLenSplits(s, f + 2);
    assert t[..f + 2] == FrameText(s) + "\n\n";
    forall j ensures !BlankAt(FrameText(s) + "\n", j) {
      if BlankAt(FrameText(s) + "\n", j) { assert BlankAt(t, j); }
    }
  }

  lemma {:induction false} BlankStays(t: string, u: string, f: nat)
    requires IsFirstBlank(t, f)
    ensures HasBlank(t + u) && FirstBlank(t + u) == f && f + 2 <= |t| && (t + u)[..f] == t[..f]
  {
    forall j | 0 <= j < f ensures !BlankAt(t + u, j) {
      assert !BlankAt(t, j);
    }
    assert BlankAt(t + u, f);
    FirstBlankIs(t + u, f);
  }

  /** Bytes that arrive later never change a frame that is already complete. */
  lemma {:induction false} FrameExtend(p: string, z: string)
    requires HasFrame(p)
    ensures HasFrame(p + z) && FrameLen(p + z) == FrameLen(p) && FrameText(p + z) == FrameText(p)
    ensures AfterFrame(p + z) == AfterFrame(p) + z
  {
    hide Strip, RawLen, FirstBlank;
    StripConcat(p, z);
    var t, f := Strip(p), FirstBlank(Strip(p));
    BlankStays(t, Strip(z), f);
    RawLenExtend(p, z, f + 2);
    assert (p + z)[FrameLen(p)..] == p[FrameLen(p)..] + z;
  }

  // ----- what a written message reads back as -----

  /** The text of lines as a reader sees it. */
  function Flat(lines: seq<string>): string {
    if lines == [] then "" else lines[0] + "\n" + Flat(lines[1..])
  }

  lemma {:induction false} StripEncode(m: seq<string>)
    requires forall i :: 0 <= i < |m| ==> Clean(m[i])
    ensures Strip(EncodeLines(m)) == Flat(m)
  {
    if m != [] {
      StripEncode(m[1..]);
      StripConcat(m[0] + CRLF, EncodeLines(m[1..]));
      StripConcat(m[0], CRLF);
      StripClean(m[0]);
      StripCRLF();
    }
  }

  lemma {:induction false} FlatHasNoBlank(m: seq<string>)
    requires OneFrame(m)
    ensures |Flat(m)| >= 1 && Flat(m)[|Flat(m)| - 1] == '\n'
    ensures forall j :: !BlankAt(Flat(m), j)
    ensures m[0] != "" ==> Flat(m)[0] != '\n'
    decreases |m|
  {
    var a, r := m[0], m[1..];
    assert Clean(a);
    if r == [] {
      assert Flat(m) == a + "\n";
    } else {
      assert r[0] != "" by { assert m[1] != ""; }
      FlatHasNoBlank(r);
      forall j ensures !BlankAt(Flat(m), j) {
        assert j > |a| ==> !BlankAt(Flat(r), j - |a| - 1);
      }
    }
  }

  lemma {:induction false} LineEndIs(t: string, from: nat, k: nat)
    requires from <= k <= |t| && '\n' !in t[from..k] && (k < |t| ==> t[k] == '\n')
    ensures LineEnd(t, from) == k
    decreases k - from
  {
    if from < k {
      assert t[from..k][0] == t[from];
      assert t[from + 1..k] == t[from..k][1..];
      LineEndIs(t, from + 1, k);
    }
  }

  lemma {:induction false} FlatStep(m: seq<string>)
    requires m != []
    ensures Flat(m) == m[0] + "\n" + Flat(m[1..])
  {
  }

  lemma {:induction false} NothingFlat()
    ensures Flat([]) == ""
  {
  }

  lemma {:induction false} FlatIsLong(m: seq<string>)
    requires m != []
    ensures |Flat(m)| >= 1
  {
  }

  lemma {:induction false} SplitStep(t: string, from: nat)
    requires from <= |t|
    ensures var k := LineEnd(t, from);
            SplitFrom(t, from) == if k == |t| then [t[from..k]] else [t[from..k]] + SplitFrom(t, k + 1)
  {
    hide LineEnd;
  }

  /** A text that continues with a line and what follows it. */
  lemma {:induction false} FirstLine(t: string, from: nat, a: string, rest: string)
    requires from <= |t| && t[from..] + "\n" == a + "\n" + rest
    ensures var k := from + |a|;
            && k <= |t| && t[from..k] == a && (k < |t| ==> t[k] == '\n')
            && (rest == "" <==> k == |t|) && (k < |t| ==> t[k + 1..] + "\n" == rest)
  {
    var u, k := t[from..] + "\n", from + |a|;
    assert |u| == |t| - from + 1 == |a| + 1 + |rest|;
    assert forall i :: 0 <= i < |a| ==> t[from + i] == u[i] == a[i];
    assert k < |t| ==> t[k] == u[|a|] == '\n';
    assert k < |t| ==> t[k + 1..] + "\n" == u[|a| + 1..] == rest;
  }

  lemma {:induction false} SplitOfFlat(t: string, from: nat, m: seq<string>)
    requires m != [] && forall i :: 0 <= i < |m| ==> Clean(m[i])
    requires from <= |t| && t[from..] + "\n" == Flat(m)
    ensures SplitFrom(t, from) == m
    decreases |m|
  {
    hide SplitFrom, Flat, LineEnd;
    var a, r := m[0], m[1..];
    FlatStep(m);
    var k := from + |a|;
    FirstLine(t, from, a, Flat(r));
    assert Clean(a);
    LineEndIs(t, from, k);
    SplitStep(t, from);
    if r == [] {
      assert m == [a] && Flat([]) == "" by { NothingFlat(); }
    } else {
      FlatIsLong(r);
      SplitOfFlat(t, k + 1, r);
      assert m == [a] + r;
    }
  }

  /** The other half: gluing the pieces back together gives the text. */
  lemma {:induction false} FlatOfSplit(t: string, from: nat)
    requires from <= |t|
    ensures Flat(SplitFrom(t, from)) == t[from..] + "\n"
    decreases |t| - from
  {
    var k := LineEnd(t, from);
    var r := SplitFrom(t, from);
    if k < |t| {
      FlatOfSplit(t, k + 1);
      assert r[1..] == SplitFrom(t, k + 1);
      assert t[from..] == t[from..k] + "\n" + t[k + 1..];
    } else {
      assert r[1..] == [];
    }
  }

  lemma {:induction false} ClosedBlank(u: string)
    requires u != "" && u[|u| - 1] == '\n' && forall j :: !BlankAt(u, j)
    ensures HasBlank(u + "\n") && FirstBlank(u + "\n") == |u| - 1
    ensures (u + "\n")[..|u| - 1] + "\n" == u
  {
    var t := u + "\n";
    assert BlankAt(t, |u| - 1);
    forall j | 0 <= j < |u| - 1 ensures !BlankAt(t, j) { assert !BlankAt(u, j); }
    FirstBlankIs(t, |u| - 1);
  }

  lemma {:induction false} StripMessage(m: seq<string>)
    requires forall i :: 0 <= i < |m| ==> Clean(m[i])
    ensures Strip(Encode(m)) == Flat(m) + "\n"
  {
    hide Strip, EncodeLines, Flat;
    StripEncode(m);
    StripConcat(EncodeLines(m), CRLF);
    StripCRLF();
  }

  /** The bytes of a legal message hold one frame and nothing else. */
  lemma {:induction false} MessageIsFrame(m: seq<string>)
    requires OneFrame(m)
    ensures HasFrame(Encode(m)) && FrameLen(Encode(m)) == |Encode(m)|
    ensures Flat(m) == FrameText(Encode(m)) + "\n"
  {
    hide Strip, EncodeLines, Flat, RawLen;
    StripMessage(m);
    FlatHasNoBlank(m);
    ClosedBlank(Flat(m));
    RawLenWhole(Encode(m));
  }

  lemma {:induction false} LinesOfFlat(text: string, m: seq<string>)
    requires OneFrame(m) && Flat(m) == text + "\n"
    ensures Lines(text) == Decoded(m)
  {
    assert text[0..] == text;
    SplitOfFlat(text, 0, m);
    assert Flat([""]) == "\n" by { assert [""][1..] == []; }
    assert text == "" ==> SplitFrom(text, 0) == [""];
  }

  /** A legal message is exactly one frame, whatever follows it on the stream. */
  lemma {:induction false} FrameOfMessage(m: seq<string>, rest: string)
    requires OneFrame(m)
    ensures HasFrame(Encode(m) + rest)
    ensures FrameLen(Encode(m) + rest) == |Encode(m)|
    ensures AfterFrame(Encode(m) + rest) == rest
    ensures FrameLines(Encode(m) + rest) == Decoded(m)
  {
    MessageIsFrame(m);
    FrameExtend(Encode(m), rest);
    LinesOfFlat(FrameText(Encode(m)), m);
  }

  /** How many lines of `m` a reader takes before it meets a blank line. */
  function Taken(m: seq<string>): (k: nat)
    requires m != []
    ensures 1 <= k <= |m| && (k < |m| ==> m[k] == "") && forall i :: 1 <= i < k ==> m[i] != ""
  {
    if |m| == 1 || m[1] == "" then 1 else 1 + Taken(m[1..])
  }

  lemma {:induction false} EncodeLinesConcat(a: seq<string>, b: seq<string>)
    ensures EncodeLines(a + b) == EncodeLines(a) + EncodeLines(b)
  {
    if a == [] {
      assert a + b == b;
    } else {
      EncodeLinesConcat(a[1..], b);
      assert (a + b)[1..] == a[1..] + b;
      Assoc(a[0] + CRLF, EncodeLines(a[1..]), EncodeLines(b));
    }
  }

  /** Carriage returns and newlines come in pairs only. */
  predicate InCrLf(w: string) {
    && (w != "" ==> w[0] != '\n' && w[|w| - 1] != '\r')
    && forall i, j :: 0 <= i && j == i + 1 < |w| ==> (w[i] == '\r' <==> w[j] == '\n')
  }

  /** On the wire every line ends in CR LF, there is no other CR or LF, and a message ends in two such pairs. */
  lemma {:induction false} LinesEndInCrLf(lines: seq<string>)
    requires forall i :: 0 <= i < |lines| ==> Clean(lines[i])
    ensures InCrLf(EncodeLines(lines)) && InCrLf(Encode(lines))
    ensures lines != [] ==>
              |Encode(lines)| >= 4 && Encode(lines)[|Encode(lines)| - 4..] == "\r\n\r\n"
  {
    LinesInPairs(lines);
    PairsConcat(EncodeLines(lines), CRLF);
    if lines != [] {
      var n := |lines| - 1;
      assert lines == lines[..n] + [lines[n]];
      EncodeLinesConcat(lines[..n], [lines[n]]);
      assert [lines[n]][1..] == [];
      assert EncodeLines([lines[n]]) == lines[n] + CRLF;
    }
  }

  lemma {:induction false} LinesInPairs(lines: seq<string>)
    requires forall i :: 0 <= i < |lines| ==> Clean(lines[i])
    ensures InCrLf(EncodeLines(lines))
  {
    if lines != [] {
      var line := lines[0] + CRLF;
      assert InCrLf(line);
      LinesInPairs(lines[1..]);
      PairsConcat(line, EncodeLines(lines[1..]));
    }
  }

  lemma {:induction false} PairsConcat(a: string, b: string)
    requires InCrLf(a) && InCrLf(b)
    ensures InCrLf(a + b)
  {
  }

  lemma {:induction false} EncodeCutsAt(m: seq<string>, k: nat, rest: string)
    requires k < |m| && m[k] == ""
    ensures Encode(m) + rest == Encode(m[..k]) + (Encode(m[k + 1..]) + rest)
  {
    var a, b := m[..k], [""] + m[k + 1..];
    assert m == a + b;
    EncodeLinesConcat(a, b);
    assert b[1..] == m[k + 1..];
    assert EncodeLines(b) == CRLF + EncodeLines(m[k + 1..]);
    Assoc(EncodeLines(a), CRLF, EncodeLines(m[k + 1..]));
    Assoc(EncodeLines(a) + CRLF, EncodeLines(m[k + 1..]), CRLF);
    Assoc(Encode(a), Encode(m[k + 1..]), rest);
  }

  lemma {:induction false} TakenIsLegal(m: seq<string>)
    requires m != [] && forall i :: 0 <= i < |m| ==> Clean(m[i])
    ensures OneFrame(m[..Taken(m)])
  {
  }

  /** The bytes a read of `m` leaves behind: nothing of `m`, or the lines after its first inner blank one. */
  function Leftover(m: seq<string>, rest: string): string
    requires m != []
  {
    if Taken(m) == |m| then rest else Encode(m[Taken(m) + 1..]) + rest
  }

  lemma {:induction false} EncodeSplits(m: seq<string>, rest: string)
    requires m != []
    ensures Encode(m) + rest == Encode(m[..Taken(m)]) + Leftover(m, rest)
  {
    if Taken(m) == |m| {
      assert m[..Taken(m)] == m;
    } else {
      EncodeCutsAt(m, Taken(m), rest);
    }
  }

  /** What any written list of lines reads back as, and which of its bytes are left. */
  lemma {:induction false} ReadBack(m: seq<string>, rest: string)
    requires m != [] && forall i :: 0 <= i < |m| ==> Clean(m[i])
    ensures HasFrame(Encode(m) + rest)
    ensures FrameLines(Encode(m) + rest) == Decoded(m[..Taken(m)])
    ensures AfterFrame(Encode(m) + rest) == Leftover(m, rest)
  {
    EncodeSplits(m, rest);
    TakenIsLegal(m);
    FrameOfMessage(m[..Taken(m)], Leftover(m, rest));
  }

  /** A message comes back as it was written, and nothing of it is left, exactly when it is well formed. */
  lemma {:induction false} RoundTrip(m: seq<string>, rest: string)
    requires m != [] && forall i :: 0 <= i < |m| ==> Clean(m[i])
    ensures HasFrame(Encode(m) + rest)
    ensures FrameLines(Encode(m) + rest) == m <==> WellFormed(m)
    ensures WellFormed(m) ==> AfterFrame(Encode(m) + rest) == rest
  {
    ReadBack(m, rest);
    if FrameLines(Encode(m) + rest) == m {
      assert |m[..Taken(m)]| >= |m|;
      assert m[..Taken(m)] == m;
    }
    if WellFormed(m) {
      assert Taken(m) == |m| && m[..Taken(m)] == m;
    }
  }

  /** Whatever a reader returns is a message that could be sent again as it is. */
  lemma {:induction false} SplitShape(t: string, from: nat)
    requires from <= |t| && forall j :: from <= j ==> !BlankAt(t + "\n", j)
    ensures forall i :: 0 <= i < |SplitFrom(t, from)| ==> '\n' !in SplitFrom(t, from)[i]
    ensures forall i :: 1 <= i < |SplitFrom(t, from)| ==> SplitFrom(t, from)[i] != ""
    ensures SplitFrom(t, from)[0] == "" ==> LineEnd(t, from) == from
    ensures forall i :: 0 <= i < |SplitFrom(t, from)| ==>
              forall c :: c in SplitFrom(t, from)[i] ==> c in t
    decreases |t| - from
  {
    var k := LineEnd(t, from);
    if k < |t| {
      SplitShape(t, k + 1);
      assert !BlankAt(t + "\n", k);
      var r := SplitFrom(t, k + 1);
      assert SplitFrom(t, from) == [t[from..k]] + r;
      assert (t + "\n")[k] == '\n' && (t + "\n")[k + 1] != '\n';
    }
  }

  lemma {:induction false} ParsedIsWellFormed(s: string)
    requires HasFrame(s)
    ensures FrameLines(s) == [] || WellFormed(FrameLines(s))
  {
    FrameShape(s);
    var t := FrameText(s);
    if t != "" {
      SplitShape(t, 0);
      StripClean(s);
      var m := FrameLines(s);
      assert '\r' !in t;
      FlatOfSplit(t, 0);
      assert t[0..] == t;
      assert Flat([""]) == "\n" by { assert [""][1..] == []; }
    }
  }

  // ----- streams of frames -----

  function EncodeAll(ms: seq<seq<string>>): string {
    if ms == [] then "" else Encode(ms[0]) + EncodeAll(ms[1..])
  }

  /** What `n` reads in a row return, and what they leave. */
  ghost predicate Reads(s: string, results: seq<seq<string>>, rest: string)
    decreases |results|
  {
    if results == [] then s == rest
    else HasFrame(s) && FrameLines(s) == results[0] && Reads(AfterFrame(s), results[1..], rest)
  }

  /** Every message of a conversation is recovered by its own read, in order. */
  lemma {:induction false} FrameStream(ms: seq<seq<string>>, rest: string)
    requires forall i :: 0 <= i < |ms| ==> WellFormed(ms[i])
    ensures Reads(EncodeAll(ms) + rest, ms, rest)
    decreases |ms|
  {
    hide Encode, HasFrame, FrameLines, AfterFrame;
    if ms == [] {
      assert EncodeAll(ms) + rest == rest;
    } else {
      assert WellFormed(ms[0]);
      var z := EncodeAll(ms[1..]) + rest;
      FrameOfMessage(ms[0], z);
      Assoc(Encode(ms[0]), EncodeAll(ms[1..]), rest);
      FrameStream(ms[1..], rest);
    }
  }

  /** Part of a frame is no frame: a reader blocks until the last byte has arrived. */
  lemma {:induction false} NoEarlyFrame(m: seq<string>, n: nat)
    requires OneFrame(m) && n < |Encode(m)|
    ensures !HasFrame(Encode(m)[..n])
  {
    var p := Encode(m)[..n];
    if HasFrame(p) {
      var z := Encode(m)[n..];
      assert p + z == Encode(m);
      FrameExtend(p, z);
      MessageIsFrame(m);
    }
  }
}
