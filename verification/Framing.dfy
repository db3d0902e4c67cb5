/**
 The wire format as a whole-text specification: lines end in "\r\n", a blank line closes a frame.
 A reader drops every '\r', cuts at the first "\n\n" and splits what is before it at '\n'.
 */
module Framing {

  // ----- the reader's side -----

  /** The bytes a reader sees: every '\r' is discarded. */
  function Strip(s: string): string {
    if s == "" then "" else if s[0] == '\r' then Strip(s[1..]) else [s[0]] + Strip(s[1..])
  }

  predicate BlankAt(t: string, i: int) {
    0 <= i && i + 1 < |t| && t[i] == '\n' && t[i + 1] == '\n'
  }

  ghost predicate HasBlank(t: string) { exists i :: BlankAt(t, i) }

  ghost predicate IsFirstBlank(t: string, i: nat) {
    BlankAt(t, i) && forall j :: 0 <= j < i ==> !BlankAt(t, j)
  }

  lemma {:induction false} SomeBlankIsFirst(t: string, k: nat)
    requires BlankAt(t, k)
    ensures exists i: nat :: IsFirstBlank(t, i)
  {
    if j :| 0 <= j < k && BlankAt(t, j) {
      SomeBlankIsFirst(t, j);
    } else {
      assert IsFirstBlank(t, k);
    }
  }

  ghost function FirstBlank(t: string): (i: nat)
    requires HasBlank(t)
    ensures IsFirstBlank(t, i)
  {
    var k :| BlankAt(t, k);
    SomeBlankIsFirst(t, k);
    var i: nat :| IsFirstBlank(t, i);
    i
  }

  /** How many raw bytes must be read to see `n` characters. */
  ghost function RawLen(s: string, n: nat): (k: nat)
    requires n <= |Strip(s)|
    ensures k <= |s|
  {
    if n == 0 then 0
    else if s[0] == '\r' then 1 + RawLen(s[1..], n)
    else 1 + RawLen(s[1..], n - 1)
  }

  /** The stream holds at least one complete frame. */
  ghost predicate HasFrame(s: string) { HasBlank(Strip(s)) }

  ghost function FrameText(s: string): string
    requires HasFrame(s)
  { Strip(s)[..FirstBlank(Strip(s))] }

  /** The bytes of the first frame, through the second newline of its blank line. */
  ghost function FrameLen(s: string): (k: nat)
    requires HasFrame(s)
    ensures k <= |s|
  { RawLen(s, FirstBlank(Strip(s)) + 2) }

  /** The index of the first newline at or after `from`, or the end of the text. */
  function LineEnd(t: string, from: nat): (k: nat)
    requires from <= |t|
    ensures from <= k <= |t| && '\n' !in t[from..k] && (k < |t| ==> t[k] == '\n')
    decreases |t| - from
  {
    if from == |t| || t[from] == '\n' then from else LineEnd(t, from + 1)
  }

  /** The lines of `t[from..]`: the pieces between newlines. */
  function SplitFrom(t: string, from: nat): seq<string>
    requires from <= |t|
    decreases |t| - from
  {
    var k := LineEnd(t, from);
    if k == |t| then [t[from..k]] else [t[from..k]] + SplitFrom(t, k + 1)
  }

  function Lines(t: string): seq<string> { if t == "" then [] else SplitFrom(t, 0) }

  /** What one `read()` returns, given a stream that holds a frame. */
  ghost function FrameLines(s: string): seq<string>
    requires HasFrame(s)
  { Lines(FrameText(s)) }

  /** What one `read()` leaves in the stream. */
  ghost function AfterFrame(s: string): string
    requires HasFrame(s)
  { s[FrameLen(s)..] }

  // ----- the writer's side -----

  const CRLF := "\r\n"

  function EncodeLines(lines: seq<string>): string {
    if lines == [] then "" else lines[0] + CRLF + EncodeLines(lines[1..])
  }

  function Encode(lines: seq<string>): string { EncodeLines(lines) + CRLF }

  predicate Clean(line: string) { '\r' !in line && '\n' !in line }

  /** Lines that cannot close a frame before its end. */
  predicate OneFrame(lines: seq<string>) {
    && lines != []
    && (forall i :: 0 <= i < |lines| ==> Clean(lines[i]))
    && (forall i :: 1 <= i < |lines| ==> lines[i] != "")
  }

  /** Lines that a reader gets back as they were written. */
  predicate WellFormed(lines: seq<string>) { OneFrame(lines) && lines != [""] }

  /** A single empty line is the one legal frame that reads back as no lines at all. */
  function Decoded(lines: seq<string>): seq<string> { if lines == [""] then [] else lines }
}
