/**
 A full id with nothing after its slash: the manager forwards it, and what it then writes is no request. Why the results
 about the wire, the manager and its lock leave that input out.
 */
module EmptyIds {
  import opened Framing
  import opened FramingTheorems
  import opened ControllerModel
  import opened Servers
  import opened Clusters
  import opened LockDiscipline
  import opened LockTheorems

  predicate TakesId(command: string) { command == "run" || command == "kill" }

  /**
   `run` or `kill` with an id reaches the controller as it was written if and only if the id is not empty. Otherwise
   the controller reads the command alone, which is no request it survives, and two bytes are left in the stream.
   */
  lemma {:induction false} EmptyIdIsCut(command: string, id: string, rest: string)
    requires TakesId(command) && Clean(id)
    ensures var bytes := Encode([command, id]) + rest;
            && HasFrame(bytes)
            && (FrameLines(bytes) == [command, id] && AfterFrame(bytes) == rest <==> id != "")
            && (id == "" ==> FrameLines(bytes) == [command] && AfterFrame(bytes) == CRLF + rest)
    ensures WellFormedRequest([command, id]) <==> id != ""
    ensures !WellFormedRequest([command])
  {
    hide EncodeLines;
    var m := [command, id];
    ReadBack(m, rest);
    if id == "" {
      assert Taken(m) == 1 && m[..1] == [command] && m[2..] == [];
      assert Encode([]) == CRLF by { NothingEncoded(); }
    } else {
      assert m[..2] == m;
    }
  }

  lemma {:induction false} NothingEncoded()
    ensures Encode([]) == CRLF
  {
    assert "" + CRLF == CRLF;
  }

  /** For the manager: what it forwards is a request exactly when the client's full id has text after its slash. */
  lemma {:induction false} ForwardedId(cluster: seq<Node>, command: string, fullId: string, rest: string)
    requires TakesId(command) && Clean(fullId)
    ensures var id := Route(cluster, fullId).1; var bytes := Encode([command, id]) + rest;
            && (WellFormedRequest([command, id]) <==> id != "")
            && HasFrame(bytes)
            && (FrameLines(bytes) == [command, id] && AfterFrame(bytes) == rest <==> id != "")
    ensures Route(cluster, fullId).1 == "" <==> fullId == "" || (FindSlash(fullId) == |fullId| - 1)
  {
    EmptyIdIsCut(command, Route(cluster, fullId).1, rest);
  }

  // ----- under the lock -----

  /** Handler 0 waits for an answer that cannot come: its controller has read the command alone. */
  ghost predicate Blocked(w: System, c: nat, command: string) {
    && w.mutex == Held(0, 1) && |w.threads| > 0 && c < |w.links|
    && w.threads[0] == Awaiting(c, [command, ""], "")
    && (forall t :: 1 <= t < |w.threads| ==> !w.threads[t].Inside())
    && var l := w.links[c];
       l.up == CRLF && l.down == "" && l.server.Reading? && HasFrame(l.server.got)
           && FrameLines(l.server.got) == [command]
  }

  /** No act of any handler or controller changes that. */
  lemma {:induction false} StaysBlocked(w: System, c: nat, command: string, a: Act)
    requires TakesId(command) && Blocked(w, c, command) && Enabled(w, a)
    ensures Blocked(Step(w, a), c, command)
  {
    hide HasFrame, FrameLines, Serve, Visits, Encode, Sendable;
    NoFrameInNothing();
    assert !WellFormedRequest([command]);
  }

  /** A prefix of the stream has a frame exactly from the frame's last byte on. */
  lemma {:induction false} FrameAppears(s: string, k: nat)
    requires HasFrame(s) && k <= |s|
    ensures HasFrame(s[..k]) <==> FrameLen(s) <= k
    ensures FrameLen(s) <= k ==> FrameLines(s[..k]) == FrameLines(s)
  {
    hide Strip, RawLen;
    assert s[..k] + s[k..] == s;
    if HasFrame(s[..k]) {
      FrameExtend(s[..k], s[k..]);
    } else if FrameLen(s) <= k {
      FrameShape(s);
      FramePrefix(s);
      var p := s[..FrameLen(s)];
      assert s[..k] == p + s[FrameLen(s)..k];
      FrameExtend(p, s[FrameLen(s)..k]);
      assert false;
    }
  }

  lemma {:induction false} FramePrefix(s: string)
    requires HasFrame(s)
    ensures HasFrame(s[..FrameLen(s)])
  {
    FrameShape(s);
    var t := FrameText(s) + "\n\n";
    assert BlankAt(t, |FrameText(s)|);
  }

  /** Handler 0 has written the request, and nobody has read any of it. */
  ghost predicate Written(w: System, links: seq<Link>, c: nat, m: seq<string>) {
    && c < |links| == |w.links| && w.mutex == Held(0, 1) && w.threads == [Awaiting(c, m, "")]
    && w.links == links[c := links[c].(up := Encode(m), issued := [Issue(0, m)])]
  }

  lemma {:induction false} AskFirst(states: seq<State>, c: nat, m: seq<string>)
      returns (ws: seq<System>, acts: seq<Act>)
    requires c < |states| && Sendable(m) && forall k :: 0 <= k < |states| ==> Servable(states[k])
    ensures IsInterleaving(states, ws, acts) && Written(ws[|acts|], Start(states).links, c, m)
  {
    hide Servable, EncodeLines;
    var u := Encode(m);
    var w0 := Start(states);
    var w1 := Step(w0, Accept);
    assert w1 == System(Free, [Outside], w0.links);
    var w2 := Step(w1, Arrive(0));
    assert w2 == System(Free, [Waiting], w0.links);
    var w3 := Step(w2, Lock(0));
    assert w3 == System(Held(0, 1), [Holding], w0.links);
    var w4 := Step(w3, Ask(0, c, m));
    var asked := w0.links[c].(issued := [Issue(0, m)]);
    assert [] + [Issue(0, m)] == [Issue(0, m)];
    assert w4 == System(Held(0, 1), [Sending(c, m, u)], w0.links[c := asked]);
    var w5 := Step(w4, Write(0, |u|));
    assert u[..|u|] == u && "" + u == u;
    assert w5 == System(Held(0, 1), [Awaiting(c, m, "")], w0.links[c := asked.(up := u)]);
    ws, acts := [w0, w1, w2, w3, w4, w5], [Accept, Arrive(0), Lock(0), Ask(0, c, m), Write(0, |u|)];
    assert Follows(ws, acts, 0) && Follows(ws, acts, 1) && Follows(ws, acts, 2) && Follows(ws, acts, 3)
           && Follows(ws, acts, 4);
  }

  /** The controller has read the first `k` bytes of what handler 0 wrote. */
  ghost predicate ReadSoFar(w: System, c: nat, m: seq<string>, k: nat) {
    && c < |w.links| && w.mutex == Held(0, 1) && w.threads == [Awaiting(c, m, "")] && k <= |Encode(m)|
    && w.links[c].down == "" && w.links[c].server == Reading(Encode(m)[..k]) && w.links[c].up == Encode(m)[k..]
  }

  lemma {:induction false} ReadOne(w: System, c: nat, m: seq<string>, k: nat)
    requires ReadSoFar(w, c, m, k) && k < |Encode(m)| && !HasFrame(Encode(m)[..k])
    ensures Enabled(w, ServerRead(c)) && ReadSoFar(Step(w, ServerRead(c)), c, m, k + 1)
  {
    hide Encode, HasFrame;
    var u := Encode(m);
    assert u[..k + 1] == u[..k] + [u[k..][0]] && u[k + 1..] == u[k..][1..];
  }

  /**
   A run in which a handler forwards an empty id: it ends with the handler blocked and bytes under way on the
   connection, and stays so whatever happens next, with the mutex never released.
   */
  lemma {:induction false} EmptyIdBlocks(states: seq<State>, c: nat, command: string)
      returns (ws: seq<System>, acts: seq<Act>)
    requires TakesId(command) && c < |states| && forall k :: 0 <= k < |states| ==> Servable(states[k])
    ensures IsInterleaving(states, ws, acts) && Blocked(ws[|acts|], c, command)
  {
    hide Servable, Encode, HasFrame, FrameLines, AfterFrame, FrameLen, Step, Enabled, ReadSoFar;
    var m := [command, ""];
    var u := Encode(m);
    ws, acts := AskFirst(states, c, m);
    EmptyIdIsCut(command, "", "");
    assert u + "" == u;
    assert ReadSoFar(ws[|acts|], c, m, 0) by { NothingReadYet(states, ws[|acts|], c, m); }
    var k := 0;
    while k < FrameLen(u)
      invariant k <= FrameLen(u) && IsInterleaving(states, ws, acts) && ReadSoFar(ws[|acts|], c, m, k)
    {
      FrameAppears(u, k);
      ReadOne(ws[|acts|], c, m, k);
      OneMoreAct(states, ws, acts, ServerRead(c));
      ws, acts := ws + [Step(ws[|acts|], ServerRead(c))], acts + [ServerRead(c)];
      k := k + 1;
    }
    FrameAppears(u, k);
    NowBlocked(ws[|acts|], c, command);
  }

  lemma {:induction false} NothingReadYet(states: seq<State>, w: System, c: nat, m: seq<string>)
    requires Written(w, Start(states).links, c, m)
    ensures ReadSoFar(w, c, m, 0)
  {
    hide Encode;
    assert Encode(m)[..0] == "" && Encode(m)[0..] == Encode(m);
  }

  lemma {:induction false} NowBlocked(w: System, c: nat, command: string)
    requires var u := Encode([command, ""]);
             && HasFrame(u) && FrameLines(u) == [command] && AfterFrame(u) == CRLF
             && ReadSoFar(w, c, [command, ""], FrameLen(u))
             && HasFrame(u[..FrameLen(u)]) && FrameLines(u[..FrameLen(u)]) == FrameLines(u)
    ensures Blocked(w, c, command)
  {
    hide Encode, HasFrame, FrameLines, FrameLen;
  }

  /** From then on, in every interleaving, the mutex is held and two bytes are under way. */
  lemma {:induction false} BlockedForEver(
    states: seq<State>, ws: seq<System>, acts: seq<Act>, c: nat, command: string, i: nat, k: nat)
    requires TakesId(command) && IsInterleaving(states, ws, acts) && i <= k <= |acts| && Blocked(ws[i], c, command)
    ensures Blocked(ws[k], c, command)
    decreases k
  {
    hide Blocked, Step, Enabled, Servable;
    if i < k {
      BlockedForEver(states, ws, acts, c, command, i, k - 1);
      assert Follows(ws, acts, k - 1);
      StaysBlocked(ws[k - 1], c, command, acts[k - 1]);
    }
  }
}
