/** Whole runs of handlers and controllers: replies match requests under every interleaving. */
module LockTheorems {
  import opened Wrappers
  import opened Framing
  import opened FramingTheorems
  import opened Records
  import opened ControllerModel
  import opened Sockets
  import opened Servers
  import opened ControllerProxies
  import opened LockDiscipline

  // ----- bytes -----

  lemma {:induction false} NoFrameInNothing()
    ensures !HasFrame("")
  {
  }

  /** A reader of a legal message has its frame only when it has read all of it. */
  lemma {:induction false} FrameIsWhole(got: string, rest: string, m: seq<string>)
    requires OneFrame(m) && got + rest == Encode(m) && HasFrame(got)
    ensures rest == "" && got == Encode(m) && FrameLines(got) == Decoded(m)
  {
    hide Encode, HasFrame, FrameLines;
    if rest != "" {
      assert got == Encode(m)[..|got|];
      NoEarlyFrame(m, |got|);
      assert false;
    }
    assert got + "" == got == Encode(m) + "";
    FrameOfMessage(m, "");
  }

  lemma {:induction false} Shift(a: string, b: string, c: string)
    requires b != ""
    ensures (a + [b[0]]) + (b[1..] + c) == a + (b + c)
  {
    assert [b[0]] + b[1..] == b;
  }

  lemma {:induction false} Move(a: string, b: string, c: string, n: nat)
    requires n <= |c|
    ensures a + ((b + c[..n]) + c[n..]) == a + (b + c)
  {
    assert c[..n] + c[n..] == c;
  }

  // ----- one link -----

  /** Moving bytes changes no history. */
  lemma {:induction false} SameHistory(l: Link, l': Link)
    requires Matched(l) && Chained(l) && l'.state == l.state && l'.first == l.first
    requires l'.issued == l.issued && l'.served == l.served && l'.calls == l.calls
    ensures Matched(l') && Chained(l')
  {
    hide Serve, Servable, Visits, WellFormed;
  }

  lemma {:induction false} OneMoreIssued(l: Link, x: Issue)
    requires Matched(l) && Chained(l)
    ensures var l' := l.(issued := l.issued + [x]); Matched(l') && Chained(l')
  {
    hide Serve, Servable, Visits, WellFormed;
    assert forall i :: 0 <= i < |l.issued| ==> (l.issued + [x])[i] == l.issued[i];
  }

  lemma {:induction false} LastServed(l: Link)
    requires Matched(l) && |l.served| > |l.calls|
    ensures CanServe(l.served[|l.calls|]) && l.served[|l.calls|].request == l.issued[|l.calls|].request
  {
    hide Serve, Servable, Visits, WellFormed;
  }

  lemma {:induction false} OneMoreCall(l: Link, reply: seq<string>)
    requires Matched(l) && Chained(l) && |l.served| > |l.calls| && CanServe(l.served[|l.calls|])
    requires reply == Decoded(ServedBy(l.served[|l.calls|]).lines)
    ensures var x := l.issued[|l.calls|];
            var l' := l.(calls := l.calls + [Call(x.who, x.request, reply)]); Matched(l') && Chained(l')
  {
    hide Serve, Servable, Visits, WellFormed;
    var x := l.issued[|l.calls|];
    var calls := l.calls + [Call(x.who, x.request, reply)];
    assert forall i :: 0 <= i < |l.calls| ==> calls[i] == l.calls[i];
  }

  lemma {:induction false} AskLink(l: Link, t: nat, r: seq<string>)
    requires LinkOk(l, Unused) && WellFormed(r)
    ensures LinkOk(l.(issued := l.issued + [Issue(t, r)]), Requesting(t, r, Encode(r)))
  {
    hide Servable, Matched, Chained, EncodeLines, WellFormed, Downward;
    OneMoreIssued(l, Issue(t, r));
    assert "" + ("" + Encode(r)) == Encode(r);
  }

  lemma {:induction false} WriteLink(l: Link, t: nat, r: seq<string>, left: string, n: nat)
    requires LinkOk(l, Requesting(t, r, left)) && 0 < n <= |left|
    ensures LinkOk(l.(up := l.up + left[..n]), if n == |left| then Expecting(t, r, "") else Requesting(t, r, left[n..]))
  {
    hide Servable, Matched, Chained, Encode, WellFormed, Downward;
    SameHistory(l, l.(up := l.up + left[..n]));
    Move(l.server.got, l.up, left, n);
    assert n == |left| ==> left[n..] == "";
  }

  lemma {:induction false} ReadLink(l: Link, t: nat, r: seq<string>, got: string)
    requires LinkOk(l, Expecting(t, r, got)) && l.down != ""
    ensures LinkOk(l.(down := l.down[1..]), Expecting(t, r, got + [l.down[0]]))
  {
    hide Servable, Matched, Chained, ServedBy, Encode, WellFormed, OneFrame;
    SameHistory(l, l.(down := l.down[1..]));
    Shift(got, l.down, if l.server.Replying? then l.server.left else "");
  }

  lemma {:induction false} FinishLink(l: Link, t: nat, r: seq<string>, got: string)
    requires LinkOk(l, Expecting(t, r, got)) && HasFrame(got)
    ensures LinkOk(l.(calls := l.calls + [Call(t, r, FrameLines(got))]), Unused)
  {
    hide Servable, Matched, Chained, CanServe, ServedBy, Encode, OneFrame, HasFrame, FrameLines, Decoded, Upward;
    NoFrameInNothing();
    assert Downward(l, t, r, got);
    LastServed(l);
    FrameIsWhole(got, l.down + (if l.server.Replying? then l.server.left else ""), ServedBy(l.served[|l.calls|]).lines);
    OneMoreCall(l, FrameLines(got));
  }

  lemma {:induction false} ServerReadLink(l: Link, use: Use)
    requires LinkOk(l, use) && l.server.Reading? && l.up != ""
    ensures LinkOk(l.(server := Reading(l.server.got + [l.up[0]]), up := l.up[1..]), use)
  {
    hide Servable, Matched, Chained, ServedBy, Encode, WellFormed, OneFrame;
    SameHistory(l, l.(server := Reading(l.server.got + [l.up[0]]), up := l.up[1..]));
    Shift(l.server.got, l.up, if use.Requesting? then use.left else "");
  }

  lemma {:induction false} ServerWriteLink(l: Link, use: Use, n: nat)
    requires LinkOk(l, use) && l.server.Replying? && 0 < n <= |l.server.left|
    ensures LinkOk(l.(server := if n == |l.server.left| then Reading("") else Replying(l.server.left[n..]),
                      down := l.down + l.server.left[..n]), use)
  {
    hide Servable, Matched, Chained, ServedBy, Encode, WellFormed, OneFrame;
    SameHistory(l, l.(server := if n == |l.server.left| then Reading("") else Replying(l.server.left[n..]),
                      down := l.down + l.server.left[..n]));
    Move(if use.Expecting? then use.got else "", l.down, l.server.left, n);
    assert n == |l.server.left| ==> l.server.left[n..] == "";
  }

  /** When the controller has a frame, it is the whole request of the holder, who is waiting and has read nothing. */
  lemma {:induction false} FrameAtServer(l: Link, use: Use)
    requires LinkOk(l, use) && l.server.Reading? && HasFrame(l.server.got)
    ensures use.Expecting? && use.got == "" && WellFormed(use.request)
    ensures FrameLines(l.server.got) == use.request && l.up == "" && l.down == ""
    ensures |l.issued| == |l.served| + 1 == |l.calls| + 1 && l.issued[|l.served|] == Issue(use.who, use.request)
  {
    hide Servable, CanServe, Encode, HasFrame, FrameLines, Chained, Matched;
    NoFrameInNothing();
    match use
    case Unused =>
    case Requesting(t, r, left) => FrameIsWhole(l.server.got, l.up + left, r);
    case Expecting(t, r, got) => FrameIsWhole(l.server.got, l.up + "", r);
  }

  lemma {:induction false} ServerAnswerLink(l: Link, use: Use, v: Service, writeCount: int)
    requires LinkOk(l, use) && l.server.Reading? && HasFrame(l.server.got)
    requires v.before == l.state && v.request == FrameLines(l.server.got) && CanServe(v)
    ensures LinkOk(l.(server := Replying(ReplyBytes(writeCount, ServedBy(v).lines)),
                      state := ServedBy(v).state, served := l.served + [v]), use)
  {
    hide Servable, Encode, HasFrame, FrameLines, Serve, Visits, WellFormed, OneFrame, ReplyBytes, Upward, Chained;
    FrameAtServer(l, use);
    ServeLines(v.before, v.request, v.env, v.names, v.ids);
    var lines := ServedBy(v).lines;
    LegalHasLines(lines);
    ReplyIsEncode(writeCount, lines);
    var l' := l.(server := Replying(ReplyBytes(writeCount, lines)), state := ServedBy(v).state,
        served := l.served + [v]);
    assert "" + ("" + Encode(lines)) == Encode(lines);
    AppendMatched(l, v, l');
  }

  lemma {:induction false} LegalHasLines(lines: seq<string>)
    requires OneFrame(lines)
    ensures lines != [] && Encode(lines) != ""
  {
  }

  lemma {:induction false} AppendMatched(l: Link, v: Service, l': Link)
    requires Matched(l) && Chained(l) && CanServe(v) && Servable(v.before) && v.before == l.state
    requires |l.issued| > |l.served| && l.issued[|l.served|].request == v.request
    requires l'.issued == l.issued && l'.calls == l.calls && l'.first == l.first
    requires l'.served == l.served + [v] && l'.state == ServedBy(v).state
    ensures Matched(l') && Chained(l')
  {
    hide CanServe, Serve, Servable;
    assert forall i :: 0 <= i < |l.served| ==> l'.served[i] == l.served[i];
  }

  // ----- one step -----

  /** A step that changes one handler and one link, and leaves the mutex alone. */
  lemma {:induction false} OneLink(w: System, w': System, c: nat)
    requires Inv(w) && c < |w.links| && MutexOk(w') && PlacesOk(w')
    requires |w'.links| == |w.links|
    requires forall d :: 0 <= d < |w.links| && d != c ==> w'.links[d] == w.links[d] && UseOf(w', d) == UseOf(w, d)
    requires LinkOk(w'.links[c], UseOf(w', c))
    ensures Inv(w')
  {
    hide LinkOk, UseOf;
  }

  lemma {:induction false} HandlerKeepsInv(w: System, a: Act)
    requires Inv(w) && Enabled(w, a) && (a.Ask? || a.Write? || a.Read? || a.Finish?)
    requires a.Ask? ==> WellFormed(a.request)
    ensures Inv(Step(w, a))
  {
    hide LinkOk, HasFrame, FrameLines, Encode, WellFormed;
    var w' := Step(w, a);
    assert w.threads[a.t].Inside();
    assert w'.mutex == w.mutex && w.mutex.who == a.t;
    match a
    case Ask(t, c, r) =>
      AskLink(w.links[c], t, r);
      OneLink(w, w', c);
    case Write(t, n) =>
      var p := w.threads[t];
      WriteLink(w.links[p.to], t, p.request, p.left, n);
      OneLink(w, w', p.to);
    case Read(t) =>
      var p := w.threads[t];
      ReadLink(w.links[p.from], t, p.request, p.got);
      OneLink(w, w', p.from);
    case Finish(t) =>
      var p := w.threads[t];
      FinishLink(w.links[p.from], t, p.request, p.got);
      OneLink(w, w', p.from);
  }

  lemma {:induction false} ServerKeepsInv(w: System, a: Act)
    requires Inv(w) && Enabled(w, a) && (a.ServerRead? || a.ServerAnswer? || a.ServerWrite?)
    ensures Inv(Step(w, a))
  {
    hide LinkOk, HasFrame, FrameLines, CanServe, ReplyBytes;
    var l, use := w.links[a.c], UseOf(w, a.c);
    match a
    case ServerRead(c) => ServerReadLink(l, use);
    case ServerAnswer(c, env, names, ids, writeCount) =>
      ServerAnswerLink(l, use, Service(l.state, FrameLines(l.server.got), env, names, ids), writeCount);
    case ServerWrite(c, n) => ServerWriteLink(l, use, n);
    OneLink(w, Step(w, a), a.c);
  }

  lemma {:induction false} LockKeepsInv(w: System, a: Act)
    requires Inv(w) && Enabled(w, a) && (a.Accept? || a.Arrive? || a.Lock? || a.Unlock?)
    ensures Inv(Step(w, a))
  {
    hide LinkOk;
    var w' := Step(w, a);
    assert w.mutex.Held? ==> w.threads[w.mutex.who].Inside();
    forall c | 0 <= c < |w.links| ensures UseOf(w', c) == UseOf(w, c) {}
  }

  lemma {:induction false} StepKeepsInv(w: System, a: Act)
    requires Inv(w) && Enabled(w, a) && (a.Ask? ==> WellFormed(a.request))
    ensures Inv(Step(w, a))
  {
    hide Inv, Enabled, Step;
    match a
    case Ask(_, _, _) => HandlerKeepsInv(w, a);
    case Write(_, _) => HandlerKeepsInv(w, a);
    case Read(_) => HandlerKeepsInv(w, a);
    case Finish(_) => HandlerKeepsInv(w, a);
    case ServerRead(_) => ServerKeepsInv(w, a);
    case ServerAnswer(_, _, _, _, _) => ServerKeepsInv(w, a);
    case ServerWrite(_, _) => ServerKeepsInv(w, a);
    case Accept => LockKeepsInv(w, a);
    case Arrive(_) => LockKeepsInv(w, a);
    case Lock(_) => LockKeepsInv(w, a);
    case Unlock(_) => LockKeepsInv(w, a);
  }

  /** What the invariant says of the link that a handler waits for. */
  lemma {:induction false} AwaitingUse(w: System, t: nat)
    requires Inv(w) && t < |w.threads| && w.threads[t].Awaiting?
    ensures var p := w.threads[t]; p.from < |w.links| && LinkOk(w.links[p.from], Expecting(t, p.request, p.got))
  {
    hide LinkOk;
    assert w.threads[t].Inside();
    assert UseOf(w, w.threads[t].from) == Expecting(t, w.threads[t].request, w.threads[t].got);
  }

  // ----- whole runs -----

  lemma {:induction false} RunKeepsInv(states: seq<State>, ws: seq<System>, acts: seq<Act>, k: nat)
    requires IsInterleaving(states, ws, acts) && LegalAsks(acts) && k <= |acts|
    ensures Inv(ws[k])
  {
    hide Inv, Enabled, Step, Servable;
    if k == 0 {
      StartIsQuiet(states);
    } else {
      RunKeepsInv(states, ws, acts, k - 1);
      assert Follows(ws, acts, k - 1);
      StepKeepsInv(ws[k - 1], acts[k - 1]);
    }
  }

  lemma {:induction false} OneMoreAct(states: seq<State>, ws: seq<System>, acts: seq<Act>, a: Act)
    requires IsInterleaving(states, ws, acts) && Enabled(ws[|acts|], a)
    ensures IsInterleaving(states, ws + [Step(ws[|acts|], a)], acts + [a])
  {
    hide Step, Enabled, Servable;
    var ws', acts' := ws + [Step(ws[|acts|], a)], acts + [a];
    forall i: nat | i < |acts'| ensures Follows(ws', acts', i) {
      if i < |acts| { assert Follows(ws, acts, i); }
    }
  }

  lemma {:induction false} StartIsQuiet(states: seq<State>)
    requires forall c :: 0 <= c < |states| ==> Servable(states[c])
    ensures Inv(Start(states))
  {
    hide Servable;
  }

  /** Whatever is asked, an act leaves the mutex with the one handler that is inside. */
  lemma {:induction false} MutexStays(w: System, a: Act)
    requires MutexOk(w) && Enabled(w, a)
    ensures MutexOk(Step(w, a))
  {
    hide HasFrame, FrameLines, Encode, CanServe, ReplyBytes, Sendable;
  }

  lemma {:induction false} RunKeepsMutex(states: seq<State>, ws: seq<System>, acts: seq<Act>, k: nat)
    requires IsInterleaving(states, ws, acts) && k <= |acts|
    ensures MutexOk(ws[k])
  {
    hide MutexOk, Enabled, Step, Servable;
    if k == 0 {
      StartIsFree(states);
    } else {
      RunKeepsMutex(states, ws, acts, k - 1);
      assert Follows(ws, acts, k - 1);
      MutexStays(ws[k - 1], acts[k - 1]);
    }
  }

  lemma {:induction false} StartIsFree(states: seq<State>)
    ensures MutexOk(Start(states))
  {
  }

  /**
   Never two handlers inside their locked branches, and only the owner of the mutex is; also when requests do not read
   back as they were written.
   */
  lemma {:induction false} MutualExclusion(states: seq<State>, ws: seq<System>, acts: seq<Act>, t: nat, u: nat)
    requires IsInterleaving(states, ws, acts)
    ensures var w := ws[|acts|];
            t < |w.threads| && u < |w.threads| && w.threads[t].Inside() && w.threads[u].Inside() ==>
              t == u && w.mutex == Held(t, 1)
  {
    hide Servable, Step, Enabled;
    RunKeepsMutex(states, ws, acts, |acts|);
  }

  /**
   In every interleaving of legal requests: whenever the mutex is free, no byte is under way in either direction, every
   controller waits for a request, and every request that was issued has been answered and the answer has been read.
   */
  lemma {:induction false} QuietWhenFree(states: seq<State>, ws: seq<System>, acts: seq<Act>)
    requires IsInterleaving(states, ws, acts) && LegalAsks(acts)
    ensures var w := ws[|acts|];
            w.mutex.Free? ==> forall c :: 0 <= c < |w.links| ==> Quiet(w.links[c])
  {
    hide Servable, Step, Enabled;
    RunKeepsInv(states, ws, acts, |acts|);
    var w := ws[|acts|];
    if w.mutex.Free? {
      forall c | 0 <= c < |w.links| ensures Quiet(w.links[c]) { assert LinkOk(w.links[c], UseOf(w, c)); }
    }
  }

  /**
   In every interleaving of legal requests: the i-th reply read on a connection is the controller's own answer, in the
   state its earlier requests left it in, to the i-th request, and was read by the handler that wrote that request.
   */
  lemma {:induction false} RepliesMatch(states: seq<State>, ws: seq<System>, acts: seq<Act>, c: nat)
    requires IsInterleaving(states, ws, acts) && LegalAsks(acts)
    requires c < |ws[|acts|].links|
    ensures var l := ws[|acts|].links[c];
            Matched(l) && Chained(l) && l.issued[..|l.calls|] == Issuers(l.calls)
  {
    hide Servable, Step, Enabled, Chained;
    RunKeepsInv(states, ws, acts, |acts|);
    var w := ws[|acts|];
    assert LinkOk(w.links[c], UseOf(w, c));
  }

  /** Who read which request's reply. */
  function Issuers(calls: seq<Call>): (issues: seq<Issue>)
    ensures |issues| == |calls| && forall i :: 0 <= i < |calls| ==> issues[i] == Issue(calls[i].who, calls[i].request)
  {
    seq(|calls|, i requires 0 <= i < |calls| => Issue(calls[i].who, calls[i].request))
  }

  /**
   So in every such interleaving a handler that asked for the instances of a controller gets that controller's table,
   as it was when the controller served the request.
   */
  lemma {:induction false} ConcurrentListing(states: seq<State>, ws: seq<System>, acts: seq<Act>, c: nat, i: nat)
    requires IsInterleaving(states, ws, acts) && LegalAsks(acts)
    requires c < |ws[|acts|].links| && i < |ws[|acts|].links[c].calls|
    requires ws[|acts|].links[c].calls[i].request == ["getInstances"]
    ensures var l := ws[|acts|].links[c]; var reply := l.calls[i].reply;
            && i < |l.served| && |reply| % INSTANCE_SIZE == 0 && ParseInstances(reply).Some?
            && IsListing(Index(ParseInstances(reply).value, IdOf), l.served[i].before.table, l.served[i].env.alive)
  {
    hide Servable, Step, Enabled, Chained, IsListing, Index, ParseInstances, Serve, Decoded;
    RepliesMatch(states, ws, acts, c);
    var v := ws[|acts|].links[c].served[i];
    OnlyIdsMatter(v.before, v.env, v.names, v.ids);
    var infos := ListingWorks(v.before, v.env, v.ids);
  }

  lemma {:induction false} OnlyIdsMatter(s: State, env: Env, names: seq<string>, ids: seq<int>)
    requires WellFormedRequest(["getInstances"]) && Visits(s, ["getInstances"], names, ids)
    ensures Enumerates(ids, s.table.Keys) && Visits(s, ["getInstances"], [], ids)
    ensures Serve(s, ["getInstances"], env, names, ids) == Serve(s, ["getInstances"], env, [], ids)
  {
    hide SerializeInstances, Enumerates;
  }

  /** A complete frame at a controller is the whole request that the waiting handler wrote. */
  lemma {:induction false} ServerReadsTheRequest(states: seq<State>, ws: seq<System>, acts: seq<Act>, c: nat)
    requires IsInterleaving(states, ws, acts) && LegalAsks(acts)
    requires c < |ws[|acts|].links|
    ensures var w := ws[|acts|]; var l := w.links[c];
            l.server.Reading? && HasFrame(l.server.got) ==>
              && w.mutex.Held? && w.mutex.who < |w.threads| && l.up == ""
              && w.threads[w.mutex.who] == Awaiting(c, FrameLines(l.server.got), "")
  {
    hide Servable, Step, Enabled, HasFrame, FrameLines, WellFormed;
    RunKeepsInv(states, ws, acts, |acts|);
    var w := ws[|acts|];
    var l := w.links[c];
    assert LinkOk(l, UseOf(w, c));
    if l.server.Reading? && HasFrame(l.server.got) { FrameAtServer(l, UseOf(w, c)); }
  }
}
