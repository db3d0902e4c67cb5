/**
 Progress: a handler that waits for a reply gets it, if only it and the controller go on taking their steps. Nothing
 that anybody else does sets them back.
 */
module Progress {
  import opened Wrappers
  import opened Framing
  import opened FramingTheorems
  import opened ControllerModel
  import opened Sockets
  import opened Servers
  import opened LockDiscipline
  import opened LockTheorems

  /** The controller can answer this request now, in whatever order it visits its maps. */
  ghost predicate Answerable(s: State, request: seq<string>, env: Env) {
    && WellFormedRequest(request)
    && forall names, ids :: Visits(s, request, names, ids) ==> CanServe(Service(s, request, env, names, ids))
  }

  /** As long as the request has not been served. */
  ghost predicate Willing(l: Link, request: seq<string>, env: Env) {
    |l.served| == |l.calls| ==> Answerable(l.state, request, env)
  }

  /** The acts that bring the reply to the handler `t`: its own, and those of the controller it waits for. */
  predicate Helps(a: Act, t: nat, c: nat) {
    match a
    case Read(u) => u == t
    case Finish(u) => u == t
    case ServerRead(d) => d == c
    case ServerAnswer(d, _, _, _, _) => d == c
    case ServerWrite(d, _) => d == c
    case _ => false
  }

  lemma {:induction false} Unstuck(w: System, t: nat, env: Env) returns (a: Act)
    requires Inv(w) && t < |w.threads| && w.threads[t].Awaiting?
    ensures var p := w.threads[t];
            && p.from < |w.links|
            && (Willing(w.links[p.from], p.request, env) ==> Enabled(w, a) && Helps(a, t, p.from))
  {
    hide Inv, LinkOk, HasFrame, FrameLines, WellFormedRequest, WellFormed, CanServe, Visits, Answerable;
    AwaitingUse(w, t);
    var p := w.threads[t];
    var l, c := w.links[p.from], p.from;
    WholeIsFrame(l, t, p.request, p.got);
    if HasFrame(p.got) {
      a := Finish(t);
    } else if l.down != "" {
      a := Read(t);
    } else if l.server.Replying? {
      a := ServerWrite(c, 1);
      RepliesAreNotEmpty(l, t, p.request, p.got);
    } else if HasFrame(l.server.got) {
      FrameAtServer(l, Expecting(t, p.request, p.got));
      var names, ids := Order(l.state.templates.Keys), Order(l.state.table.Keys);
      a := ServerAnswer(c, env, names, ids, 0);
      if Willing(l, p.request, env) { OrdersServe(l.state, p.request, env, names, ids); }
    } else {
      a := ServerRead(c);
    }
  }

  lemma {:induction false} OrdersServe(s: State, r: seq<string>, env: Env, names: seq<string>, ids: seq<int>)
    requires Answerable(s, r, env) && Enumerates(names, s.templates.Keys) && Enumerates(ids, s.table.Keys)
    ensures CanServe(Service(s, r, env, names, ids))
  {
    hide CanServe, WellFormedRequest, Enumerates;
    AnyOrderVisits(s, r, names, ids);
  }

  lemma {:induction false} AnyOrderVisits(s: State, r: seq<string>, names: seq<string>, ids: seq<int>)
    requires WellFormedRequest(r) && Enumerates(names, s.templates.Keys) && Enumerates(ids, s.table.Keys)
    ensures Visits(s, r, names, ids)
  {
  }

  lemma {:induction false} RepliesAreNotEmpty(l: Link, t: nat, r: seq<string>, got: string)
    requires LinkOk(l, Expecting(t, r, got)) && l.server.Replying?
    ensures l.server.left != ""
  {
    hide Servable, CanServe, Encode, OneFrame, WellFormed, Matched, Chained;
  }

  lemma {:induction false} WholeIsFrame(l: Link, t: nat, r: seq<string>, got: string)
    requires LinkOk(l, Expecting(t, r, got))
    ensures HasFrame(got) || l.down != "" || l.server.Replying? || l.up != "" || HasFrame(l.server.got)
  {
    hide Servable, CanServe, Encode, HasFrame, Visits;
    if l.down != "" || l.server.Replying? || l.up != "" {
    } else if Upward(l, t, r, "") {
      assert l.server.got + ("" + "") == l.server.got;
      MessageIsFrame(r);
    } else {
      assert got + ("" + "") == got;
      MessageIsFrame(ServedBy(l.served[|l.calls|]).lines);
    }
  }

  // ----- how far it is to the reply -----

  /** Whether the request still has to be served, and how many moves of bytes there are before the next stage. */
  function StagesLeft(l: Link): nat { if |l.served| == |l.calls| then 1 else 0 }

  function BytesLeft(l: Link): nat {
    if |l.served| == |l.calls| then |l.up|
    else |l.down| + if l.server.Replying? then 2 * |l.server.left| else 0
  }

  predicate Nearer(l': Link, l: Link) {
    StagesLeft(l') < StagesLeft(l) || (StagesLeft(l') == StagesLeft(l) && BytesLeft(l') < BytesLeft(l))
  }

  /** A step that helps ends the wait or brings the reply nearer. */
  lemma {:induction false} HelpBringsNearer(w: System, a: Act, t: nat)
    requires Inv(w) && Enabled(w, a) && t < |w.threads| && w.threads[t].Awaiting? && w.threads[t].from < |w.links|
    requires Helps(a, t, w.threads[t].from)
    ensures var w', p := Step(w, a), w.threads[t];
            && |w'.links| == |w.links| && t < |w'.threads|
            && if a.Finish? then
                 && w'.threads[t] == Holding
                 && w'.links[p.from].calls == w.links[p.from].calls + [Call(t, p.request, FrameLines(p.got))]
               else
                 && w'.threads[t].Awaiting? && w'.threads[t].from == p.from && w'.threads[t].request == p.request
                 && w'.links[p.from].calls == w.links[p.from].calls && Nearer(w'.links[p.from], w.links[p.from])
  {
    hide Servable, CanServe, HasFrame, FrameLines, Encode, OneFrame, WellFormed, Matched, Chained, ReplyBytes, ServedBy;
    AwaitingUse(w, t);
    NoFrameInNothing();
  }

  /** No other step touches the handler or the connection. */
  lemma {:induction false} OthersLeaveIt(w: System, a: Act, t: nat)
    requires Inv(w) && Enabled(w, a) && t < |w.threads| && w.threads[t].Awaiting? && w.threads[t].from < |w.links|
    requires !Helps(a, t, w.threads[t].from)
    ensures var w' := Step(w, a);
            && |w'.links| == |w.links| && t < |w'.threads|
            && w'.threads[t] == w.threads[t] && w'.links[w.threads[t].from] == w.links[w.threads[t].from]
  {
    hide LinkOk, HasFrame, FrameLines, Encode, CanServe, ReplyBytes, ServedBy, Sendable;
    assert w.threads[t].Inside();
  }

  // ----- whole runs -----

  /** A handler that waits for a reply is never stuck: it, or the controller it waits for, can take a step. */
  lemma {:induction false} NeverStuck(states: seq<State>, ws: seq<System>, acts: seq<Act>, t: nat, env: Env)
    returns (a: Act)
    requires IsInterleaving(states, ws, acts) && LegalAsks(acts)
    requires t < |ws[|acts|].threads| && ws[|acts|].threads[t].Awaiting?
    ensures var w := ws[|acts|]; var p := w.threads[t];
            && p.from < |w.links|
            && (Willing(w.links[p.from], p.request, env) ==> Enabled(w, a) && Helps(a, t, p.from))
  {
    hide Step, Enabled, Inv, Willing, Helps;
    RunKeepsInv(states, ws, acts, |acts|);
    a := Unstuck(ws[|acts|], t, env);
  }

  /**
   And the wait is bounded: whatever step comes next, it ends the wait, brings the reply nearer, or touches neither the
   handler nor its connection.
   */
  lemma {:induction false} WaitIsBounded(states: seq<State>, ws: seq<System>, acts: seq<Act>, t: nat, a: Act)
    requires IsInterleaving(states, ws, acts) && LegalAsks(acts) && Enabled(ws[|acts|], a)
    requires t < |ws[|acts|].threads| && ws[|acts|].threads[t].Awaiting?
    ensures var w, w' := ws[|acts|], Step(ws[|acts|], a); var p := w.threads[t];
            && p.from < |w.links| == |w'.links| && t < |w'.threads|
            && var l, l' := w.links[p.from], w'.links[p.from];
               || (w'.threads[t] == Holding && l'.calls == l.calls + [Call(t, p.request, FrameLines(p.got))])
               || (w'.threads[t].Awaiting? && w'.threads[t].from == p.from && Nearer(l', l))
               || (w'.threads[t] == p && l' == l)
  {
    hide Step, Enabled, Inv, Helps, Nearer, HasFrame, FrameLines;
    RunKeepsInv(states, ws, acts, |acts|);
    var w := ws[|acts|];
    AwaitingUse(w, t);
    if Helps(a, t, w.threads[t].from) { HelpBringsNearer(w, a, t); } else { OthersLeaveIt(w, a, t); }
  }

  /** Steps of the handler and of its controller, and of nobody else, after which the handler has read its reply. */
  ghost predicate Arrives(
    states: seq<State>, ws: seq<System>, acts: seq<Act>, ws': seq<System>, acts': seq<Act>, t: nat, c: nat)
    requires |acts| < |ws| && c < |ws[|acts|].links|
  {
    && IsInterleaving(states, ws', acts') && |acts| <= |acts'| && |ws| <= |ws'|
    && acts == acts'[..|acts|] && ws == ws'[..|ws|]
    && (forall i :: |acts| <= i < |acts'| ==> Helps(acts'[i], t, c))
    && t < |ws'[|acts'|].threads| && ws'[|acts'|].threads[t] == Holding && c < |ws'[|acts'|].links|
    && var calls, calls' := ws[|acts|].links[c].calls, ws'[|acts'|].links[c].calls;
       |calls'| == |calls| + 1 && calls'[..|calls|] == calls && calls'[|calls|].who == t
  }

  lemma {:induction false} WillingStays(w: System, a: Act, t: nat, env: Env)
    requires Inv(w) && Enabled(w, a) && t < |w.threads| && w.threads[t].Awaiting? && w.threads[t].from < |w.links|
    requires Helps(a, t, w.threads[t].from) && Willing(w.links[w.threads[t].from], w.threads[t].request, env)
    requires |Step(w, a).links| == |w.links|
    ensures Willing(Step(w, a).links[w.threads[t].from], w.threads[t].request, env) || a.Finish?
  {
    hide Servable, CanServe, HasFrame, FrameLines, Encode, OneFrame, WellFormed, Matched, Chained, ReplyBytes, ServedBy,
      Answerable;
    AwaitingUse(w, t);
    NoFrameInNothing();
  }

  /** So the reply can always be brought about, from any point of any run. */
  lemma {:induction false} ReplyArrives(states: seq<State>, ws: seq<System>, acts: seq<Act>, t: nat, env: Env)
    returns (ws': seq<System>, acts': seq<Act>)
    requires IsInterleaving(states, ws, acts) && LegalAsks(acts)
    requires t < |ws[|acts|].threads| && ws[|acts|].threads[t].Awaiting?
    requires var w := ws[|acts|]; var p := w.threads[t];
             p.from < |w.links| && Willing(w.links[p.from], p.request, env)
    ensures Arrives(states, ws, acts, ws', acts', t, ws[|acts|].threads[t].from)
    decreases StagesLeft(ws[|acts|].links[ws[|acts|].threads[t].from]),
              BytesLeft(ws[|acts|].links[ws[|acts|].threads[t].from])
  {
    hide Step, Enabled, Inv, Willing, HasFrame, FrameLines, StagesLeft, BytesLeft, Servable;
    var w := ws[|acts|];
    var c := w.threads[t].from;
    RunKeepsInv(states, ws, acts, |acts|);
    var a := NeverStuck(states, ws, acts, t, env);
    HelpBringsNearer(w, a, t);
    WillingStays(w, a, t, env);
    OneMoreAct(states, ws, acts, a);
    var ws1, acts1 := ws + [Step(w, a)], acts + [a];
    if a.Finish? {
      ws', acts' := ws1, acts1;
    } else {
      ws', acts' := ReplyArrives(states, ws1, acts1, t, env);
    }
  }
}
