/** Every interleaving of the manager's handlers amounts to `Handle` for one request after the other, in lock order. */
module SerialTheorems {
  import opened Framing
  import opened Records
  import opened ControllerModel
  import opened Servers
  import opened ControllerProxies
  import opened Clusters
  import opened Managers
  import opened LockDiscipline
  import opened LockTheorems
  import opened Sessions
  import opened SessionTheorems
  import opened Serial

  // ----- what a handler may ask -----

  /** A handler's program sends only requests that controllers survive. */
  lemma {:induction false} PlanIsLegal(names: seq<string>, next: nat, l: Local, c: nat, r: seq<string>)
    requires LegalCommand(names, l.command) && l.command != []
             && (l.command[0] == "instantiate" ==> InstantiateArgs(l.command))
    requires Plan(names, next, l) == AskNext(c, r)
    ensures WellFormedRequest(r)
  {
    hide InstanceInfo.Deserialize, InstanceInfo.Serialize, TemplatesRead, TemplatesOf, InstancesOf,
      SerializeTemplates, SerializeInstances, FindSlash, MakeFullId;
    ListingRequests();
    if l.command[0] == "instantiate" {
      AskedIsLegal(l.command);
    } else if |l.command| >= 2 {
      IdPartIsClean(l.command[1]);
    }
  }

  lemma {:induction false} AskedIsLegal(r: seq<string>)
    requires WellFormed(r) && r[0] == "instantiate" && InstantiateArgs(r)
    ensures var x := InstanceInfo.Deserialize(r[1..]).value; WellFormedRequest(["instantiate"] + Asked(x).Serialize())
  {
    hide InstanceInfo.Deserialize, InstanceInfo.Serialize;
    EchoIsLegal(r);
    var x := InstanceInfo.Deserialize(r[1..]).value;
    AskIsLegal(x.templ, x.memory, x.cpus);
  }

  // ----- the acts, one by one -----

  /** The holder of the mutex is the one handler inside. */
  lemma {:induction false} HolderIs(w: System, t: nat)
    requires Inv(w) && t < |w.threads| && w.threads[t].Inside()
    ensures w.mutex == Held(t, 1)
  {
    hide LinkOk;
  }

  lemma {:induction false} AllServable(w: System)
    requires Inv(w)
    ensures forall c :: 0 <= c < |w.links| ==> Servable(w.links[c].state)
  {
    hide Servable, Matched, Chained, Quiet, Upward, Downward;
    forall c | 0 <= c < |w.links| ensures Servable(w.links[c].state) { assert LinkOk(w.links[c], UseOf(w, c)); }
  }

  /** Acts that move bytes, or let a client in: no session and no state changes. */
  predicate Aside(a: Act) { a.Accept? || a.Arrive? || a.Write? || a.Read? || a.ServerRead? || a.ServerWrite? }

  lemma {:induction false} AsideKeepsLinks(w: System, a: Act)
    requires Enabled(w, a) && Aside(a)
    ensures var w' := Step(w, a);
            && w'.mutex == w.mutex && |w'.links| == |w.links|
            && forall c :: 0 <= c < |w.links| ==>
                 && w'.links[c].state == w.links[c].state && w'.links[c].served == w.links[c].served
                 && w'.links[c].calls == w.links[c].calls
  {
    hide HasFrame;
  }

  /** What the holder is at, as far as sessions see it. */
  predicate SameStage(a: Phase, b: Phase) {
    match a
    case Holding => b.Holding?
    case Sending(c, r, _) => (b.Sending? && b.to == c && b.request == r)
        || (b.Awaiting? && b.from == c && b.request == r)
    case Awaiting(c, r, _) => b.Awaiting? && b.from == c && b.request == r
    case _ => false
  }

  lemma {:induction false} AsideKeepsStage(w: System, a: Act, t: nat)
    requires Enabled(w, a) && Aside(a) && t < |w.threads| && w.threads[t].Inside()
    ensures t < |Step(w, a).threads| && SameStage(w.threads[t], Step(w, a).threads[t])
  {
    hide HasFrame;
  }

  lemma {:induction false} StatesStay(names: seq<string>, o: Office, o': Office, t: nat)
    requires t < |o.locals| && t < |o'.locals| && t < |o.system.threads| && t < |o'.system.threads|
    requires OpenOk(names, o, t) && |o.system.links| == |o'.system.links| == |names| && StatesOk(names, o, t)
    requires o'.open == o.open && o'.next == o.next && o'.locals[t] == o.locals[t]
    requires SameStage(o.system.threads[t], o'.system.threads[t])
    requires forall c :: 0 <= c < |names| ==>
               && o'.system.links[c].state == o.system.links[c].state
                  && o'.system.links[c].served == o.system.links[c].served
               && o'.system.links[c].calls == o.system.links[c].calls
    ensures OpenOk(names, o', t) && StatesOk(names, o', t)
  {
    hide Played, After, NextOf, LocalAfter, Plan, LegalCommand, Servable, CanServe, Indexed, ServedBy;
    assert States(o'.system) == States(o.system);
  }

  lemma {:induction false} AsideKeeps(names: seq<string>, states: seq<State>, o: Office, m: Move)
    requires OfficeOk(names, states, o) && MoveEnabled(names, o, m) && Aside(m.act)
    ensures OfficeOk(names, states, MoveStep(names, o, m))
  {
    hide Inv, OpenOk, StatesOk, IsHandled, InSequence, LegalCommand, Enabled, Step;
    var o' := MoveStep(names, o, m);
    var w, w' := o.system, o'.system;
    assert MoveEnabled(names, o, m) ==> Enabled(w, m.act);
    LockTheorems.StepKeepsInv(w, m.act);
    AsideKeepsLinks(w, m.act);
    AsideThreads(w, m.act);
    assert States(w') == States(w);
    if w.mutex.Held? {
      var t := w.mutex.who;
      HolderInside(w);
      AsideKeepsStage(w, m.act, t);
      StatesStay(names, o, o', t);
    }
  }

  lemma {:induction false} HolderInside(w: System)
    requires Inv(w) && w.mutex.Held?
    ensures w.mutex.depth == 1 && w.mutex.who < |w.threads| && w.threads[w.mutex.who].Inside()
  {
    hide LinkOk;
  }

  /** Which handlers are there, and which of them have come to their lock. */
  lemma {:induction false} AsideThreads(w: System, a: Act)
    requires Enabled(w, a) && Aside(a)
    ensures var w' := Step(w, a);
            && |w'.threads| == (if a.Accept? then |w.threads| + 1 else |w.threads|)
            && (a.Accept? ==> w'.threads[|w.threads|] == Outside)
            && (forall t :: 0 <= t < |w.threads| && !(a.Arrive? && a.t == t) ==>
                  (w'.threads[t].Outside? <==> w.threads[t].Outside?)
                      && (w'.threads[t].Waiting? <==> w.threads[t].Waiting?))
            && (a.Arrive? ==> a.t < |w.threads| && w.threads[a.t].Outside? && w'.threads[a.t].Waiting?)
  {
    hide HasFrame;
  }

  /** A controller serves the request that the holder waits for. */
  lemma {:induction false} AnswerIsPending(w: System, a: Act, t: nat, now: seq<State>)
    requires Inv(w) && Enabled(w, a) && a.ServerAnswer? && |now| == |w.links| && t < |w.threads|
             && w.threads[t].Inside()
    requires w.threads[t].Sending? ==> Pending(w, now, w.threads[t].to, w.threads[t].request)
    requires w.threads[t].Awaiting? ==> Pending(w, now, w.threads[t].from, w.threads[t].request)
    ensures w.threads[t].Awaiting? && w.threads[t].from == a.c
    ensures var w' := Step(w, a); var p := w.threads[t];
            && w'.threads == w.threads && w'.mutex == w.mutex && |w'.links| == |w.links|
            && Pending(w', now, p.from, p.request)
  {
    hide HasFrame, FrameLines, CanServe, Serve, WellFormed, Matched, Chained, Downward;
    HolderIs(w, t);
    var l := w.links[a.c];
    assert LinkOk(l, UseOf(w, a.c));
    FrameAtServer(l, UseOf(w, a.c));
  }

  lemma {:induction false} AnswerKeeps(names: seq<string>, states: seq<State>, o: Office, m: Move)
    requires OfficeOk(names, states, o) && MoveEnabled(names, o, m) && m.act.ServerAnswer?
    ensures OfficeOk(names, states, MoveStep(names, o, m))
  {
    hide Inv, OpenOk, IsHandled, InSequence, LegalCommand, Enabled, Step, Pending, AskedBy;
    var o' := MoveStep(names, o, m);
    var w, w' := o.system, o'.system;
    assert Enabled(w, m.act);
    LockTheorems.StepKeepsInv(w, m.act);
    var t := AnswerHasHolder(w, m.act);
    var now := OpenStates(names, o, t);
    AnswerIsPending(w, m.act, t, now);
    OpenStays(names, o, o', t);
  }

  /** Whoever is answered holds the mutex. */
  lemma {:induction false} AnswerHasHolder(w: System, a: Act) returns (t: nat)
    requires Inv(w) && Enabled(w, a) && a.ServerAnswer?
    ensures t < |w.threads| && w.threads[t].Inside() && w.mutex == Held(t, 1)
  {
    hide HasFrame, FrameLines, CanServe, WellFormed, Matched, Chained, Downward, Upward;
    var l := w.links[a.c];
    assert LinkOk(l, UseOf(w, a.c));
    FrameAtServer(l, UseOf(w, a.c));
    t := w.mutex.who;
  }

  lemma {:induction false} OpenStates(names: seq<string>, o: Office, t: nat) returns (now: seq<State>)
    requires t < |o.locals| && OpenOk(names, o, t)
    ensures Indexed(|o.open.before|, o.open.trail) && now == After(o.open.before, o.open.trail) && |now| == |names|
  {
    hide Played, LegalCommand, Servable, CanServe;
    now := After(o.open.before, o.open.trail);
  }

  lemma {:induction false} OpenStays(names: seq<string>, o: Office, o': Office, t: nat)
    requires t < |o.locals| && t < |o'.locals| && OpenOk(names, o, t)
    requires o'.open == o.open && o'.next == o.next && o'.locals[t] == o.locals[t]
    ensures OpenOk(names, o', t)
    ensures forall c, r :: AskedBy(names, o, t, c, r) ==> AskedBy(names, o', t, c, r)
  {
    hide Played, LegalCommand, Servable, CanServe, Plan, NextOf, LocalAfter;
  }

  lemma {:induction false} LockKeeps(names: seq<string>, states: seq<State>, o: Office, m: Move)
    requires OfficeOk(names, states, o) && MoveEnabled(names, o, m) && m.act.Lock?
    ensures OfficeOk(names, states, MoveStep(names, o, m))
  {
    hide Inv, IsHandled, InSequence, LegalCommand, Servable;
    var o' := MoveStep(names, o, m);
    var w, t := o.system, m.act.t;
    LockTheorems.StepKeepsInv(w, m.act);
    WaiterIsOutside(w, t);
    AllServable(w);
    assert States(o'.system) == States(w);
    NothingPlayed(names, o'.open.before, o'.open.next, o'.locals[t].command);
  }

  lemma {:induction false} WaiterIsOutside(w: System, t: nat)
    requires Inv(w) && t < |w.threads| && w.threads[t].Waiting?
    ensures w.mutex.Held? ==> w.mutex.who != t
  {
    hide LinkOk;
  }

  lemma {:induction false} NothingPlayed(names: seq<string>, before: seq<State>, next: nat, command: seq<string>)
    requires |before| == |names| && LegalCommand(names, command)
    ensures Indexed(|names|, []) && Played(names, before, next, command, [])
    ensures After(before, []) == before && NextOf(next, command, []) == next
            && LocalAfter(command, []) == Local(command, [], false)
  {
    hide LegalCommand;
  }

  /** The holder has asked, and nobody has served the request yet. */
  lemma {:induction false} AskedStates(names: seq<string>, o: Office, o': Office, t: nat, c: nat, r: seq<string>)
    requires t < |o.locals| && t < |o.system.threads| && OpenOk(names, o, t) && |o.system.links| == |names|
    requires StatesOk(names, o, t) && o.system.threads[t].Holding? && HasPlan(o, t) && c < |names|
    requires Plan(names, o.next, o.locals[t]) == AskNext(c, r)
    requires |o'.system.threads| == |o.system.threads| && o'.system.threads[t] == Sending(c, r, Encode(r))
    requires o'.open == o.open && o'.locals == o.locals && o'.next == NextAfter(o.next, o.locals[t].command, c, r)
    requires States(o'.system) == States(o.system) && |o'.system.links| == |names|
    requires |o'.system.links[c].served| == |o'.system.links[c].calls|
    ensures OpenOk(names, o', t) && StatesOk(names, o', t)
  {
    hide LegalCommand, Servable, Plan, Played, After, NextOf, LocalAfter, CanServe, Encode;
    assert forall d :: 0 <= d < |names| ==> o'.system.links[d].state == States(o'.system)[d];
  }

  lemma {:induction false} AskKeeps(names: seq<string>, states: seq<State>, o: Office, m: Move)
    requires OfficeOk(names, states, o) && MoveEnabled(names, o, m) && m.act.Ask?
    ensures OfficeOk(names, states, MoveStep(names, o, m))
  {
    hide Inv, IsHandled, InSequence, LegalCommand, Plan, OpenOk, StatesOk, Encode, WellFormedRequest;
    var o' := MoveStep(names, o, m);
    var w, t, c, r := o.system, m.act.t, m.act.c, m.act.request;
    HolderIs(w, t);
    PlanIsLegal(names, o.next, o.locals[t], c, r);
    RequestIsWellFormed(r);
    LockTheorems.StepKeepsInv(w, m.act);
    HoldingIsQuiet(w, t, c);
    assert States(o'.system) == States(w);
    AskedStates(names, o, o', t, c, r);
  }

  lemma {:induction false} RequestIsWellFormed(r: seq<string>)
    requires WellFormedRequest(r)
    ensures WellFormed(r)
  {
  }

  lemma {:induction false} HoldingIsQuiet(w: System, t: nat, c: nat)
    requires Inv(w) && t < |w.threads| && w.threads[t].Holding? && c < |w.links|
    ensures Quiet(w.links[c])
  {
    hide Servable, Matched, Chained;
    HolderIs(w, t);
    assert LinkOk(w.links[c], UseOf(w, c));
  }

  /** A reply that is complete is the service's answer. */
  lemma {:induction false} FinishedReply(w: System, t: nat) returns (v: Service)
    requires Inv(w) && t < |w.threads| && w.threads[t].Awaiting? && HasFrame(w.threads[t].got)
    ensures var p := w.threads[t];
            && p.from < |w.links|
            && var l := w.links[p.from];
               && |l.served| == |l.calls| + 1 && v == l.served[|l.calls|] && CanServe(v)
               && FrameLines(p.got) == Decoded(ServedBy(v).lines)
  {
    hide Servable, Chained, CanServe, ServedBy, Encode, OneFrame, HasFrame, FrameLines, Decoded, Upward, Matched;
    AwaitingUse(w, t);
    NoFrameInNothing();
    var p := w.threads[t];
    var l := w.links[p.from];
    assert Downward(l, t, p.request, p.got);
    LastServed(l);
    v := l.served[|l.calls|];
    FrameIsWhole(p.got, l.down + (if l.server.Replying? then l.server.left else ""), ServedBy(v).lines);
  }

  /** One more exchange of the program. */
  lemma {:induction false} OneMorePlayed(
    names: seq<string>, before: seq<State>, next: nat, command: seq<string>, trail: seq<Exchange>, x: Exchange)
    requires |before| == |names| && LegalCommand(names, command) && command != []
    requires command[0] == "instantiate" ==> InstantiateArgs(command)
    requires Played(names, before, next, command, trail) && Indexed(|names|, trail)
    requires x.c < |names| && CanServe(x.service) && x.service.before == After(before, trail)[x.c]
    requires Plan(names, NextOf(next, command, trail), LocalAfter(command, trail)) == AskNext(x.c, x.service.request)
    ensures var all := trail + [x];
            && Indexed(|names|, all) && Played(names, before, next, command, all)
            && After(before, all) == After(before, trail)[x.c := ServedBy(x.service).state]
            && LocalAfter(command, all) ==
               Local(command, LocalAfter(command, trail).replies + [Decoded(ServedBy(x.service).lines)],
                     x.service.request[0] == "instantiate")
            && NextOf(next, command, all) == NextAfter(NextOf(next, command, trail), command, x.c, x.service.request)
  {
    hide LegalCommand, Plan, CanServe, ServedBy;
    var all := trail + [x];
    assert all[..|all| - 1] == trail;
  }

  /** The holder has read its reply: one more exchange. */
  lemma {:induction false} FinishedStates(names: seq<string>, o: Office, o': Office, t: nat, v: Service)
    requires t < |o.locals| && t < |o.system.threads| && OpenOk(names, o, t) && |o.system.links| == |names|
    requires StatesOk(names, o, t) && o.system.threads[t].Awaiting? && o.system.threads[t].from < |names|
    requires var p := o.system.threads[t];
             && |o.system.links[p.from].served| == |o.system.links[p.from].calls| + 1
             && v == o.system.links[p.from].served[|o.system.links[p.from].calls|] && CanServe(v)
             && FrameLines.requires(p.got) && FrameLines(p.got) == Decoded(ServedBy(v).lines)
             && o'.locals == o.locals[t := Local(o.locals[t].command, o.locals[t].replies + [FrameLines(p.got)],
                                                 p.request != [] && p.request[0] == "instantiate")]
             && o'.open == o.open.(trail := o.open.trail + [Exchange(p.from, v)])
    requires |o'.system.threads| == |o.system.threads| && o'.system.threads[t] == Holding && o'.next == o.next
    requires States(o'.system) == States(o.system) && |o'.system.links| == |names|
    ensures OpenOk(names, o', t) && StatesOk(names, o', t)
  {
    hide LegalCommand, Servable, Plan, Played, After, NextOf, LocalAfter, CanServe, ServedBy, HasFrame, FrameLines,
      Decoded;
    var p, command := o.system.threads[t], o.locals[t].command;
    LegalHasName(names, command);
    OneMorePlayed(names, o.open.before, o.open.next, command, o.open.trail, Exchange(p.from, v));
    RequestHasName(v);
    assert forall d :: 0 <= d < |names| ==> o.system.links[d].state == States(o'.system)[d];
    assert States(o'.system) == After(o.open.before, o.open.trail)[p.from := ServedBy(v).state];
  }

  lemma {:induction false} FinishKeeps(names: seq<string>, states: seq<State>, o: Office, m: Move)
    requires OfficeOk(names, states, o) && MoveEnabled(names, o, m) && m.act.Finish?
    ensures OfficeOk(names, states, MoveStep(names, o, m))
  {
    hide Inv, IsHandled, InSequence, LegalCommand, OpenOk, StatesOk, CanServe, ServedBy, HasFrame, FrameLines,
      Decoded;
    var o' := MoveStep(names, o, m);
    var w, t := o.system, m.act.t;
    HolderIs(w, t);
    LockTheorems.StepKeepsInv(w, m.act);
    var v := FinishedReply(w, t);
    assert States(o'.system) == States(w);
    FinishedStates(names, o, o', t, v);
  }

  lemma {:induction false} RequestHasName(v: Service)
    requires CanServe(v)
    ensures v.request != []
  {
  }

  /** The session that ends did what `Handle` does, from where the last one had ended. */
  lemma {:induction false} SessionEnds(names: seq<string>, o: Office, t: nat, s: Session)
    requires Inv(o.system) && t < |o.locals| == |o.system.threads| && o.system.threads[t].Holding? && HasPlan(o, t)
    requires |o.system.links| == |names| && OpenOk(names, o, t) && StatesOk(names, o, t)
    requires Plan(names, o.next, o.locals[t]) == Finished(s.lines)
    requires s.command == o.locals[t].command && s.before == o.open.before && s.next == o.open.next
             && s.trail == o.open.trail
    requires s.after == States(o.system) && s.nextAfter == o.next
    ensures IsHandled(names, s) && (names != [] ==> s.nextAfter < |names|)
  {
    hide Inv, IsHandled, LegalCommand, Servable, Plan, Played, After, NextOf, LocalAfter, CanServe;
    NextInRange(names, s.before, s.next, s.command, s.trail);
    AllServable(o.system);
    HandledSession(names, s);
  }

  lemma {:induction false} UnlockKeeps(names: seq<string>, states: seq<State>, o: Office, m: Move)
    requires OfficeOk(names, states, o) && MoveEnabled(names, o, m) && m.act.Unlock?
    ensures OfficeOk(names, states, MoveStep(names, o, m))
  {
    hide Inv, IsHandled, InSequence, LegalCommand, Plan, OpenOk, StatesOk;
    var o' := MoveStep(names, o, m);
    var w, t := o.system, m.act.t;
    HolderIs(w, t);
    LockTheorems.StepKeepsInv(w, m.act);
    var session := o'.closed[|o.closed|];
    assert o'.closed == o.closed + [session];
    SessionEnds(names, o, t, session);
    OneMoreSession(states, o.closed, session);
    assert States(o'.system) == States(w);
  }

  lemma {:induction false} HandledSession(names: seq<string>, s: Session)
    requires |s.before| == |s.after| == |names| && LegalCommand(names, s.command) && (names != [] ==> s.next < |names|)
    requires forall c :: 0 <= c < |names| ==> Servable(s.before[c])
    requires Played(names, s.before, s.next, s.command, s.trail) && Indexed(|names|, s.trail)
    requires s.after == After(s.before, s.trail) && s.nextAfter == NextOf(s.next, s.command, s.trail)
    requires forall c :: 0 <= c < |names| ==> Servable(s.after[c])
    requires s.command != [] && (s.command[0] == "instantiate" ==> InstantiateArgs(s.command))
    requires Plan(names, s.nextAfter, LocalAfter(s.command, s.trail)) == Finished(s.lines)
    ensures IsHandled(names, s)
  {
    hide LegalCommand, Servable, Played, After, NextOf, LocalAfter, CanServe, Plan, Handle, Visiting, VisitOf;
    SessionIsHandle(names, s.before, s.next, s.command, s.trail);
  }

  lemma {:induction false} NextInRange(
    names: seq<string>, before: seq<State>, next: nat, command: seq<string>, trail: seq<Exchange>)
    requires |before| == |names| && LegalCommand(names, command) && Indexed(|names|, trail)
    requires names != [] ==> next < |names|
    ensures names != [] ==> NextOf(next, command, trail) < |names|
    decreases |trail|
  {
    hide LegalCommand, CanServe;
    if trail != [] { NextInRange(names, before, next, command, trail[..|trail| - 1]); }
  }

  lemma {:induction false} OneMoreSession(states: seq<State>, closed: seq<Session>, s: Session)
    requires InSequence(states, closed) && s.before == LastStates(states, closed) && s.next == LastNext(closed)
    ensures InSequence(states, closed + [s])
  {
  }

  // ----- whole runs -----

  lemma {:induction false} MoveKeeps(names: seq<string>, states: seq<State>, o: Office, m: Move)
    requires OfficeOk(names, states, o) && MoveEnabled(names, o, m)
    ensures OfficeOk(names, states, MoveStep(names, o, m))
  {
    hide OfficeOk, MoveEnabled, MoveStep;
    match m.act
    case Lock(_) => LockKeeps(names, states, o, m);
    case Unlock(_) => UnlockKeeps(names, states, o, m);
    case Ask(_, _, _) => AskKeeps(names, states, o, m);
    case Finish(_) => FinishKeeps(names, states, o, m);
    case ServerAnswer(_, _, _, _, _) => AnswerKeeps(names, states, o, m);
    case _ => AsideKeeps(names, states, o, m);
  }

  lemma {:induction false} RunKeepsOffice(names: seq<string>, states: seq<State>, os: seq<Office>, ms: seq<Move>,
      k: nat)
    requires IsRun(names, states, os, ms) && k <= |ms|
    ensures OfficeOk(names, states, os[k])
  {
    hide OfficeOk, MoveEnabled, MoveStep, Servable;
    if k == 0 {
      BeginIsOk(names, states);
    } else {
      RunKeepsOffice(names, states, os, ms, k - 1);
      assert Moves(names, os, ms, k - 1);
      MoveKeeps(names, states, os[k - 1], ms[k - 1]);
    }
  }

  lemma {:induction false} BeginIsOk(names: seq<string>, states: seq<State>)
    requires |states| == |names| && forall c :: 0 <= c < |states| ==> Servable(states[c])
    ensures OfficeOk(names, states, Begin(states))
  {
    hide Servable, LegalCommand, Inv;
    StartIsQuiet(states);
    assert States(Start(states)) == states;
  }

  /**
   Serialisability: in every interleaving of any number of handlers, the sessions under the lock, in the order in which
   they held it, are what `Handle` does for one request after the other, each beginning where the one before ended;
   and whenever the mutex is free the controllers and `nextController` are as the last of them left them.
   */
  lemma {:induction false} Serialisable(names: seq<string>, states: seq<State>, os: seq<Office>, ms: seq<Move>)
    requires IsRun(names, states, os, ms)
    ensures var o := os[|ms|];
            && InSequence(states, o.closed)
            && (forall i :: 0 <= i < |o.closed| ==> IsHandled(names, o.closed[i]))
            && (o.system.mutex.Free? ==>
                  States(o.system) == LastStates(states, o.closed) && o.next == LastNext(o.closed))
  {
    hide MoveEnabled, MoveStep, Servable, IsHandled, InSequence, Inv, OpenOk, StatesOk, LegalCommand;
    RunKeepsOffice(names, states, os, ms, |ms|);
  }

  function Systems(os: seq<Office>): (ws: seq<System>)
    ensures |ws| == |os| && forall i :: 0 <= i < |os| ==> ws[i] == os[i].system
  {
    seq(|os|, i requires 0 <= i < |os| => os[i].system)
  }

  function Acts(ms: seq<Move>): (acts: seq<Act>)
    ensures |acts| == |ms| && forall i :: 0 <= i < |ms| ==> acts[i] == ms[i].act
  {
    seq(|ms|, i requires 0 <= i < |ms| => ms[i].act)
  }

  /**
   So everything that holds of interleavings with legal requests holds of the manager's handlers: theirs are legal.
   */
  lemma {:induction false} HandlersAskLegally(names: seq<string>, states: seq<State>, os: seq<Office>, ms: seq<Move>)
    requires IsRun(names, states, os, ms)
    ensures IsInterleaving(states, Systems(os), Acts(ms)) && LegalAsks(Acts(ms))
  {
    hide Servable, Inv, OpenOk, StatesOk, IsHandled, InSequence, LegalCommand, Enabled, Step, Plan;
    var ws, acts := Systems(os), Acts(ms);
    forall i: nat | i < |acts| ensures LockDiscipline.Follows(ws, acts, i) {
      assert Moves(names, os, ms, i);
    }
    forall i | 0 <= i < |acts| && acts[i].Ask? ensures WellFormed(acts[i].request) {
      assert Moves(names, os, ms, i);
      RunKeepsOffice(names, states, os, ms, i);
      AskIsWellFormed(names, states, os[i], ms[i]);
    }
  }

  lemma {:induction false} AskIsWellFormed(names: seq<string>, states: seq<State>, o: Office, m: Move)
    requires OfficeOk(names, states, o) && MoveEnabled(names, o, m) && m.act.Ask?
    ensures WellFormed(m.act.request)
  {
    hide Servable, Inv, OpenOk, StatesOk, IsHandled, InSequence, LegalCommand, Step, Plan, Encode;
    PlanIsLegal(names, o.next, o.locals[m.act.t], m.act.c, m.act.request);
  }
}
