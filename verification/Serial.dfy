/**
 The interleaving model with the manager's own handlers in it: every handler runs the branch of its client's request,
 and `nextController` is shared. What the handlers do together is what they would do one after the other.
 */
module Serial {
  import opened Framing
  import opened ControllerModel
  import opened Servers
  import opened Managers
  import opened LockDiscipline
  import opened Sessions

  /** The session of the handler that holds the lock: what it found, and its exchanges so far. */
  datatype Open = Open(before: seq<State>, next: nat, trail: seq<Exchange>)

  /** A session that is over: the client's request, what it found and left, and the lines of the answer. */
  datatype Session = Session(
    who: nat, command: seq<string>, before: seq<State>, next: nat, trail: seq<Exchange>,
    after: seq<State>, nextAfter: nat, lines: seq<string>)

  /** Handlers with their variables over the system of links; `open` and `closed` are history. */
  datatype Office = Office(
    system: System, next: nat, locals: seq<Local>, open: Open, closed: seq<Session>)

  /** An act, with the request of the client for a handler that arrives. */
  datatype Move = Move(act: Act, command: seq<string>)

  function States(w: System): (states: seq<State>)
    ensures |states| == |w.links| && forall c :: 0 <= c < |states| ==> states[c] == w.links[c].state
  {
    seq(|w.links|, c requires 0 <= c < |w.links| => w.links[c].state)
  }

  ghost predicate HasPlan(o: Office, t: nat) {
    && t < |o.locals| && o.locals[t].command != []
    && (o.locals[t].command[0] == "instantiate" ==> InstantiateArgs(o.locals[t].command))
  }

  /** A handler asks, and leaves its branch, only as its program says. */
  ghost predicate MoveEnabled(names: seq<string>, o: Office, m: Move) {
    && Enabled(o.system, m.act)
    && match m.act
       case Arrive(t) => t < |o.locals| && LegalCommand(names, m.command)
       case Ask(t, c, request) => HasPlan(o, t) && Plan(names, o.next, o.locals[t]) == AskNext(c, request)
       case Unlock(t) => HasPlan(o, t) && Plan(names, o.next, o.locals[t]).Finished?
       case Finish(t) => t < |o.locals|
       case _ => true
  }

  ghost function MoveStep(names: seq<string>, o: Office, m: Move): Office
    requires MoveEnabled(names, o, m)
  {
    var w, w' := o.system, Step(o.system, m.act);
    match m.act
    case Accept => o.(system := w', locals := o.locals + [Local([], [], false)])
    case Arrive(t) => o.(system := w', locals := o.locals[t := Local(m.command, [], false)])
    case Lock(_) => o.(system := w', open := Open(States(w), o.next, []))
    case Ask(t, c, request) =>
      o.(system := w', next := NextAfter(o.next, o.locals[t].command, c, request))
    case Finish(t) =>
      var p, l := w.threads[t], o.locals[t];
      var served := w.links[p.from].served;
      var granted := p.request != [] && p.request[0] == "instantiate";
      var trail := o.open.trail + if served == [] then [] else [Exchange(p.from, served[|served| - 1])];
      o.(system := w', locals := o.locals[t := Local(l.command, l.replies + [FrameLines(p.got)], granted)],
         open := o.open.(trail := trail))
    case Unlock(t) =>
      var l, s := o.locals[t], o.open;
      o.(system := w', closed := o.closed +
         [Session(t, l.command, s.before, s.next, s.trail, States(w), o.next, Plan(names, o.next, l).lines)])
    case _ => o.(system := w')
  }

  function Begin(states: seq<State>): Office {
    Office(Start(states), 0, [], Open([], 0, []), [])
  }

  ghost predicate Moves(names: seq<string>, os: seq<Office>, ms: seq<Move>, i: nat)
    requires |os| == |ms| + 1 && i < |ms|
  {
    MoveEnabled(names, os[i], ms[i]) && os[i + 1] == MoveStep(names, os[i], ms[i])
  }

  /** One interleaving of handlers, each running its branch, and controllers. */
  ghost predicate IsRun(names: seq<string>, states: seq<State>, os: seq<Office>, ms: seq<Move>) {
    && |states| == |names| && (forall c :: 0 <= c < |states| ==> Servable(states[c]))
    && |os| == |ms| + 1 && os[0] == Begin(states)
    && forall i: nat :: i < |ms| ==> Moves(names, os, ms, i)
  }

  // ----- what the sessions amount to -----

  /** One after the other: each session begins where the one before it ended. */
  ghost predicate InSequence(states: seq<State>, closed: seq<Session>) {
    && (closed != [] ==> closed[0].before == states && closed[0].next == 0)
    && (forall i, j :: 0 <= i && j == i + 1 < |closed| ==>
          closed[j].before == closed[i].after && closed[j].next == closed[i].nextAfter)
  }

  function LastStates(states: seq<State>, closed: seq<Session>): seq<State> {
    if closed == [] then states else closed[|closed| - 1].after
  }

  function LastNext(closed: seq<Session>): nat {
    if closed == [] then 0 else closed[|closed| - 1].nextAfter
  }

  /** The session did what `Handle` does with the request, and left controllers that can go on. */
  ghost predicate IsHandled(names: seq<string>, s: Session) {
    && |s.before| == |s.after| == |names| && (names != [] ==> s.next < |names|)
    && (forall c :: 0 <= c < |names| ==> Servable(s.after[c]))
    && var cluster := ClusterOf(names, s.before); var v := VisitOf(cluster, AliveOf(|names|, s.trail));
       && WellFormedCommand(cluster, s.command) && Visiting(cluster, v)
       && Handle(cluster, s.next, s.command, EnvOf(s.trail), v) ==
          Handled(ClusterOf(names, s.after), s.nextAfter, s.lines)
  }

  // ----- the invariant -----

  /** The holder's variables are those that its exchanges have led to. */
  ghost predicate OpenOk(names: seq<string>, o: Office, t: nat)
    requires t < |o.locals|
  {
    var s, command := o.open, o.locals[t].command;
    && |s.before| == |names| && LegalCommand(names, command) && (names != [] ==> s.next < |names|)
    && (forall c :: 0 <= c < |names| ==> Servable(s.before[c]))
    && Played(names, s.before, s.next, command, s.trail) && Indexed(|names|, s.trail)
    && o.locals[t] == LocalAfter(command, s.trail)
  }

  /**
   What the controllers have become: as the exchanges left them, and one further if it has served the next request.
   */
  ghost predicate StatesOk(names: seq<string>, o: Office, t: nat)
    requires t < |o.locals| && t < |o.system.threads| && OpenOk(names, o, t) && |o.system.links| == |names|
  {
    var s, l, w := o.open, o.locals[t], o.system;
    var now := After(s.before, s.trail);
    match w.threads[t]
    case Holding => States(w) == now && o.next == NextOf(s.next, l.command, s.trail)
    case Sending(c, r, _) => AskedBy(names, o, t, c, r) && Pending(w, now, c, r)
    case Awaiting(c, r, _) => AskedBy(names, o, t, c, r) && Pending(w, now, c, r)
    case _ => true
  }

  ghost predicate AskedBy(names: seq<string>, o: Office, t: nat, c: nat, r: seq<string>)
    requires t < |o.locals| && OpenOk(names, o, t)
  {
    var s, l := o.open, o.locals[t];
    && c < |names|
    && Plan(names, NextOf(s.next, l.command, s.trail), l) == AskNext(c, r)
    && o.next == NextAfter(NextOf(s.next, l.command, s.trail), l.command, c, r)
  }

  ghost predicate Pending(w: System, now: seq<State>, c: nat, r: seq<string>)
    requires |w.links| == |now| && c < |now|
  {
    var l := w.links[c];
    && (forall d :: 0 <= d < |now| && d != c ==> w.links[d].state == now[d])
    && (|l.served| == |l.calls| ==> l.state == now[c])
    && (|l.served| == |l.calls| + 1 ==>
          var v := l.served[|l.calls|];
          CanServe(v) && v.before == now[c] && v.request == r && l.state == ServedBy(v).state)
  }

  ghost predicate OfficeOk(names: seq<string>, states: seq<State>, o: Office) {
    && Inv(o.system)
    && |o.locals| == |o.system.threads| && |o.system.links| == |names| == |states|
    && (forall t :: 0 <= t < |o.locals| && !o.system.threads[t].Outside? ==> LegalCommand(names, o.locals[t].command))
    && (forall t :: 0 <= t < |o.locals| && o.system.threads[t].Waiting? ==>
       o.locals[t] == Local(o.locals[t].command, [], false))
    && InSequence(states, o.closed) && (forall i :: 0 <= i < |o.closed| ==> IsHandled(names, o.closed[i]))
    && (names != [] ==> LastNext(o.closed) < |names|)
    && if o.system.mutex.Free? then States(o.system) == LastStates(states, o.closed) && o.next == LastNext(o.closed)
       else
         && o.open.before == LastStates(states, o.closed) && o.open.next == LastNext(o.closed)
         && OpenOk(names, o, o.system.mutex.who) && StatesOk(names, o, o.system.mutex.who)
  }
}
