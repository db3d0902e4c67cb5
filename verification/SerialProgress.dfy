/** No deadlock: while any handler is in its branch or waits for the lock, somebody can take a step. */
module SerialProgress {
  import opened Framing
  import opened Records
  import opened ControllerModel
  import opened Servers
  import opened Placement
  import opened Clusters
  import opened LockDiscipline
  import opened Progress
  import opened Sessions
  import opened SessionTheorems
  import opened Serial
  import opened SerialTheorems

  /** A program asks only controllers that there are. */
  lemma {:induction false} PlanAsksSomebody(names: seq<string>, next: nat, l: Local)
    requires l.command != [] && (l.command[0] == "instantiate" ==> InstantiateArgs(l.command))
    requires names != [] ==> next < |names|
    requires l.replies != [] ==> names != []
    ensures Plan(names, next, l).AskNext? ==> Plan(names, next, l).c < |names|
  {
    hide TemplatesRead, TemplatesOf, InstancesOf, InstanceInfo.Deserialize, InstanceInfo.Serialize, SerializeTemplates,
      SerializeInstances, FindSlash;
    if names != [] { AdvanceIs(next, |names|); }
  }

  /** A handler that holds the lock and waits for nothing can go on: it asks, or it is done. */
  lemma {:induction false} HolderMoves(names: seq<string>, states: seq<State>, o: Office, t: nat) returns (m: Move)
    requires OfficeOk(names, states, o) && t < |o.system.threads| && o.system.threads[t].Holding?
    ensures MoveEnabled(names, o, m) && (m.act.Ask? || m.act.Unlock?) && m.act.t == t
  {
    hide Inv, LegalCommand, Plan, Played, After, NextOf, LocalAfter, Servable, InSequence, IsHandled, WellFormedRequest,
      Indexed;
    HolderIs(o.system, t);
    var l := o.locals[t];
    LegalHasName(names, l.command);
    SomebodyReplied(names, o.open, l);
    NextInRange(names, o.open.before, o.open.next, l.command, o.open.trail);
    PlanAsksSomebody(names, o.next, l);
    match Plan(names, o.next, l)
    case AskNext(c, r) =>
      PlanIsLegal(names, o.next, l, c, r);
      LegalIsSendable(r);
      m := Move(Ask(t, c, r), []);
    case Finished(_) => m := Move(Unlock(t), []);
  }

  lemma {:induction false} LegalIsSendable(r: seq<string>)
    requires WellFormedRequest(r)
    ensures Sendable(r)
  {
  }

  lemma {:induction false} SomebodyReplied(names: seq<string>, s: Open, l: Local)
    requires Indexed(|names|, s.trail) && l == LocalAfter(l.command, s.trail)
    ensures l.replies != [] ==> names != []
  {
    hide CanServe, ServedBy;
  }

  /**
   In every run, whenever a handler is in its branch or waits for the lock, some move is possible; if a reply is being
   waited for, provided that its controller can answer the request if it has not yet.
   */
  lemma {:induction false} NoDeadlock(names: seq<string>, states: seq<State>, os: seq<Office>, ms: seq<Move>, t: nat,
      env: Env)
    returns (m: Move)
    requires IsRun(names, states, os, ms)
    requires t < |os[|ms|].system.threads| && !os[|ms|].system.threads[t].Outside?
    ensures var o := os[|ms|]; var w := o.system;
            || MoveEnabled(names, o, m)
            || (w.mutex.Held? && w.mutex.who < |w.threads| && w.threads[w.mutex.who].Awaiting?
                && var p := w.threads[w.mutex.who];
                   p.from < |w.links| && !Willing(w.links[p.from], p.request, env))
  {
    hide OfficeOk, MoveEnabled, MoveStep, Servable, Willing;
    RunKeepsOffice(names, states, os, ms, |ms|);
    var o := os[|ms|];
    OfficeIs(names, states, o);
    var w := o.system;
    if w.mutex.Free? {
      m := Move(Lock(t), []);
      FreeIsWaiting(names, o, t);
    } else {
      HolderInside(w);
      var u := w.mutex.who;
      match w.threads[u]
      case Holding => m := HolderMoves(names, states, o, u);
      case Sending(_, _, left) =>
        m := Move(Write(u, 1), []);
        SenderCanWrite(names, o, u);
      case Awaiting(c, _, _) =>
        var a := Unstuck(w, u, env);
        m := Move(a, []);
        if Willing(w.links[c], w.threads[u].request, env) { HelpIsMove(names, o, a, u, c); }
    }
  }

  lemma {:induction false} OfficeIs(names: seq<string>, states: seq<State>, o: Office)
    requires OfficeOk(names, states, o)
    ensures Inv(o.system) && |o.locals| == |o.system.threads|
  {
    hide Inv, OpenOk, StatesOk, InSequence, IsHandled, LegalCommand;
  }

  lemma {:induction false} FreeIsWaiting(names: seq<string>, o: Office, t: nat)
    requires Inv(o.system) && t < |o.system.threads| && !o.system.threads[t].Outside? && o.system.mutex.Free?
    ensures MoveEnabled(names, o, Move(Lock(t), []))
  {
    hide LinkOk;
  }

  lemma {:induction false} SenderCanWrite(names: seq<string>, o: Office, t: nat)
    requires Inv(o.system) && t < |o.system.threads| && o.system.threads[t].Sending?
    requires o.system.mutex == Held(t, 1)
    ensures MoveEnabled(names, o, Move(Write(t, 1), []))
  {
    hide Upward, Matched, Chained, Servable;
    var c := o.system.threads[t].to;
    assert LinkOk(o.system.links[c], UseOf(o.system, c));
  }

  lemma {:induction false} HelpIsMove(names: seq<string>, o: Office, a: Act, t: nat, c: nat)
    requires Enabled(o.system, a) && Helps(a, t, c) && |o.locals| == |o.system.threads|
    ensures MoveEnabled(names, o, Move(a, []))
  {
    hide HasFrame, CanServe;
  }
}
