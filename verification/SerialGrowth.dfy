/**
 Fairness under concurrency: however the handlers of many clients interleave, and whatever else they do, the instances
 they create spread over the controllers as if their requests had come one after the other in lock order.
 */
module SerialGrowth {
  import opened Decimal
  import opened Records
  import opened ControllerModel
  import opened ControllerTheorems
  import opened Servers
  import opened Placement
  import opened Clusters
  import opened Managers
  import opened ManagerTheorems
  import opened TemplateShares
  import opened Sessions
  import opened Serial
  import opened SerialTheorems

  /** What a session asked to be placed. */
  function JobOf(s: Session): seq<Job> {
    if s.command != [] && s.command[0] == "instantiate" && InstantiateArgs(s.command) then
      [Job(InstanceInfo.Deserialize(s.command[1..]).value, EnvOf(s.trail))]
    else []
  }

  function JobsOf(closed: seq<Session>): seq<Job> {
    if closed == [] then []
    else
      var n := |closed| - 1;
      JobsOf(closed[..n]) + JobOf(closed[n])
  }

  // ----- one session -----

  /** The same templates, and the same entries with the same templates. */
  ghost predicate SameTables(a: seq<Node>, b: seq<Node>) {
    && SameTemplates(a, b)
    && forall c :: 0 <= c < |a| ==>
         && a[c].state.table.Keys == b[c].state.table.Keys
         && forall id :: id in a[c].state.table ==> b[c].state.table[id].templ == a[c].state.table[id].templ
  }

  lemma {:induction false} RunKeepsTable(s: State, id: string, env: Env)
    requires Servable(s) && Agreement(s) && Int32(ServeRun(s, id, env).state.nextPort)
    ensures var s' := ServeRun(s, id, env).state;
            && s'.templates == s.templates && s'.table.Keys == s.table.Keys
            && forall k :: k in s.table ==> s'.table[k].templ == s.table[k].templ
  {
    hide ControllerModel.Run, Stoi, ToString, Agreement;
    if Stoi(id).Number? { RunFacts(s, Stoi(id).value, env.busy, env.alive, env.child); }
  }

  lemma {:induction false} RunAnywhereKeepsTables(cluster: seq<Node>, fullId: string, env: Env)
    requires ClusterRuns(cluster) && PortsInRange(RunAnywhere(cluster, fullId, env).cluster)
    ensures SameTables(cluster, RunAnywhere(cluster, fullId, env).cluster)
  {
    hide ServeRun, Servable, Agreement, Route;
    RouteInCluster(cluster, fullId);
    match Route(cluster, fullId)
    case (None, _) =>
    case (Some(c), id) =>
      var a := RunAnywhere(cluster, fullId, env);
      NodeIsOk(cluster, c);
      assert a.cluster[c].state == ServeRun(cluster[c].state, id, env).state;
      assert Int32(a.cluster[c].state.nextPort);
      RunKeepsTable(cluster[c].state, id, env);
  }

  /** A session places what it asks for, and otherwise creates nothing. */
  lemma {:induction false} OneSession(names: seq<string>, s: Session)
    requires IsHandled(names, s) && ClusterRuns(ClusterOf(names, s.before))
    ensures ClusterRuns(ClusterOf(names, s.after))
    ensures var b, a := ClusterOf(names, s.before), ClusterOf(names, s.after);
            if JobOf(s) == [] then SameTables(b, a) && s.nextAfter == s.next
            else
              var j := JobOf(s)[0];
              && JobOf(s) == [j] && j.request.Printable()
              && a == PlaceInstance(b, s.next, j.request, j.env).cluster && PortsInRange(a)
              && s.nextAfter == PlaceInstance(b, s.next, j.request, j.env).next
  {
    hide PlaceInstance, RunAnywhere, KillAnywhere, ClusterRuns, Visiting, Servable, InstanceInfo.Deserialize,
      InstanceInfo.Printable, GatheredTemplates, Gathered, SerializeTemplates, SerializeInstances, VisitOf, EnvOf;
    var b, a, r := ClusterOf(names, s.before), ClusterOf(names, s.after), s.command;
    AfterInRange(names, s);
    HandleLines(b, s.next, r, EnvOf(s.trail), VisitOf(b, AliveOf(|names|, s.trail)));
    if r[0] == "instantiate" {
      EchoIsLegal(r);
    } else if r[0] == "run" && |r| >= 2 {
      RunAnywhereKeepsTables(b, r[1], EnvOf(s.trail));
    }
  }

  lemma {:induction false} AfterInRange(names: seq<string>, s: Session)
    requires |s.after| == |names| && forall c :: 0 <= c < |names| ==> Servable(s.after[c])
    ensures PortsInRange(ClusterOf(names, s.after))
  {
  }

  // ----- all sessions of a run -----

  /** Closed sessions on a cluster that ran when the first of them began. */
  ghost predicate History(names: seq<string>, states: seq<State>, closed: seq<Session>) {
    && |states| == |names| && ClusterRuns(ClusterOf(names, states))
    && InSequence(states, closed) && forall i :: 0 <= i < |closed| ==> IsHandled(names, closed[i])
  }

  lemma {:induction false} HandledShape(names: seq<string>, s: Session)
    requires IsHandled(names, s)
    ensures |s.before| == |s.after| == |names| && (names != [] ==> s.next < |names|)
  {
    hide Servable, Handle, Visiting, VisitOf, WellFormedCommand;
  }

  /** The cluster as the last of them left it. */
  function ClusterNow(names: seq<string>, states: seq<State>, closed: seq<Session>): seq<Node>
    requires |LastStates(states, closed)| == |names|
  { ClusterOf(names, LastStates(states, closed)) }

  lemma {:induction false} LastIsThere(names: seq<string>, states: seq<State>, closed: seq<Session>)
    requires History(names, states, closed)
    ensures |LastStates(states, closed)| == |names|
    ensures closed != [] ==>
              var n := |closed| - 1;
              && History(names, states, closed[..n]) && closed[n].before == LastStates(states, closed[..n])
              && closed[n].next == LastNext(closed[..n]) && IsHandled(names, closed[n])
              && (names != [] ==> closed[n].next < |names|)
  {
    hide ClusterRuns, IsHandled;
    if closed != [] {
      var n := |closed| - 1;
      assert forall i :: 0 <= i < n ==> closed[..n][i] == closed[i];
      if n > 0 { assert closed[n - 1].after == closed[n].before; }
      HandledShape(names, closed[n]);
    }
  }

  lemma {:induction false} ClusterStillRuns(names: seq<string>, states: seq<State>, closed: seq<Session>)
    requires History(names, states, closed)
    ensures |LastStates(states, closed)| == |names|
    ensures ClusterRuns(ClusterNow(names, states, closed)) && AllLegal(JobsOf(closed))
    decreases |closed|
  {
    hide ClusterRuns, IsHandled, InSequence, InstanceInfo.Printable, PlaceInstance, JobOf, SameTables;
    LastIsThere(names, states, closed);
    if closed != [] {
      var n := |closed| - 1;
      ClusterStillRuns(names, states, closed[..n]);
      OneSession(names, closed[n]);
    }
  }

  lemma {:induction false} NothingCreated(cluster: seq<Node>, b: seq<Node>, a: seq<Node>, next: nat, r: Tally)
    requires GrowsAs(cluster, Grown(b, next), r) && SameTables(b, a)
    ensures GrowsAs(cluster, Grown(a, next), r)
  {
    forall c | 0 <= c < |b| ensures |a[c].state.table| == |b[c].state.table| {
      assert |a[c].state.table.Keys| == |b[c].state.table.Keys|;
    }
  }

  lemma {:induction false} OneTarget(cluster: seq<Node>, job: Job, templ: string)
    requires job.request.Printable()
    requires SameOffers(cluster, job.request.templ, templ) || Nowhere(cluster, job.request.templ)
    ensures SameTargets(cluster, [job], templ)
  {
    hide InstanceInfo.Printable, SameOffers;
  }

  /** The tally after one more request. */
  function OneMoreTally(r: Tally, offers: seq<bool>, ask: bool): Tally {
    var q := Place(r.next, if ask then offers else NoOffers(|offers|), |offers|);
    Tally(if q.chosen.Some? then r.served + [q.chosen.value] else r.served, q.next)
  }

  lemma {:induction false} SessionGrows(names: seq<string>, cluster: seq<Node>, s: Session, r: Tally, templ: string)
    requires IsHandled(names, s) && ClusterRuns(ClusterOf(names, s.before))
    requires |cluster| == |names| && s.next < |names| && GrowsAs(cluster, Grown(ClusterOf(names, s.before), s.next), r)
    requires Alike(cluster, JobOf(s), templ)
    ensures GrowsAs(cluster, Grown(ClusterOf(names, s.after), s.nextAfter),
            if JobOf(s) == [] then r
            else OneMoreTally(r, Offers(cluster, templ), SameOffers(cluster, JobOf(s)[0].request.templ, templ)))
  {
    hide ClusterRuns, Handle, Visiting, VisitOf, WellFormedCommand, Servable, InstanceInfo.Printable, PlaceInstance,
      JobOf, SameTables, GrowsAs, Place, SameOffers, Nowhere, PortsInRange, SameTargets;
    OneSession(names, s);
    var b, a := ClusterOf(names, s.before), ClusterOf(names, s.after);
    if JobOf(s) == [] {
      NothingCreated(cluster, b, a, s.next, r);
    } else {
      OneTarget(cluster, JobOf(s)[0], templ);
      GrowsOneMore(cluster, Grown(b, s.next), r, JobOf(s)[0], templ);
    }
  }

  lemma {:induction false} OneMoreAsk(cluster: seq<Node>, jobs: seq<Job>, job: seq<Job>, templ: string)
    requires |job| <= 1
    ensures Requests(0, Offers(cluster, templ), Asks(cluster, jobs + job, templ)) ==
            var r := Requests(0, Offers(cluster, templ), Asks(cluster, jobs, templ));
            if job == [] then r
            else OneMoreTally(r, Offers(cluster, templ), SameOffers(cluster, job[0].request.templ, templ))
  {
    hide Place, SameOffers;
    if job == [] {
      assert jobs + job == jobs;
    } else {
      assert (jobs + job)[|jobs|] == job[0];
      assert Asks(cluster, jobs + job, templ)[..|jobs|] == Asks(cluster, jobs, templ);
    }
  }

  /** What is so of all requests is so of the earlier ones and of the last. */
  lemma {:induction false} AlikeParts(cluster: seq<Node>, jobs: seq<Job>, job: seq<Job>, templ: string)
    requires Alike(cluster, jobs + job, templ)
    ensures Alike(cluster, jobs, templ) && Alike(cluster, job, templ)
  {
    hide SameOffers, Nowhere;
    var all := jobs + job;
    assert forall i :: 0 <= i < |jobs| ==> all[i] == jobs[i];
    assert forall i :: 0 <= i < |job| ==> all[|jobs| + i] == job[i];
  }

  /** The tables grow as the placement of the sessions' requests counts. */
  lemma {:induction false} SessionsGrow(
    names: seq<string>, states: seq<State>, closed: seq<Session>, templ: string)
    requires History(names, states, closed) && names != []
    requires Alike(ClusterOf(names, states), JobsOf(closed), templ)
    ensures |LastStates(states, closed)| == |names|
    ensures var cluster := ClusterOf(names, states);
            GrowsAs(cluster, Grown(ClusterNow(names, states, closed), LastNext(closed)),
                    Requests(0, Offers(cluster, templ), Asks(cluster, JobsOf(closed), templ)))
    decreases |closed|
  {
    hide ClusterRuns, IsHandled, InSequence, JobOf, GrowsAs, OneMoreTally, Requests, Asks, Alike;
    var cluster := ClusterOf(names, states);
    LastIsThere(names, states, closed);
    if closed == [] {
      NothingGrown(cluster, 0);
      NoRequests(cluster, templ);
    } else {
      var n := |closed| - 1;
      var jobs, job := JobsOf(closed[..n]), JobOf(closed[n]);
      AlikeParts(cluster, jobs, job, templ);
      SessionsGrow(names, states, closed[..n], templ);
      ClusterStillRuns(names, states, closed[..n]);
      SessionGrows(names, cluster, closed[n],
          Requests(0, Offers(cluster, templ), Asks(cluster, jobs, templ)), templ);
      AtMostOne(closed[n]);
      OneMoreAsk(cluster, jobs, job, templ);
    }
  }

  lemma {:induction false} NoRequests(cluster: seq<Node>, templ: string)
    ensures Requests(0, Offers(cluster, templ), Asks(cluster, [], templ)) == Tally([], 0)
  {
  }

  lemma {:induction false} AtMostOne(s: Session)
    ensures |JobOf(s)| <= 1
  {
  }

  // ----- each template by itself -----

  lemma {:induction false} EachOrNoneParts(cluster: seq<Node>, jobs: seq<Job>, job: seq<Job>)
    requires EachOrNone(cluster, jobs + job)
    ensures EachOrNone(cluster, jobs) && EachOrNone(cluster, job)
  {
    hide Everywhere, Nowhere;
    var all := jobs + job;
    assert forall i :: 0 <= i < |jobs| ==> all[i] == jobs[i];
    assert forall i :: 0 <= i < |job| ==> all[|jobs| + i] == job[i];
  }

  lemma {:induction false} SessionShares(names: seq<string>, cluster: seq<Node>, s: Session, x: string, c: nat)
    requires IsHandled(names, s) && ClusterRuns(ClusterOf(names, s.before)) && c < |names| && s.next < |names|
    requires SameTemplates(cluster, ClusterOf(names, s.before)) && EachOrNone(cluster, JobOf(s))
    ensures SameTemplates(cluster, ClusterOf(names, s.after))
    ensures var granted := JobOf(s) != [] && Everywhere(cluster, JobOf(s)[0].request.templ);
            && s.nextAfter == (if granted then AdvanceModulo(s.next, |names|) else s.next)
            && |OfTemplate(s.after[c], x)| == |OfTemplate(s.before[c], x)| +
               if granted && JobOf(s)[0].request.templ == x && s.nextAfter == c then 1 else 0
  {
    hide ClusterRuns, Handle, Visiting, VisitOf, WellFormedCommand, Servable, InstanceInfo.Printable, PlaceInstance,
      JobOf, PortsInRange, OfTemplate, Everywhere, Nowhere, AdvanceModulo, SameTables, SameTemplates;
    OneSession(names, s);
    var b, a := ClusterOf(names, s.before), ClusterOf(names, s.after);
    if JobOf(s) == [] {
      SameShares(cluster, b, a, x, c);
    } else {
      var j := JobOf(s)[0];
      OneLegal(cluster, j);
      LastOne(cluster, b, [j], x);
      OneTurn(b, s.next, j, x, c);
    }
  }

  lemma {:induction false} OneLegal(cluster: seq<Node>, job: Job)
    requires job.request.Printable() && EachOrNone(cluster, [job])
    ensures AllOrNone(cluster, [job])
  {
    hide InstanceInfo.Printable, Everywhere, Nowhere;
  }

  lemma {:induction false} SameShares(cluster: seq<Node>, b: seq<Node>, a: seq<Node>, x: string, c: nat)
    requires SameTemplates(cluster, b) && SameTables(b, a) && c < |b|
    ensures SameTemplates(cluster, a) && OfTemplate(a[c].state, x) == OfTemplate(b[c].state, x)
  {
    var s, s' := b[c].state, a[c].state;
    forall id ensures id in OfTemplate(s', x) <==> id in OfTemplate(s, x) {
      assert id in s.table.Keys <==> id in s'.table.Keys;
    }
  }

  lemma {:induction false} OneMoreShare(
    cluster: seq<Node>, next: nat, jobs: seq<Job>, job: seq<Job>, x: string, c: nat)
    requires cluster != [] && |job| <= 1
    ensures var granted := job != [] && Everywhere(cluster, job[0].request.templ);
            && Successes(cluster, jobs + job) == Successes(cluster, jobs) + (if granted then 1 else 0)
            && Share(cluster, next, jobs + job, x, c) == Share(cluster, next, jobs, x, c) +
               if granted && job[0].request.templ == x && Turn(next, |cluster|, Successes(cluster, jobs)) == c then 1
               else 0
  {
    hide Everywhere;
    if job == [] {
      assert jobs + job == jobs;
    } else {
      assert (jobs + job)[..|jobs|] == jobs && (jobs + job)[|jobs|] == job[0];
    }
  }

  /** What a table gains of one template is that controller's share of the sessions' requests for it. */
  lemma {:induction false} SessionsShare(
    names: seq<string>, states: seq<State>, closed: seq<Session>, x: string, c: nat)
    requires History(names, states, closed) && c < |names|
    requires EachOrNone(ClusterOf(names, states), JobsOf(closed))
    ensures |LastStates(states, closed)| == |names|
    ensures var cluster, jobs := ClusterOf(names, states), JobsOf(closed);
            && SameTemplates(cluster, ClusterNow(names, states, closed))
            && LastNext(closed) == Successes(cluster, jobs) % |names|
            && |OfTemplate(LastStates(states, closed)[c], x)| ==
               |OfTemplate(states[c], x)| + Share(cluster, 0, jobs, x, c)
    decreases |closed|
  {
    hide ClusterRuns, IsHandled, InSequence, JobOf, EachOrNone, Successes, Share, OfTemplate, SameTemplates, Everywhere;
    var cluster := ClusterOf(names, states);
    LastIsThere(names, states, closed);
    if closed == [] {
      NoShares(cluster, x, c);
    } else {
      var n := |closed| - 1;
      var jobs, job := JobsOf(closed[..n]), JobOf(closed[n]);
      EachOrNoneParts(cluster, jobs, job);
      SessionsShare(names, states, closed[..n], x, c);
      ClusterStillRuns(names, states, closed[..n]);
      SessionShares(names, cluster, closed[n], x, c);
      AtMostOne(closed[n]);
      OneMoreShare(cluster, 0, jobs, job, x, c);
      RestOfSum(1, Successes(cluster, jobs), |names|);
    }
  }

  lemma {:induction false} NoShares(cluster: seq<Node>, x: string, c: nat)
    requires c < |cluster|
    ensures SameTemplates(cluster, cluster) && Successes(cluster, []) % |cluster| == 0
    ensures Share(cluster, 0, [], x, c) == 0
  {
    SmallMod(0, |cluster|);
  }

  // ----- every interleaving -----

  lemma {:induction false} RunIsHistory(names: seq<string>, states: seq<State>, os: seq<Office>, ms: seq<Move>)
    requires IsRun(names, states, os, ms) && ClusterRuns(ClusterOf(names, states))
    ensures History(names, states, os[|ms|].closed)
  {
    hide ClusterRuns, IsHandled, InSequence, Servable, Moves;
    Serialisable(names, states, os, ms);
  }

  /**
   In every interleaving of any number of handlers: if the instances they asked for were of templates that the same
   controllers have, or that nobody has, then the numbers of new instances on two of those controllers differ by at most
   one, whatever else was listed, started and killed.
   */
  lemma {:induction false} FairInEveryRun(
    names: seq<string>, states: seq<State>, os: seq<Office>, ms: seq<Move>, templ: string, a: nat, b: nat)
    requires IsRun(names, states, os, ms) && ClusterRuns(ClusterOf(names, states)) && a < |names| && b < |names|
    requires templ in states[a].templates && templ in states[b].templates
    requires Alike(ClusterOf(names, states), JobsOf(os[|ms|].closed), templ)
    ensures var o := os[|ms|]; var after := LastStates(states, o.closed);
            && |after| == |states| && (o.system.mutex.Free? ==> States(o.system) == after)
            && -1 <= (|after[a].table| - |states[a].table|) - (|after[b].table| - |states[b].table|) <= 1
  {
    hide ClusterRuns, IsHandled, InSequence, Servable, Moves, Requests, Alike, JobsOf, History, LastNext,
      LastStates;
    var closed, cluster := os[|ms|].closed, ClusterOf(names, states);
    RunIsHistory(names, states, os, ms);
    Serialisable(names, states, os, ms);
    SessionsGrow(names, states, closed, templ);
    FairPlacement(0, Offers(cluster, templ), Asks(cluster, JobsOf(closed), templ), a, b);
  }

  /** And the number of new instances of one template is the controller's share of the requests, in lock order. */
  lemma {:induction false} SharesInEveryRun(
    names: seq<string>, states: seq<State>, os: seq<Office>, ms: seq<Move>, x: string, c: nat)
    requires IsRun(names, states, os, ms) && ClusterRuns(ClusterOf(names, states)) && c < |names|
    requires EachOrNone(ClusterOf(names, states), JobsOf(os[|ms|].closed))
    ensures var o := os[|ms|]; var after := LastStates(states, o.closed);
            && |after| == |states| && (o.system.mutex.Free? ==> States(o.system) == after)
            && |OfTemplate(after[c], x)| ==
               |OfTemplate(states[c], x)| + Share(ClusterOf(names, states), 0, JobsOf(o.closed), x, c)
  {
    hide ClusterRuns, IsHandled, InSequence, Servable, Moves, Share, OfTemplate, EachOrNone, JobsOf, History,
      LastNext, LastStates;
    RunIsHistory(names, states, os, ms);
    Serialisable(names, states, os, ms);
    SessionsShare(names, states, os[|ms|].closed, x, c);
  }
}
