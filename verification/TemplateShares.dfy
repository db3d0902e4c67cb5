/**
 How the instances of one template spread over the controllers. Placement advances with every request that is granted,
 whatever its template, so what a controller gets of one template depends on the places of its requests in the list.
 */
module TemplateShares {
  import opened Wrappers
  import opened Records
  import opened ControllerModel
  import opened Servers
  import opened ControllerProxies
  import opened Placement
  import opened Clusters
  import opened Managers
  import opened ManagerTheorems

  predicate Everywhere(cluster: seq<Node>, templ: string) {
    forall c :: 0 <= c < |cluster| ==> templ in cluster[c].state.templates
  }

  /** Requests for templates that all controllers have, or that none has. */
  predicate EachOrNone(cluster: seq<Node>, jobs: seq<Job>) {
    forall i :: 0 <= i < |jobs| ==>
      Everywhere(cluster, jobs[i].request.templ) || Nowhere(cluster, jobs[i].request.templ)
  }

  predicate AllOrNone(cluster: seq<Node>, jobs: seq<Job>) { AllLegal(jobs) && EachOrNone(cluster, jobs) }

  predicate SameTemplates(a: seq<Node>, b: seq<Node>) {
    |a| == |b| && forall c :: 0 <= c < |a| ==> a[c].state.templates == b[c].state.templates
  }

  /** How many of the requests are granted. */
  function Successes(cluster: seq<Node>, jobs: seq<Job>): (k: nat)
    ensures k <= |jobs|
    ensures k == |jobs| <==> forall i :: 0 <= i < |jobs| ==> Everywhere(cluster, jobs[i].request.templ)
  {
    if jobs == [] then 0
    else
      var n := |jobs| - 1;
      assert forall i :: 0 <= i < n ==> jobs[..n][i] == jobs[i];
      Successes(cluster, jobs[..n]) + if Everywhere(cluster, jobs[n].request.templ) then 1 else 0
  }

  /** The controller whose turn it is after `k` granted requests. */
  function Turn(next: nat, size: nat, k: nat): (c: nat)
    requires size > 0
    ensures c < size
  { (next + k + 1) % size }

  /** The granted requests for template `x` that come at a turn of controller `c`. */
  function Share(cluster: seq<Node>, next: nat, jobs: seq<Job>, x: string, c: nat): nat
    requires cluster != []
  {
    if jobs == [] then 0
    else
      var n := |jobs| - 1;
      var hit := jobs[n].request.templ == x && Everywhere(cluster, x)
          && Turn(next, |cluster|, Successes(cluster, jobs[..n])) == c;
      Share(cluster, next, jobs[..n], x, c) + if hit then 1 else 0
  }

  /** The instances of a template in a controller's table. */
  function OfTemplate(s: State, x: string): set<int> { set id | id in s.table && s.table[id].templ.name == x }

  // ----- one request -----

  lemma {:induction false} OneMoreOf(s: State, s': State, id: int, x: string)
    requires id !in s.table && id in s'.table && s'.table == s.table[id := s'.table[id]]
    ensures |OfTemplate(s', x)| == |OfTemplate(s, x)| + if s'.table[id].templ.name == x then 1 else 0
  {
    if s'.table[id].templ.name == x {
      assert OfTemplate(s', x) == OfTemplate(s, x) + {id};
    } else {
      assert OfTemplate(s', x) == OfTemplate(s, x);
    }
  }

  /** If all offer, the next one is chosen. */
  lemma {:induction false} NextIsChosen(cluster: seq<Node>, next: nat, x: InstanceInfo, env: Env)
    requires next < |cluster| && Everywhere(cluster, x.templ)
    ensures var p := PlaceInstance(cluster, next, x, env);
            p.chosen == Some(AdvanceModulo(next, |cluster|)) && p.next == AdvanceModulo(next, |cluster|)
  {
    hide Granted, MakeFullId, ServeInstantiate;
    AdvanceIs(next, |cluster|);
  }

  lemma {:induction false} OneTurn(cluster: seq<Node>, next: nat, job: Job, x: string, c: nat)
    requires ClusterRuns(cluster) && next < |cluster| && c < |cluster| && AllOrNone(cluster, [job])
    requires PortsInRange(PlaceInstance(cluster, next, job.request, job.env).cluster)
    ensures var p := PlaceInstance(cluster, next, job.request, job.env); var templ := job.request.templ;
            && ClusterRuns(p.cluster) && SameTemplates(cluster, p.cluster)
            && p.next == (if Everywhere(cluster, templ) then AdvanceModulo(next, |cluster|) else next)
            && |OfTemplate(p.cluster[c].state, x)| == |OfTemplate(cluster[c].state, x)| +
               if templ == x && Everywhere(cluster, x) && p.next == c then 1 else 0
  {
    hide PlaceInstance, ClusterRuns, InstanceInfo.Printable, OfTemplate, AdvanceModulo, MakeFullId;
    assert [job][0] == job;
    var p := PlaceInstance(cluster, next, job.request, job.env);
    NotPlaced(cluster, next, job.request, job.env);
    if Everywhere(cluster, job.request.templ) {
      NextIsChosen(cluster, next, job.request, job.env);
      var id := ManagerTheorems.Placed(cluster, next, job.request, job.env);
      var d := p.chosen.value;
      NamedByKeys(cluster, d);
      OneMoreOf(cluster[d].state, p.cluster[d].state, id, x);
    }
  }

  lemma {:induction false} NamedByKeys(cluster: seq<Node>, c: nat)
    requires ClusterRuns(cluster) && c < |cluster|
    ensures forall n :: n in cluster[c].state.templates ==> cluster[c].state.templates[n].name == n
  {
    hide Servable;
    NodeIsOk(cluster, c);
    ServableNames(cluster[c].state);
  }

  // ----- rests -----

  lemma {:induction false} Multiples(n: nat, a: int, b: int)
    requires a < b
    ensures n * a + n <= n * b
    decreases b - a
  {
    if a + 1 < b { Multiples(n, a, b - 1); }
  }

  lemma {:induction false} RestIs(n: nat, q: int, r: nat)
    requires r < n
    ensures (n * q + r) % n == r
  {
    var p, s := (n * q + r) / n, (n * q + r) % n;
    assert n * p + s == n * q + r;
    if p < q { Multiples(n, p, q); }
    if q < p { Multiples(n, q, p); }
  }

  lemma {:induction false} RestOfSum(a: nat, b: nat, n: nat)
    requires n > 0
    ensures (a + b) % n == (a + b % n) % n
  {
    var q, r := b / n, b % n;
    var p, s := (a + r) / n, (a + r) % n;
    assert a + b == n * (q + p) + s by { assert b == n * q + r; assert a + r == n * p + s; }
    RestIs(n, q + p, s);
  }

  // ----- any number of requests -----

  lemma {:induction false} NothingChanged(cluster: seq<Node>)
    ensures SameTemplates(cluster, cluster)
  {
  }

  lemma {:induction false} FirstOnes(cluster: seq<Node>, jobs: seq<Job>)
    requires AllOrNone(cluster, jobs) && jobs != []
    ensures AllOrNone(cluster, jobs[..|jobs| - 1])
  {
    hide InstanceInfo.Printable, Everywhere, Nowhere;
  }

  /** What was so of the templates at first still is. */
  lemma {:induction false} LastOne(cluster: seq<Node>, now: seq<Node>, jobs: seq<Job>, x: string)
    requires AllOrNone(cluster, jobs) && jobs != [] && SameTemplates(cluster, now)
    ensures AllOrNone(now, [jobs[|jobs| - 1]])
    ensures Everywhere(now, x) <==> Everywhere(cluster, x)
    ensures Everywhere(now, jobs[|jobs| - 1].request.templ) <==> Everywhere(cluster, jobs[|jobs| - 1].request.templ)
    ensures forall later :: SameTemplates(now, later) ==> SameTemplates(cluster, later)
  {
    hide InstanceInfo.Printable;
  }

  /**
   The controllers take turns, whatever the templates are: after any requests for templates that all have, mixed with
   any that nobody has, `nextController` has advanced once for each granted request.
   */
  lemma {:induction false} TakeTurns(cluster: seq<Node>, next: nat, jobs: seq<Job>)
    requires ClusterRuns(cluster) && next < |cluster| && AllOrNone(cluster, jobs) && AlwaysInRange(cluster, next, jobs)
    ensures var g := PlaceAll(cluster, next, jobs);
            && ClusterRuns(g.cluster) && SameTemplates(cluster, g.cluster)
            && g.next == (next + Successes(cluster, jobs)) % |cluster|
    decreases |jobs|
  {
    hide PlaceInstance, ClusterRuns, OfTemplate, PortsInRange, InstanceInfo.Printable, AllOrNone, Everywhere,
      SameTemplates;
    if jobs == [] {
      NothingChanged(cluster);
      SmallMod(next, |cluster|);
    } else {
      var n := |jobs| - 1;
      FirstOnes(cluster, jobs);
      TakeTurns(cluster, next, jobs[..n]);
      var g := PlaceAll(cluster, next, jobs[..n]);
      LastOne(cluster, g.cluster, jobs, "");
      OneTurn(g.cluster, g.next, jobs[n], "", 0);
      RestOfSum(1, next + Successes(cluster, jobs[..n]), |cluster|);
    }
  }

  /** So what a table gains of one template is that controller's share of the requests for it. */
  lemma {:induction false} GrowthIsShare(cluster: seq<Node>, next: nat, jobs: seq<Job>, x: string, c: nat)
    requires ClusterRuns(cluster) && next < |cluster| && AllOrNone(cluster, jobs) && AlwaysInRange(cluster, next, jobs)
    requires c < |cluster|
    ensures |OfTemplate(PlaceAll(cluster, next, jobs).cluster[c].state, x)| ==
            |OfTemplate(cluster[c].state, x)| + Share(cluster, next, jobs, x, c)
    decreases |jobs|
  {
    hide PlaceInstance, ClusterRuns, OfTemplate, PortsInRange, InstanceInfo.Printable, AllOrNone, Everywhere,
      SameTemplates;
    if jobs != [] {
      var n := |jobs| - 1;
      FirstOnes(cluster, jobs);
      TakeTurns(cluster, next, jobs[..n]);
      GrowthIsShare(cluster, next, jobs[..n], x, c);
      var g := PlaceAll(cluster, next, jobs[..n]);
      LastOne(cluster, g.cluster, jobs, x);
      OneTurn(g.cluster, g.next, jobs[n], x, c);
      RestOfSum(1, next + Successes(cluster, jobs[..n]), |cluster|);
    }
  }

  /**
   Exactly when placement is fair for one template: two controllers gain as many of its instances up to one if and only
   if as many of its requests, up to one, come at their turns.
   */
  lemma {:induction false} FairPerTemplate(
    cluster: seq<Node>, next: nat, jobs: seq<Job>, x: string, a: nat, b: nat)
    requires ClusterRuns(cluster) && next < |cluster| && AllOrNone(cluster, jobs) && AlwaysInRange(cluster, next, jobs)
    requires a < |cluster| && b < |cluster|
    ensures var after := PlaceAll(cluster, next, jobs).cluster;
            var newOnA := |OfTemplate(after[a].state, x)| - |OfTemplate(cluster[a].state, x)|;
            var newOnB := |OfTemplate(after[b].state, x)| - |OfTemplate(cluster[b].state, x)|;
            -1 <= newOnA - newOnB <= 1 <==>
                -1 <= Share(cluster, next, jobs, x, a) - Share(cluster, next, jobs, x, b) <= 1
  {
    hide PlaceAll, ClusterRuns, OfTemplate, AllOrNone, AlwaysInRange, Share;
    GrowthIsShare(cluster, next, jobs, x, a);
    GrowthIsShare(cluster, next, jobs, x, b);
  }

  // ----- a pattern that is not fair -----

  /** How many of the requests are for a template. */
  function Wanted(jobs: seq<Job>, x: string): nat {
    if jobs == [] then 0
    else
      var n := |jobs| - 1;
      Wanted(jobs[..n], x) + if jobs[n].request.templ == x then 1 else 0
  }

  /** As many templates as there are controllers are asked for in turn, and all controllers have them. */
  predicate InTurn(cluster: seq<Node>, jobs: seq<Job>, names: seq<string>) {
    && |names| == |cluster| > 0 && NoDuplicates(names)
    && (forall i :: 0 <= i < |names| ==> Everywhere(cluster, names[i]))
    && forall j :: 0 <= j < |jobs| ==> jobs[j].request.templ == names[j % |names|]
  }

  lemma {:induction false} ShareInTurn(
    cluster: seq<Node>, next: nat, jobs: seq<Job>, names: seq<string>, i: nat, c: nat)
    requires InTurn(cluster, jobs, names) && i < |cluster|
    ensures Share(cluster, next, jobs, names[i], c) ==
            if Turn(next, |cluster|, i) == c then Wanted(jobs, names[i]) else 0
    decreases |jobs|
  {
    hide Everywhere;
    if jobs != [] {
      var n := |jobs| - 1;
      ShareInTurn(cluster, next, jobs[..n], names, i, c);
      assert Successes(cluster, jobs[..n]) == n;
      RestOfSum(next + 1, n, |cluster|);
    }
  }

  /**
   Not fair for each template by itself: when as many templates as there are controllers are asked for in turn, all new
   instances of each go to one controller, and the others get none of it.
   */
  lemma {:induction false} InTurnIsUnfair(
    cluster: seq<Node>, next: nat, jobs: seq<Job>, names: seq<string>, i: nat, c: nat)
    requires ClusterRuns(cluster) && next < |cluster| && AllOrNone(cluster, jobs) && AlwaysInRange(cluster, next, jobs)
    requires InTurn(cluster, jobs, names) && i < |cluster| && c < |cluster|
    ensures var after := PlaceAll(cluster, next, jobs).cluster;
            |OfTemplate(after[c].state, names[i])| - |OfTemplate(cluster[c].state, names[i])| ==
            if c == Turn(next, |cluster|, i) then Wanted(jobs, names[i]) else 0
  {
    hide PlaceAll, ClusterRuns, OfTemplate, AllOrNone, AlwaysInRange, Share, Wanted, Everywhere;
    GrowthIsShare(cluster, next, jobs, names[i], c);
    ShareInTurn(cluster, next, jobs, names, i, c);
  }
}
