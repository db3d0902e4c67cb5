/** What one request to the manager does to the cluster, and how instances spread over many requests. */
module ManagerTheorems {
  import opened Wrappers
  import opened Decimal
  import opened Framing
  import opened FramingTheorems
  import opened Records
  import opened ControllerModel
  import opened ControllerTheorems
  import opened Sockets
  import opened Servers
  import opened ControllerProxies
  import opened Placement
  import opened Clusters
  import opened ClusterTheorems
  import opened Managers

  /** A cluster between operations: servable, and every controller's disk agrees with its table. */
  ghost predicate ClusterRuns(cluster: seq<Node>) {
    && ClusterOk(cluster)
    && forall c :: 0 <= c < |cluster| ==> Agreement(cluster[c].state) && SlashFree(cluster[c].name)
  }

  // ----- placing one instance -----

  /** One controller with the template grants the request: one new instance, under an id nothing had before. */
  lemma {:induction false} GrantFacts(s: State, x: InstanceInfo, env: Env) returns (id: int)
    requires Servable(s) && Agreement(s) && x.Printable() && x.templ in s.templates
    requires Int32(ServeInstantiate(s, Asked(x), env).state.nextPort)
    ensures var s' := ServeInstantiate(s, Asked(x), env).state;
            && Servable(s') && Agreement(s') && s'.templates == s.templates
            && id !in s.table && id !in s.dirs && id in s'.table && s'.table == s.table[id := s'.table[id]]
            && s'.table[id].templ == s.templates[x.templ] && s'.table[id].memory == x.memory
               && s'.table[id].cpus == x.cpus
            && s'.table[id].id == id
            && |s'.table| == |s.table| + 1
            && Shows(Granted(s, Asked(x), env), ToString(id), s'.table[id], env.alive)
  {
    hide ServeInstantiate, Granted, Agreement, Load, Restore, ToString;
    AskIsLegal(x.templ, x.memory, x.cpus);
    ServeInstantiateFacts(s, Asked(x), env);
    var made := Instantiate(s, x.templ, x.memory, x.cpus, env.busy, env.busyLater);
    InstantiateFacts(s, x.templ, x.memory, x.cpus, env.busy, env.busyLater);
    id := made.id;
    OneMoreKey(s.table, id, made.state.table[id]);
  }

  lemma {:induction false} OneMoreKey<V>(m: map<int, V>, k: int, v: V)
    requires k !in m
    ensures |m[k := v]| == |m| + 1
  {
    assert m[k := v].Keys == m.Keys + {k};
  }

  /** Nobody is asked in vain: without a controller that has the template nothing changes and the request comes back. */
  lemma {:induction false} NotPlaced(cluster: seq<Node>, next: nat, x: InstanceInfo, env: Env)
    requires cluster != [] ==> next < |cluster|
    ensures var p := PlaceInstance(cluster, next, x, env);
            && (p.chosen.None? <==> forall c :: 0 <= c < |cluster| ==> x.templ !in cluster[c].state.templates)
            && (p.chosen.None? ==> p == Placing(cluster, next, None, x))
  {
    hide ServeInstantiate, Granted, MakeFullId;
    FullLap(next, Offers(cluster, x.templ));
  }

  /**
   Otherwise the nearest controller after `nextController` that has the template gets exactly one new instance with
   the requested memory and cpus, every other controller keeps its state, and the answer is that instance under its
   full id, which `run` and `kill` route back to it.
   */
  lemma {:induction false} Placed(cluster: seq<Node>, next: nat, x: InstanceInfo, env: Env) returns (id: int)
    requires ClusterRuns(cluster) && x.Printable() && next < |cluster|
    requires PlaceInstance(cluster, next, x, env).chosen.Some?
    requires PortsInRange(PlaceInstance(cluster, next, x, env).cluster)
    ensures var p := PlaceInstance(cluster, next, x, env); var c := p.chosen.value;
            && c < |cluster| && p.next == c && x.templ in cluster[c].state.templates
            && (forall d :: 0 <= d < |cluster| && x.templ in cluster[d].state.templates ==>
                  Distance(next, c, |cluster|) <= Distance(next, d, |cluster|))
            && |p.cluster| == |cluster| && (forall d :: 0 <= d < |cluster| && d != c ==> p.cluster[d] == cluster[d])
            && p.cluster[c].name == cluster[c].name
            && (var s, s' := cluster[c].state, p.cluster[c].state;
                && s'.templates == s.templates && id !in s.table && id !in s.dirs
                && id in s'.table && s'.table == s.table[id := s'.table[id]] && |s'.table| == |s.table| + 1
                && s'.table[id].templ == s.templates[x.templ] && s'.table[id].memory == x.memory
                   && s'.table[id].cpus == x.cpus
                && Shows(p.reply, MakeFullId(cluster[c].name, ToString(id)), s'.table[id], env.alive))
    ensures var p := PlaceInstance(cluster, next, x, env);
            ClusterRuns(p.cluster) && p.reply.Printable() && Route(p.cluster, p.reply.id) == (p.chosen, ToString(id))
  {
    hide ServeInstantiate, Granted, MakeFullId, Servable, Agreement, ToString, Route, ClusterOk;
    FullLap(next, Offers(cluster, x.templ));
    var p := PlaceInstance(cluster, next, x, env);
    var c := p.chosen.value;
    NodeIsOk(cluster, c);
    assert p.cluster[c].state == ServeInstantiate(cluster[c].state, Asked(x), env).state;
    assert Int32(p.cluster[c].state.nextPort);
    id := GrantFacts(cluster[c].state, x, env);
    SameNamesAreOk(cluster, p.cluster, c);
    var alive := seq(|cluster|, i => env.alive);
    FullInfoPrintable(p.cluster, c, id, alive);
    RouteOf(p.cluster, c, id);
  }

  lemma {:induction false} NodeIsOk(cluster: seq<Node>, c: nat)
    requires ClusterOk(cluster) && c < |cluster|
    ensures Servable(cluster[c].state)
  {
  }

  lemma {:induction false} SameNamesAreOk(a: seq<Node>, b: seq<Node>, c: nat)
    requires ClusterOk(a) && |a| == |b| && c < |a| && (forall d :: 0 <= d < |a| && d != c ==> b[d] == a[d])
    requires b[c].name == a[c].name && Servable(b[c].state)
    ensures ClusterOk(b)
  {
    hide Servable;
  }

  lemma {:induction false} RouteOf(cluster: seq<Node>, c: nat, id: int)
    requires ClusterOk(cluster) && c < |cluster| && SlashFree(cluster[c].name)
    ensures Route(cluster, MakeFullId(cluster[c].name, ToString(id))) == (Some(c), ToString(id))
  {
    hide Route, ToString, Servable;
    RouteIsExact(cluster, c, ToString(id));
  }

  // ----- many requests -----

  datatype Job = Job(request: InstanceInfo, env: Env)

  datatype Grown = Grown(cluster: seq<Node>, next: nat)

  /** Any number of `instantiate` requests, one after the other. */
  function PlaceAll(cluster: seq<Node>, next: nat, jobs: seq<Job>): (g: Grown)
    requires cluster != [] ==> next < |cluster|
    ensures |g.cluster| == |cluster| && (cluster != [] ==> g.next < |cluster|)
  {
    if jobs == [] then Grown(cluster, next)
    else
      var n := |jobs| - 1;
      var g := PlaceAll(cluster, next, jobs[..n]);
      FullLap(g.next, Offers(g.cluster, jobs[n].request.templ));
      var p := PlaceInstance(g.cluster, g.next, jobs[n].request, jobs[n].env);
      Grown(p.cluster, p.next)
  }

  predicate AlwaysInRange(cluster: seq<Node>, next: nat, jobs: seq<Job>)
    requires cluster != [] ==> next < |cluster|
  {
    PortsInRange(PlaceAll(cluster, next, jobs).cluster)
        && (jobs != [] ==> AlwaysInRange(cluster, next, jobs[..|jobs| - 1]))
  }

  /** Whether exactly those controllers have the one template that have the other. */
  predicate SameOffers(cluster: seq<Node>, a: string, b: string) { Offers(cluster, a) == Offers(cluster, b) }

  function Asks(cluster: seq<Node>, jobs: seq<Job>, templ: string): (asks: seq<bool>)
    ensures |asks| == |jobs|
    ensures forall i :: 0 <= i < |jobs| ==> asks[i] == SameOffers(cluster, jobs[i].request.templ, templ)
  {
    seq(|jobs|, i requires 0 <= i < |jobs| => SameOffers(cluster, jobs[i].request.templ, templ))
  }

  predicate Nowhere(cluster: seq<Node>, templ: string) {
    forall c :: 0 <= c < |cluster| ==> templ !in cluster[c].state.templates
  }

  /** Requests that can be read and answered. */
  predicate AllLegal(jobs: seq<Job>) { forall i :: 0 <= i < |jobs| ==> jobs[i].request.Printable() }

  /** Requests for templates that the same controllers have as `templ`, or for templates that no controller has. */
  predicate Alike(cluster: seq<Node>, jobs: seq<Job>, templ: string) {
    forall i :: 0 <= i < |jobs| ==>
      SameOffers(cluster, jobs[i].request.templ, templ) || Nowhere(cluster, jobs[i].request.templ)
  }

  predicate SameTargets(cluster: seq<Node>, jobs: seq<Job>, templ: string) {
    AllLegal(jobs) && Alike(cluster, jobs, templ)
  }

  /** The cluster grows as the abstract placement counts. */
  ghost predicate GrowsAs(cluster: seq<Node>, g: Grown, r: Tally) {
    && |g.cluster| == |cluster| && g.next == r.next
    && forall c :: 0 <= c < |cluster| ==>
         && g.cluster[c].state.templates == cluster[c].state.templates
         && |g.cluster[c].state.table| == |cluster[c].state.table| + Count(r.served, c)
  }

  lemma {:induction false} GrowsOneMore(
    cluster: seq<Node>, g: Grown, r: Tally, job: Job, templ: string)
    requires GrowsAs(cluster, g, r) && ClusterRuns(g.cluster) && g.next < |cluster|
             && SameTargets(cluster, [job], templ)
    requires PortsInRange(PlaceInstance(g.cluster, g.next, job.request, job.env).cluster)
    ensures var p := PlaceInstance(g.cluster, g.next, job.request, job.env);
            var offers := Offers(cluster, templ);
            var q := Place(r.next, if SameOffers(cluster, job.request.templ, templ) then offers
                else NoOffers(|offers|), |offers|);
            && ClusterRuns(p.cluster)
            && GrowsAs(cluster, Grown(p.cluster, p.next),
                       Tally(if q.chosen.Some? then r.served + [q.chosen.value] else r.served, q.next))
  {
    hide ServeInstantiate, Granted, MakeFullId, ClusterRuns, Place, PortsInRange, InstanceInfo.Printable,
      PlaceInstance, SameTargets, SameOffers, Route, ToString, Count, Distance;
    JobOffers(cluster, g.cluster, job, templ);
    var p := PlaceInstance(g.cluster, g.next, job.request, job.env);
    PlacesAs(g.cluster, g.next, job.request, job.env);
    NotPlaced(g.cluster, g.next, job.request, job.env);
    if p.chosen.Some? {
      var id := Placed(g.cluster, g.next, job.request, job.env);
      CountOneMore(r.served, p.chosen.value);
    }
  }

  /** `instantiate` goes where the placement loop goes. */
  lemma {:induction false} PlacesAs(cluster: seq<Node>, next: nat, x: InstanceInfo, env: Env)
    requires cluster != [] ==> next < |cluster|
    ensures var offers := Offers(cluster, x.templ); var p := PlaceInstance(cluster, next, x, env);
            Place(next, offers, |offers|) == Placement.Placed(p.chosen, p.next)
  {
    hide ServeInstantiate, Granted, MakeFullId, Place;
  }

  lemma {:induction false} JobOffers(cluster: seq<Node>, now: seq<Node>, job: Job, templ: string)
    requires SameTargets(cluster, [job], templ) && |now| == |cluster|
    requires forall c :: 0 <= c < |cluster| ==> now[c].state.templates == cluster[c].state.templates
    ensures job.request.Printable()
    ensures var offers := Offers(cluster, templ);
            Offers(now, job.request.templ) == if SameOffers(cluster, job.request.templ, templ) then offers
                else NoOffers(|offers|)
  {
    hide InstanceInfo.Printable;
    assert [job][0] == job;
    assert Offers(now, job.request.templ) == Offers(cluster, job.request.templ);
  }

  lemma {:induction false} GrowsAsCounted(cluster: seq<Node>, next: nat, jobs: seq<Job>, templ: string)
    requires ClusterRuns(cluster) && next < |cluster| && SameTargets(cluster, jobs, templ)
             && AlwaysInRange(cluster, next, jobs)
    ensures ClusterRuns(PlaceAll(cluster, next, jobs).cluster)
    ensures GrowsAs(cluster, PlaceAll(cluster, next, jobs),
            Requests(next, Offers(cluster, templ), Asks(cluster, jobs, templ)))
    decreases |jobs|
  {
    hide PlaceInstance, Place, ClusterRuns, GrowsAs, PortsInRange, InstanceInfo.Printable;
    var offers := Offers(cluster, templ);
    if jobs == [] {
      NothingGrown(cluster, next);
    } else {
      var n := |jobs| - 1;
      GrowsAsCounted(cluster, next, jobs[..n], templ);
      assert Asks(cluster, jobs, templ)[..n] == Asks(cluster, jobs[..n], templ);
      GrowsOneMore(cluster, PlaceAll(cluster, next, jobs[..n]),
          Requests(next, offers, Asks(cluster, jobs[..n], templ)), jobs[n], templ);
    }
  }

  lemma {:induction false} NothingGrown(cluster: seq<Node>, next: nat)
    ensures GrowsAs(cluster, Grown(cluster, next), Tally([], next))
  {
  }

  /**
   Fair placement on the real tables: after any requests for templates that the same controllers have, mixed with any
   that nobody can serve, the numbers of new instances on two of those controllers differ by at most one.
   */
  lemma {:induction false} FairGrowth(cluster: seq<Node>, next: nat, jobs: seq<Job>, templ: string, a: nat, b: nat)
    requires ClusterRuns(cluster) && next < |cluster| && SameTargets(cluster, jobs, templ)
             && AlwaysInRange(cluster, next, jobs)
    requires a < |cluster| && b < |cluster| && templ in cluster[a].state.templates
             && templ in cluster[b].state.templates
    ensures var after := PlaceAll(cluster, next, jobs).cluster;
            var newOnA := |after[a].state.table| - |cluster[a].state.table|;
            var newOnB := |after[b].state.table| - |cluster[b].state.table|;
            -1 <= newOnA - newOnB <= 1
  {
    hide Requests, PlaceAll, ClusterRuns, SameTargets;
    GrowsAsCounted(cluster, next, jobs, templ);
    FairPlacement(next, Offers(cluster, templ), Asks(cluster, jobs, templ), a, b);
  }

  // ----- every request -----

  lemma {:induction false} PrintableIsWellFormed(lines: seq<string>)
    requires lines != [] && AllPrintable(lines)
    ensures WellFormed(lines)
  {
    assert lines[0] != "";
  }

  lemma {:induction false} RunKeepsCluster(cluster: seq<Node>, fullId: string, env: Env)
    requires ClusterRuns(cluster) && PortsInRange(RunAnywhere(cluster, fullId, env).cluster)
    ensures ClusterRuns(RunAnywhere(cluster, fullId, env).cluster)
    ensures WellFormed(RunAnywhere(cluster, fullId, env).lines)
  {
    RunIsAnswered(cluster, fullId, env);
    hide ControllerModel.Run, Servable, Agreement, ToString, Stoi, Route, ClusterOk;
    match Route(cluster, fullId)
    case (None, _) =>
    case (Some(c), id) =>
      RouteInCluster(cluster, fullId);
      var s, a := cluster[c].state, RunAnywhere(cluster, fullId, env);
      NodeIsOk(cluster, c);
      ServableNames(s);
      assert a.cluster[c].state == ServeRun(s, id, env).state;
      assert Int32(a.cluster[c].state.nextPort);
      ServeRunFacts(s, id, env);
      if Stoi(id).Number? { RunFacts(s, Stoi(id).value, env.busy, env.alive, env.child); }
      SameNamesAreOk(cluster, a.cluster, c);
  }

  lemma {:induction false} RunIsAnswered(cluster: seq<Node>, fullId: string, env: Env)
    ensures WellFormed(RunAnywhere(cluster, fullId, env).lines)
  {
    hide ControllerModel.Run, ToString, Stoi, Route;
    TextIsPlain(0);
    TextIsPlain(1);
  }

  lemma {:induction false} RouteInCluster(cluster: seq<Node>, fullId: string)
    ensures Route(cluster, fullId).0.Some? ==> Route(cluster, fullId).0.value < |cluster|
  {
  }

  lemma {:induction false} KillIsAnswered(cluster: seq<Node>, fullId: string, env: Env)
    ensures WellFormed(KillAnywhere(cluster, fullId, env).lines)
  {
    hide Kill, ToString, Stoi, Route;
    TextIsPlain(0);
    TextIsPlain(1);
  }

  lemma {:induction false} TemplatesAreAnswered(cluster: seq<Node>, names: seq<seq<string>>, n: nat)
    requires ClusterOk(cluster) && TemplateOrders(cluster, names) && n <= |cluster|
    ensures var ts := GatheredTemplates(cluster, names, n);
            (forall i :: 0 <= i < |ts| ==> ts[i].Printable()) && (ts == [] <==> n == 0)
    decreases n
  {
    hide Enumerates, Template.Printable, Servable;
    if n > 0 {
      TemplatesAreAnswered(cluster, names, n - 1);
      OneIsAnswered(cluster[n - 1].state, names[n - 1]);
    }
  }

  lemma {:induction false} OneIsAnswered(s: State, order: seq<string>)
    requires Servable(s) && Enumerates(order, s.templates.Keys)
    ensures forall i :: 0 <= i < |order| ==> order[i] in s.templates
    ensures TemplatesIn(s.templates, order) != []
    ensures forall i :: 0 <= i < |order| ==> TemplatesIn(s.templates, order)[i].Printable()
  {
    hide Enumerates, Template.Printable;
    EnumeratesElements(order, s.templates.Keys);
    assert |s.templates.Keys| == |order| && s.templates.Keys != {};
  }

  lemma {:induction false} PlacedOrEchoed(cluster: seq<Node>, next: nat, x: InstanceInfo, env: Env)
    requires ClusterRuns(cluster) && x.Printable() && (cluster != [] ==> next < |cluster|)
    requires PortsInRange(PlaceInstance(cluster, next, x, env).cluster)
    ensures var p := PlaceInstance(cluster, next, x, env);
            ClusterRuns(p.cluster) && WellFormed(p.reply.Serialize()) && |p.cluster| == |cluster|
                && (cluster != [] ==> p.next < |cluster|)
  {
    hide PlaceInstance, ClusterRuns, InstanceInfo.Printable, InstanceInfo.Serialize;
    var p := PlaceInstance(cluster, next, x, env);
    NotPlaced(cluster, next, x, env);
    if p.chosen.Some? { var id := Placed(cluster, next, x, env); }
    PrintableLines(p.reply);
    RecordLength(p.reply);
    PrintableIsWellFormed(p.reply.Serialize());
  }

  /** Whether the answer to a request has no line at all: a listing of nothing. */
  predicate NothingToSay(cluster: seq<Node>, r: seq<string>)
    requires r != []
  {
    (r[0] == "getTemplates" && cluster == []) || (r[0] == "getInstances" && TotalInstances(cluster) == 0)
  }

  /** The lines of an answer are always legal, and there are none exactly for a listing of nothing. */
  lemma {:induction false} HandleLines(cluster: seq<Node>, next: nat, r: seq<string>, env: Env, v: Visit)
    requires ClusterRuns(cluster) && (cluster != [] ==> next < |cluster|)
    requires WellFormedCommand(cluster, r) && Visiting(cluster, v)
    requires PortsInRange(Handle(cluster, next, r, env, v).cluster)
    ensures var h := Handle(cluster, next, r, env, v);
            && ClusterRuns(h.cluster) && |h.cluster| == |cluster| && (cluster != [] ==> h.next < |cluster|)
            && (h.lines == [] <==> NothingToSay(cluster, r))
            && (h.lines != [] ==> WellFormed(h.lines))
  {
    hide PlaceInstance, RunAnywhere, KillAnywhere, InstanceInfo.Deserialize, InstanceInfo.Serialize, Gathered,
      GatheredTemplates, SerializeTemplates, SerializeInstances, ClusterOk, Listings, Enumerates, TotalInstances;
    if r[0] == "getTemplates" {
      ListTemplates(cluster, v.names);
    } else if r[0] == "getInstances" {
      ListInstances(cluster, v);
    } else if r[0] == "instantiate" {
      EchoIsLegal(r);
      PlacedOrEchoed(cluster, next, InstanceInfo.Deserialize(r[1..]).value, env);
    } else if r[0] == "run" {
      if |r| < 2 { NoIdGiven(); } else { RunKeepsCluster(cluster, r[1], env); RunSize(cluster, r[1], env); }
    } else if r[0] == "kill" {
      if |r| < 2 { NoIdGiven(); } else { KillIsAnswered(cluster, r[1], env); }
    }
  }

  lemma {:induction false} RunSize(cluster: seq<Node>, fullId: string, env: Env)
    ensures |RunAnywhere(cluster, fullId, env).cluster| == |cluster|
  {
    hide ServeRun, Route;
    RouteInCluster(cluster, fullId);
  }

  lemma {:induction false} NoIdGiven()
    ensures WellFormed([BoolText(false)])
  {
    TextIsPlain(0);
  }

  lemma {:induction false} ListTemplates(cluster: seq<Node>, names: seq<seq<string>>)
    requires ClusterOk(cluster) && TemplateOrders(cluster, names)
    ensures var lines := SerializeTemplates(GatheredTemplates(cluster, names, |cluster|));
            (lines == [] <==> cluster == []) && (lines != [] ==> WellFormed(lines))
  {
    hide GatheredTemplates, SerializeTemplates, ClusterOk, Enumerates;
    TemplatesAreAnswered(cluster, names, |cluster|);
    TemplateLines(GatheredTemplates(cluster, names, |cluster|));
    if cluster != [] { PrintableIsWellFormed(SerializeTemplates(GatheredTemplates(cluster, names, |cluster|))); }
  }

  lemma {:induction false} ListInstances(cluster: seq<Node>, v: Visit)
    requires ClusterOk(cluster) && Visiting(cluster, v)
    ensures var lines := SerializeInstances(Gathered(cluster, v.maps, v.orders, |cluster|));
            (lines == [] <==> TotalInstances(cluster) == 0) && (lines != [] ==> WellFormed(lines))
  {
    hide ClusterOk, Gathered, SerializeInstances, Enumerates, IsListing, TotalInstances;
    var infos := Gathered(cluster, v.maps, v.orders, |cluster|);
    var origins := GatheredIsAll(cluster, v.maps, v.orders, |cluster|, v.alive);
    assert cluster[..|cluster|] == cluster;
    InfosAreDistinct(cluster, infos, origins, v.alive);
    InstanceLines(infos);
    if infos != [] { PrintableIsWellFormed(SerializeInstances(infos)); }
  }

  /**
   The manager answers a request with exactly one frame if and only if the answer has a line or nothing was written to
   this client before; the cluster stays sound, and an answer with lines reads back as those lines.
   */
  lemma {:induction false} ManagerAnswers(
    cluster: seq<Node>, next: nat, r: seq<string>, env: Env, v: Visit, writeCount: int, rest: string)
    requires ClusterRuns(cluster) && (cluster != [] ==> next < |cluster|)
    requires WellFormedCommand(cluster, r) && Visiting(cluster, v)
    requires PortsInRange(Handle(cluster, next, r, env, v).cluster)
    ensures var h := Handle(cluster, next, r, env, v); var bytes := ReplyBytes(writeCount, h.lines);
            && ClusterRuns(h.cluster)
            && (IsOneFrame(bytes) <==> writeCount == 0 || !NothingToSay(cluster, r))
            && (!NothingToSay(cluster, r) ==>
                  HasFrame(bytes + rest) && FrameLines(bytes + rest) == h.lines && AfterFrame(bytes + rest) == rest)
  {
    hide Handle, ClusterRuns, NothingToSay, ReplyBytes, Encode, Visiting, PortsInRange;
    var h := Handle(cluster, next, r, env, v);
    HandleLines(cluster, next, r, env, v);
    if h.lines == [] {
      BareSend(writeCount);
    } else {
      ReplyIsEncode(writeCount, h.lines);
      MessageIsFrame(h.lines);
      FrameOfMessage(h.lines, rest);
    }
  }

  /**
   From the tables to the client: the bytes that answer `getInstances` hold one frame, and cutting it into lines,
   the lines into records and the records into a map gives exactly one entry per instance of any controller, under its
   full id, with all fields as in its controller's table.
   */
  lemma {:induction false} ClientListing(cluster: seq<Node>, next: nat, env: Env, v: Visit, writeCount: int,
      rest: string)
    requires ClusterOk(cluster) && Visiting(cluster, v) && (cluster != [] ==> next < |cluster|)
    requires TotalInstances(cluster) > 0 || writeCount == 0
    ensures WellFormedCommand(cluster, ["getInstances"])
    ensures var bytes := ReplyBytes(writeCount, Handle(cluster, next, ["getInstances"], env, v).lines) + rest;
            && HasFrame(bytes) && AfterFrame(bytes) == rest
            && |FrameLines(bytes)| % INSTANCE_SIZE == 0 && ParseInstances(FrameLines(bytes)).Some?
            && var m := Index(ParseInstances(FrameLines(bytes)).value, IdOf);
               && |m| == TotalInstances(cluster)
               && (forall c: nat, id :: c < |cluster| && id in cluster[c].state.table ==>
                     var k := MakeFullId(cluster[c].name, ToString(id));
                     k in m && Shows(m[k], k, cluster[c].state.table[id], v.alive[c]))
  {
    hide ClusterOk, IsListing, Enumerates, TemplateOrders, Gathered, GatheredTemplates, SerializeInstances,
      SerializeTemplates, PlaceInstance, Index, ParseInstances, TotalInstances, FullInfo, MakeFullId, ToString,
      ReplyBytes, RunAnywhere, KillAnywhere, HasFrame, FrameLines, AfterFrame, InstanceInfo.Deserialize;
    var infos := Gathered(cluster, v.maps, v.orders, |cluster|);
    Aggregation(cluster, v.maps, v.orders, v.alive);
    AggregationArrives(cluster, v.maps, v.orders, v.alive, writeCount, rest);
    if TotalInstances(cluster) == 0 {
      ListInstances(cluster, v);
      NoInfos(infos);
      FirstEmptyReply(rest);
    }
  }

  lemma {:induction false} NoInfos(infos: seq<InstanceInfo>)
    requires SerializeInstances(infos) == []
    ensures infos == []
  {
  }

  lemma {:induction false} FirstEmptyReply(rest: string)
    ensures var bytes := ReplyBytes(0, []) + rest;
            HasFrame(bytes) && AfterFrame(bytes) == rest && FrameLines(bytes) == [] && ParseInstances([]) == Some([])
  {
    hide FrameText, FrameLen;
    BareSend(0);
    var p := ReplyBytes(0, []);
    FrameExtend(p, rest);
    assert AfterFrame(p) == "";
  }

  /** And the client's map of templates is the union of the controllers' maps. */
  lemma {:induction false} ClientTemplates(cluster: seq<Node>, next: nat, env: Env, v: Visit, writeCount: int,
      rest: string)
    requires ClusterOk(cluster) && Visiting(cluster, v) && next < |cluster|
    ensures WellFormedCommand(cluster, ["getTemplates"])
    ensures var bytes := ReplyBytes(writeCount, Handle(cluster, next, ["getTemplates"], env, v).lines) + rest;
            && HasFrame(bytes) && AfterFrame(bytes) == rest
            && |FrameLines(bytes)| % TEMPLATE_SIZE == 0
            && Index(ParseTemplates(FrameLines(bytes)), NameOf) == AllTemplates(cluster)
  {
    hide ClusterOk, Listings, Enumerates, Gathered, GatheredTemplates, SerializeInstances, SerializeTemplates,
      PlaceInstance, Index, ParseTemplates, AllTemplates, ReplyBytes, RunAnywhere, KillAnywhere, HasFrame, FrameLines,
      AfterFrame, Encode, InstanceInfo.Deserialize, NothingToSay;
    var ts := GatheredTemplates(cluster, v.names, |cluster|);
    ListTemplates(cluster, v.names);
    ReplyIsEncode(writeCount, SerializeTemplates(ts));
    MessageIsFrame(SerializeTemplates(ts));
    FrameOfMessage(SerializeTemplates(ts), rest);
    TemplatesRoundTrip(ts);
    assert cluster[..|cluster|] == cluster;
    AllServable(cluster);
    TemplatesUnion(cluster, v.names, |cluster|);
  }

  lemma {:induction false} AllServable(cluster: seq<Node>)
    requires ClusterOk(cluster)
    ensures forall c :: 0 <= c < |cluster| ==> Servable(cluster[c].state)
  {
  }

  /**
   The client that asked for an instance reads back one record. It is its own request, and nothing has changed, exactly
   when no controller has the template; otherwise it is the one new instance in the cluster, under its full id.
   */
  lemma {:induction false} ClientInstantiate(
    cluster: seq<Node>, next: nat, r: seq<string>, env: Env, v: Visit, writeCount: int, rest: string)
    returns (record: InstanceInfo, id: int)
    requires ClusterRuns(cluster) && (cluster != [] ==> next < |cluster|)
    requires WellFormedCommand(cluster, r) && r[0] == "instantiate" && Visiting(cluster, v)
    requires PortsInRange(Handle(cluster, next, r, env, v).cluster)
    ensures var h := Handle(cluster, next, r, env, v); var bytes := ReplyBytes(writeCount, h.lines) + rest;
            && HasFrame(bytes) && AfterFrame(bytes) == rest
            && |FrameLines(bytes)| == INSTANCE_SIZE && InstanceInfo.Deserialize(FrameLines(bytes)) == Some(record)
    ensures var h := Handle(cluster, next, r, env, v); var x := InstanceInfo.Deserialize(r[1..]).value;
            && |h.cluster| == |cluster|
            && (if forall c :: 0 <= c < |cluster| ==> x.templ !in cluster[c].state.templates then
                  record == x && h.cluster == cluster && h.next == next
                else
                  && h.next < |cluster|
                  && (forall c :: 0 <= c < |cluster| && c != h.next ==> h.cluster[c] == cluster[c])
                  && (var s, s' := cluster[h.next].state, h.cluster[h.next].state;
                      && x.templ in s.templates && id !in s.table && id in s'.table
                         && s'.table == s.table[id := s'.table[id]]
                      && Shows(record, MakeFullId(cluster[h.next].name, ToString(id)), s'.table[id], env.alive)
                      && record.templ == s.templates[x.templ].name && record.memory == x.memory
                         && record.cpus == x.cpus)
                  && Route(h.cluster, record.id) == (Some(h.next), ToString(id)))
  {
    hide PlaceInstance, InstanceInfo.Deserialize, ClusterRuns, PortsInRange, Visiting, ToString, MakeFullId, Route,
      ReplyBytes, HasFrame, FrameLines, AfterFrame, Encode, RunAnywhere, KillAnywhere, Gathered, GatheredTemplates,
      SerializeInstances, SerializeTemplates;
    var x := InstanceInfo.Deserialize(r[1..]).value;
    var p := PlaceInstance(cluster, next, x, env);
    record := p.reply;
    id := 0;
    EchoIsLegal(r);
    PlacedOrEchoed(cluster, next, x, env);
    NotPlaced(cluster, next, x, env);
    if p.chosen.Some? { id := Placed(cluster, next, x, env); }
    RecordReply(record, writeCount, rest);
  }

  lemma {:induction false} RecordReply(x: InstanceInfo, writeCount: int, rest: string)
    requires x.Printable()
    ensures var bytes := ReplyBytes(writeCount, x.Serialize()) + rest;
            && HasFrame(bytes) && AfterFrame(bytes) == rest
            && |FrameLines(bytes)| == INSTANCE_SIZE && InstanceInfo.Deserialize(FrameLines(bytes)) == Some(x)
  {
    hide ToString, Stoi, ReplyBytes, Encode, FrameLines, HasFrame, AfterFrame;
    PrintableLines(x);
    InstanceRoundTrip(x);
    PrintableIsWellFormed(x.Serialize());
    ReplyIsEncode(writeCount, x.Serialize());
    FrameOfMessage(x.Serialize(), rest);
  }

  /**
   `run` and `kill` through the manager: the instance a full id was made for, on its own controller, and nothing
   else.
   */
  lemma {:induction false} RunThroughManager(cluster: seq<Node>, next: nat, c: nat, id: int, env: Env, v: Visit)
    requires ClusterRuns(cluster) && Visiting(cluster, v) && next < |cluster| && c < |cluster| && Int32(id)
    ensures var fullId := MakeFullId(cluster[c].name, ToString(id));
            var r, table := Run(cluster[c].state, id, env.busy, env.alive, env.child), cluster[c].state.table;
            && WellFormedCommand(cluster, ["run", fullId]) && WellFormedCommand(cluster, ["kill", fullId])
            && Handle(cluster, next, ["run", fullId], env, v) ==
               Handled(cluster[c := cluster[c].(state := r.state)], next,
                       [if id in table && !(table[id].pid != 0 && table[id].pid in env.alive) then "1" else "0"])
            && Handle(cluster, next, ["kill", fullId], env, v) ==
               Handled(cluster, next, [if id in table then "1" else "0"])
  {
    hide Route, ToString, Run, Kill, RunAnywhere, KillAnywhere, Servable, Agreement, Listings, Enumerates;
    var fullId := MakeFullId(cluster[c].name, ToString(id));
    TextIsPlain(id);
    RunReachesInstance(cluster, c, id, env);
    RouteIsExact(cluster, c, ToString(id));
    assert RunAnywhere(cluster, fullId, env).cluster ==
           cluster[c := cluster[c].(state := Run(cluster[c].state, id, env.busy, env.alive, env.child).state)];
  }
}
