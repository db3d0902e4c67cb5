/** The manager's command handler: one turn of its loop over one client connection, with the lock held. */
module Managers {
  import opened Wrappers
  import opened Decimal
  import opened Framing
  import opened Records
  import opened ControllerModel
  import opened Sockets
  import opened Servers
  import opened ControllerServers
  import opened ControllerProxies
  import opened Placement
  import opened Clusters

  /** Which controllers have a template. */
  function Offers(cluster: seq<Node>, templ: string): (offers: seq<bool>)
    ensures |offers| == |cluster| && forall c :: 0 <= c < |cluster| ==>
            offers[c] == (templ in cluster[c].state.templates)
  {
    seq(|cluster|, c requires 0 <= c < |cluster| => templ in cluster[c].state.templates)
  }

  /** What the manager's proxy sends to the chosen controller: the request under the id "0" and port 0. */
  function Asked(x: InstanceInfo): InstanceInfo { Ask(x.templ, x.memory, x.cpus) }

  datatype Placing = Placing(cluster: seq<Node>, next: nat, chosen: Option<nat>, reply: InstanceInfo)

  /** `instantiate` on the cluster; `env` is what the host of the chosen controller shows. */
  function PlaceInstance(cluster: seq<Node>, next: nat, x: InstanceInfo, env: Env): Placing
    requires cluster != [] ==> next < |cluster|
  {
    var offers := Offers(cluster, x.templ);
    FullLap(next, offers);
    var p := Place(next, offers, |offers|);
    match p.chosen
    case None => Placing(cluster, p.next, None, x)
    case Some(c) =>
      var s := cluster[c].state;
      var info := Granted(s, Asked(x), env);
      Placing(cluster[c := cluster[c].(state := ServeInstantiate(s, Asked(x), env).state)], p.next, Some(c),
              info.SetId(MakeFullId(cluster[c].name, info.id)))
  }

  /** A request the handler, and the controller it may be passed to, do not die on. */
  predicate WellFormedCommand(cluster: seq<Node>, r: seq<string>) {
    && WellFormed(r)
    && (r[0] == "instantiate" ==> |r| >= 1 + INSTANCE_SIZE && InstanceInfo.Deserialize(r[1..]).Some?)
    && (r[0] == "run" || r[0] == "kill" ==> |r| >= 2 ==> Route(cluster, r[1]).0.Some? ==> Route(cluster, r[1]).1 != "")
  }

  /**
   The orders in which maps are visited: for each controller its templates (there and here), its table, and here the
   map that its proxy returns for it; and the processes alive on its host.
   */
  datatype Visit = Visit(
    names: seq<seq<string>>, ids: seq<seq<int>>, maps: seq<map<string, InstanceInfo>>, orders: seq<seq<string>>,
    alive: seq<set<int>>)

  ghost predicate TemplateOrders(cluster: seq<Node>, names: seq<seq<string>>) {
    |names| == |cluster| && forall c :: 0 <= c < |cluster| ==> Enumerates(names[c], cluster[c].state.templates.Keys)
  }

  ghost predicate TableOrders(cluster: seq<Node>, ids: seq<seq<int>>) {
    |ids| == |cluster| && forall c :: 0 <= c < |cluster| ==> Enumerates(ids[c], cluster[c].state.table.Keys)
  }

  ghost predicate Visiting(cluster: seq<Node>, v: Visit) {
    TemplateOrders(cluster, v.names) && TableOrders(cluster, v.ids) && Listings(cluster, v.maps, v.orders, v.alive)
  }

  /** No counter leaves the range of `int`. */
  predicate PortsInRange(cluster: seq<Node>) {
    forall c :: 0 <= c < |cluster| ==> Int32(cluster[c].state.nextPort)
  }

  datatype Handled = Handled(cluster: seq<Node>, next: nat, lines: seq<string>)

  /** The whole of one request: the new cluster, the new `nextController`, and the lines of the answer. */
  ghost function Handle(cluster: seq<Node>, next: nat, r: seq<string>, env: Env, v: Visit): Handled
    requires cluster != [] ==> next < |cluster|
    requires WellFormedCommand(cluster, r) && Visiting(cluster, v)
  {
    if r[0] == "getTemplates" then
      Handled(cluster, next, SerializeTemplates(GatheredTemplates(cluster, v.names, |cluster|)))
    else if r[0] == "getInstances" then
      Handled(cluster, next, SerializeInstances(Gathered(cluster, v.maps, v.orders, |cluster|)))
    else if r[0] == "instantiate" then
      var p := PlaceInstance(cluster, next, InstanceInfo.Deserialize(r[1..]).value, env);
      Handled(p.cluster, p.next, p.reply.Serialize())
    else if r[0] == "run" then
      var a := if |r| < 2 then Answered(cluster, [BoolText(false)]) else RunAnywhere(cluster, r[1], env);
      Handled(a.cluster, next, a.lines)
    else if r[0] == "kill" then
      Handled(cluster, next, if |r| < 2 then [BoolText(false)] else KillAnywhere(cluster, r[1], env).lines)
    else Handled(cluster, next, [UNKNOWN])
  }

  // ----- printing one record after the other -----

  lemma {:induction false} OneMoreTemplate(ts: seq<Template>, t: Template)
    ensures SerializeTemplates(ts + [t]) == SerializeTemplates(ts) + t.Serialize()
  {
    assert (ts + [t])[..|ts|] == ts;
  }

  lemma {:induction false} OneMoreInstance(infos: seq<InstanceInfo>, x: InstanceInfo)
    ensures SerializeInstances(infos + [x]) == SerializeInstances(infos) + x.Serialize()
  {
    assert (infos + [x])[..|infos|] == infos;
  }

  lemma {:induction false} OneMoreIn(done: seq<Template>, templates: map<string, Template>, order: seq<string>, i: nat)
    requires i < |order| && forall j :: 0 <= j < |order| ==> order[j] in templates
    ensures done + TemplatesIn(templates, order[..i + 1]) == (done + TemplatesIn(templates, order[..i])) +
            [templates[order[i]]]
  {
  }

  lemma {:induction false} OneMoreRenamed(done: seq<InstanceInfo>, name: string, m: map<string, InstanceInfo>,
      order: seq<string>, i: nat)
    requires i < |order| && forall j :: 0 <= j < |order| ==> order[j] in m
    ensures done + Renamed(name, m, order[..i + 1]) ==
            (done + Renamed(name, m, order[..i])) + [m[order[i]].SetId(MakeFullId(name, m[order[i]].id))]
  {
    hide MakeFullId;
  }

  /** A search that stopped at `c`, or ran off the end, has found the first controller of the name. */
  lemma {:induction false} FirstNamedIs(cluster: seq<Node>, name: string, c: nat)
    requires c <= |cluster| && forall i :: 0 <= i < c ==> cluster[i].name != name
    requires c < |cluster| ==> cluster[c].name == name
    ensures FirstNamed(cluster, name) == if c < |cluster| then Some(c) else None
  {
  }

  /** A table has one listing only. */
  lemma {:induction false} SameListing(a: map<string, InstanceInfo>, b: map<string, InstanceInfo>,
      table: map<int, Entry>, alive: set<int>)
    requires IsListing(a, table, alive) && IsListing(b, table, alive)
    ensures a == b
  {
    hide ToString;
    forall k ensures k in a <==> k in b {
      if k in a { var id :| id in table && k == ToString(id); assert ToString(id) in b; }
      if k in b { var id :| id in table && k == ToString(id); assert ToString(id) in a; }
    }
    forall k | k in a ensures a[k] == b[k] {
      var id :| id in table && k == ToString(id);
      assert Shows(a[k], k, table[id], alive) && Shows(b[k], k, table[id], alive);
    }
  }

  /** What a request asks for can be passed on. */
  lemma {:induction false} RequestInRange(r: seq<string>)
    requires |r| >= 1 + INSTANCE_SIZE && InstanceInfo.Deserialize(r[1..]).Some?
    ensures var x := InstanceInfo.Deserialize(r[1..]).value; Int32(x.memory) && Int32(x.cpus)
  {
    hide Stoi;
    StoiInRange(r[1..][2]);
    StoiInRange(r[1..][3]);
  }

  lemma {:induction false} TemplateCanBeAsked(s: State, templ: string)
    requires Servable(s) && templ in s.templates
    ensures var t := s.templates[templ]; t.name == templ && Clean(t.name) && t.name != ""
  {
    assert s.templates[templ].Serialize()[0] == s.templates[templ].name;
  }

  lemma {:induction false} IdPartIsClean(fullId: string)
    requires Clean(fullId)
    ensures Clean(ExtractIdParts(fullId).1)
  {
  }

  /** One turn of the placement loop, when the lap that began at `start` has come to `next` with `tries` turns left. */
  lemma {:induction false} PlacingTurn(cluster: seq<Node>, start: nat, next: nat, x: InstanceInfo, env: Env, tries: nat)
    requires start < |cluster| && next < |cluster| && 0 < tries <= |cluster|
    requires var offers := Offers(cluster, x.templ); Place(start, offers, |offers|) == Place(next, offers, tries)
    ensures var n := AdvanceModulo(next, |cluster|); var offers := Offers(cluster, x.templ);
            && n < |cluster|
            && (x.templ !in cluster[n].state.templates ==>
               Place(start, offers, |offers|) == Place(n, offers, tries - 1))
            && (x.templ in cluster[n].state.templates ==>
                  var info := Granted(cluster[n].state, Asked(x), env);
                  PlaceInstance(cluster, start, x, env) ==
                  Placing(cluster[n := cluster[n].(state := ServeInstantiate(cluster[n].state, Asked(x), env).state)],
                      n, Some(n),
                          info.SetId(MakeFullId(cluster[n].name, info.id))))
  {
    hide Granted, ServeInstantiate, MakeFullId;
    AdvanceIs(next, |cluster|);
    FullLap(start, Offers(cluster, x.templ));
  }

  lemma {:induction false} PlacingEnds(cluster: seq<Node>, start: nat, next: nat, x: InstanceInfo, env: Env)
    requires cluster != [] ==> start < |cluster|
    requires var offers := Offers(cluster, x.templ); Place(start, offers, |offers|) == Place(next, offers, 0)
    ensures PlaceInstance(cluster, start, x, env) == Placing(cluster, next, None, x)
  {
    hide Granted, ServeInstantiate, MakeFullId;
    FullLap(start, Offers(cluster, x.templ));
  }

  lemma {:induction false} ChosenInRange(cluster: seq<Node>, n: nat, s: State)
    requires n < |cluster| && PortsInRange(cluster[n := cluster[n].(state := s)])
    ensures Int32(s.nextPort)
  {
    assert cluster[n := cluster[n].(state := s)][n].state == s;
  }

  // ----- the handler -----

  /** `ControllerRef`: a name from the controllers file, and the proxy connected to that controller. */
  datatype ControllerRef = ControllerRef(id: string, proxy: ControllerProxy)

  /**
   The proxy's objects are `objects`, nothing is under way on its connection, and the node is what stands behind it.
   */
  ghost predicate Behind(r: ControllerRef, objects: set<object>, node: Node)
    reads objects
  {
    && r.proxy.Core() <= objects && r.proxy.Repr() == objects && r.proxy.Valid()
    && node == Node(r.id, r.proxy.View())
  }

  /** What all handlers share, guarded by the one mutex: the controllers, and where the last instance went. */
  class Manager {
    const controllers: seq<ControllerRef>
    var nextController: nat

    /** The objects behind each proxy, and the cluster they make up. */
    ghost var repr: seq<set<object>>
    ghost var cluster: seq<Node>

    ghost function All(): set<object>
      reads this`repr
    { set c, o | 0 <= c < |repr| && o in repr[c] :: o }

    ghost predicate Valid()
      reads this, All()
    {
      && |repr| == |cluster| == |controllers| && this !in All()
      && (controllers != [] ==> nextController < |controllers|)
      && (forall c, d :: 0 <= c < d < |repr| ==> repr[c] !! repr[d])
      && (forall c :: 0 <= c < |repr| ==> repr[c] <= All() && Behind(controllers[c], repr[c], cluster[c]))
    }

    /** Connected proxies, no two of which share an object. */
    constructor (controllers: seq<ControllerRef>)
      requires forall c :: 0 <= c < |controllers| ==> controllers[c].proxy.Valid()
      requires forall c, d :: 0 <= c < d < |controllers| ==> controllers[c].proxy.Repr() !! controllers[d].proxy.Repr()
      ensures Valid() && this.controllers == controllers && nextController == 0
      ensures |repr| == |cluster| == |controllers|
      ensures forall c :: 0 <= c < |controllers| ==>
                && repr[c] == old(controllers[c].proxy.Repr())
                && cluster[c] == Node(controllers[c].id, old(controllers[c].proxy.View()))
    {
      hide ControllerProxy.Valid, ControllerProxy.View, ControllerProxy.Repr, ControllerProxy.Core;
      ghost var objects: seq<set<object>>, nodes: seq<Node> := [], [];
      for n := 0 to |controllers|
        invariant |objects| == |nodes| == n
        invariant forall c :: 0 <= c < n ==>
                    && objects[c] == old(controllers[c].proxy.Repr())
                    && nodes[c] == Node(controllers[c].id, old(controllers[c].proxy.View()))
                    && Behind(controllers[c], objects[c], nodes[c])
        modifies {}
      {
        controllers[n].proxy.WithinRepr();
        objects := objects + [controllers[n].proxy.Repr()];
        nodes := nodes + [Node(controllers[n].id, controllers[n].proxy.View())];
      }
      this.controllers, nextController := controllers, 0;
      repr, cluster := objects, nodes;
    }

    /** After a call of proxy `c`: the objects behind it now, and what its controller became. */
    ghost method Refresh(c: nat, objects: set<object>, node: Node)
      requires c < |repr| == |cluster|
      modifies this`repr, this`cluster
      ensures repr == old(repr)[c := objects] && cluster == old(cluster)[c := node]
    {
      repr, cluster := repr[c := objects], cluster[c := node];
    }

    /** Other controllers do not notice. */
    twostate lemma StaysValid(c: nat)
      requires old(Valid()) && c < |old(repr)| && nextController == old(nextController)
      requires |repr| == |old(repr)| == |cluster| == |old(cluster)|
      requires forall d :: 0 <= d < |repr| && d != c ==> repr[d] == old(repr[d]) && cluster[d] == old(cluster[d])
      requires Behind(controllers[c], repr[c], cluster[c]) && this !in repr[c]
      requires fresh(repr[c] - old(repr[c]))
      requires forall d :: 0 <= d < |old(repr)| && d != c ==> unchanged(old(repr[d]))
      ensures Valid() && fresh(All() - old(All()))
    {
      hide Behind;
      forall d | 0 <= d < |repr| ensures Behind(controllers[d], repr[d], cluster[d]) {
        if d != c { assert old(Behind(controllers[d], repr[d], cluster[d])); }
      }
    }

    lemma {:induction false} AllServe()
      requires Valid()
      ensures forall c :: 0 <= c < |cluster| ==> Servable(cluster[c].state)
    {
      hide Servable;
      forall c | 0 <= c < |cluster| ensures Servable(cluster[c].state) {
        assert Behind(controllers[c], repr[c], cluster[c]);
      }
    }

    lemma {:induction false} Sizes()
      requires Valid()
      ensures |repr| == |cluster| == |controllers| && (controllers != [] ==> nextController < |controllers|)
      ensures forall c :: 0 <= c < |repr| ==> repr[c] <= All()
    {
      hide Behind;
    }

    lemma {:induction false} NotBehindItself()
      requires Valid()
      ensures this !in All()
    {
      hide Behind;
    }

    lemma {:induction false} SameNames(c: nat)
      requires Valid() && c < |cluster|
      ensures c < |controllers| && cluster[c].name == controllers[c].id
    {
      assert Behind(controllers[c], repr[c], cluster[c]);
    }

    /** `nextController = advanceModulo(nextController)`. */
    method Advance()
      requires Valid() && controllers != []
      modifies this`nextController
      ensures Valid() && nextController == AdvanceModulo(old(nextController), |controllers|)
    {
      hide Behind;
      nextController := AdvanceModulo(nextController, |controllers|);
    }

    // ----- calls of one proxy -----

    method GetTemplates(c: nat, env: Env, names: seq<string>) returns (result: map<string, Template>)
      requires Valid() && c < |cluster| && Enumerates(names, cluster[c].state.templates.Keys)
      modifies this`repr, this`cluster, repr[c]
      ensures Valid() && cluster == old(cluster) && fresh(All() - old(All()))
      ensures result == old(cluster)[c].state.templates
    {
      hide Enumerates, ControllerProxy.Valid, ControllerProxy.View, ControllerProxy.Repr, ControllerProxy.Core;
      var proxy := controllers[c].proxy;
      assert Behind(controllers[c], repr[c], cluster[c]);
      proxy.WithinRepr();
      result := proxy.GetTemplates(env, names);
      proxy.WithinRepr();
      ghost var objects, node := proxy.Repr(), Node(controllers[c].id, proxy.View());
      assert Behind(controllers[c], objects, node);
      assert node == old(cluster[c]) && cluster[c := node] == cluster;
      Refresh(c, objects, node);
      StaysValid(c);
    }

    method GetInstances(c: nat, env: Env, ids: seq<int>) returns (result: map<string, InstanceInfo>)
      requires Valid() && c < |cluster| && Enumerates(ids, cluster[c].state.table.Keys)
      modifies this`repr, this`cluster, repr[c]
      ensures Valid() && cluster == old(cluster) && fresh(All() - old(All()))
      ensures IsListing(result, old(cluster)[c].state.table, env.alive)
    {
      hide Enumerates, IsListing, ControllerProxy.Valid, ControllerProxy.View, ControllerProxy.Repr,
        ControllerProxy.Core;
      var proxy := controllers[c].proxy;
      assert Behind(controllers[c], repr[c], cluster[c]);
      proxy.WithinRepr();
      result := proxy.GetInstances(env, ids);
      proxy.WithinRepr();
      ghost var objects, node := proxy.Repr(), Node(controllers[c].id, proxy.View());
      assert Behind(controllers[c], objects, node);
      assert node == old(cluster[c]) && cluster[c := node] == cluster;
      Refresh(c, objects, node);
      StaysValid(c);
    }

    method Instantiate(c: nat, templ: Template, memory: int, cpus: int, env: Env) returns (result: InstanceInfo)
      requires Valid() && c < |cluster| && Clean(templ.name) && templ.name != "" && Int32(memory) && Int32(cpus)
      requires Int32(ServeInstantiate(cluster[c].state, Ask(templ.name, memory, cpus), env).state.nextPort)
      modifies this`repr, this`cluster, repr[c]
      ensures Valid() && fresh(All() - old(All()))
      ensures var s, x := old(cluster)[c].state, Ask(templ.name, memory, cpus);
              && cluster == old(cluster)[c := old(cluster)[c].(state := ServeInstantiate(s, x, env).state)]
              && result == Granted(s, x, env)
    {
      hide ServeInstantiate, Granted, ControllerProxy.Valid, ControllerProxy.View, ControllerProxy.Repr,
        ControllerProxy.Core;
      var proxy := controllers[c].proxy;
      assert Behind(controllers[c], repr[c], cluster[c]);
      proxy.WithinRepr();
      result := proxy.Instantiate(templ, memory, cpus, env);
      proxy.WithinRepr();
      ghost var objects, node := proxy.Repr(), Node(controllers[c].id, proxy.View());
      assert Behind(controllers[c], objects, node);
      Refresh(c, objects, node);
      StaysValid(c);
    }

    method Run(c: nat, id: string, env: Env) returns (ok: bool)
      requires Valid() && c < |cluster| && Clean(id) && id != ""
      requires Int32(ServeRun(cluster[c].state, id, env).state.nextPort)
      modifies this`repr, this`cluster, repr[c]
      ensures Valid() && fresh(All() - old(All()))
      ensures var s := old(cluster)[c].state;
              && cluster == old(cluster)[c := old(cluster)[c].(state := ServeRun(s, id, env).state)]
              && (ok <==> CanStart(s, id, env.alive))
    {
      hide ServeRun, Stoi, ControllerModel.Run, ControllerProxy.Valid, ControllerProxy.View, ControllerProxy.Repr,
        ControllerProxy.Core;
      var proxy := controllers[c].proxy;
      assert Behind(controllers[c], repr[c], cluster[c]);
      proxy.WithinRepr();
      ok := proxy.Run(id, env);
      proxy.WithinRepr();
      ghost var objects, node := proxy.Repr(), Node(controllers[c].id, proxy.View());
      assert Behind(controllers[c], objects, node);
      Refresh(c, objects, node);
      StaysValid(c);
    }

    method Kill(c: nat, id: string, env: Env) returns (ok: bool)
      requires Valid() && c < |cluster| && Clean(id) && id != ""
      modifies this`repr, this`cluster, repr[c]
      ensures Valid() && fresh(All() - old(All())) && cluster == old(cluster)
      ensures ok <==> Known(old(cluster)[c].state, id)
    {
      hide Stoi, ControllerModel.Kill, ControllerProxy.Valid, ControllerProxy.View, ControllerProxy.Repr,
        ControllerProxy.Core;
      var proxy := controllers[c].proxy;
      assert Behind(controllers[c], repr[c], cluster[c]);
      proxy.WithinRepr();
      ok := proxy.Kill(id, env);
      proxy.WithinRepr();
      ghost var objects, node := proxy.Repr(), Node(controllers[c].id, proxy.View());
      assert Behind(controllers[c], objects, node);
      assert node == old(cluster[c]) && cluster[c := node] == cluster;
      Refresh(c, objects, node);
      StaysValid(c);
    }
  }

  class CommandHandler {
    const socket: Socket
    const manager: Manager

    /** The client's connection is none of those to controllers. */
    ghost predicate Valid()
      reads socket, manager, manager.All()
    {
      && socket.Valid() && manager.Valid()
      && socket !in manager.All() && socket.inbound !in manager.All() && socket.outbound !in manager.All()
    }

    constructor (socket: Socket, manager: Manager)
      requires socket.Valid() && manager.Valid()
      requires socket !in manager.All() && socket.inbound !in manager.All() && socket.outbound !in manager.All()
      ensures Valid() && this.socket == socket && this.manager == manager
    {
      this.socket, this.manager := socket, manager;
    }

    method WriteTemplates(env: Env, names: seq<seq<string>>)
      requires Valid() && TemplateOrders(manager.cluster, names)
      modifies socket`writeCount, socket`sent, socket.outbound, manager`repr, manager`cluster, manager.All()
      ensures Valid() && fresh(manager.All() - old(manager.All())) && manager.cluster == old(manager.cluster)
      ensures socket.Wrote(old(socket.outbound.pending), old(socket.writeCount),
                    SerializeTemplates(GatheredTemplates(manager.cluster, names, |manager.cluster|)))
    {
      hide SerializeTemplates, Socket.Wrote, Enumerates, Manager.Valid;
      ghost var cluster := manager.cluster;
      manager.Sizes();
      assert socket.Wrote(socket.outbound.pending, socket.writeCount, SerializeTemplates([])) by {
        socket.WroteNothing();
        NoLines(map[], map[], {});
      }
      for c := 0 to |manager.controllers|
        invariant Valid() && fresh(manager.All() - old(manager.All())) && manager.cluster == cluster
        invariant socket.Wrote(old(socket.outbound.pending), old(socket.writeCount),
                        SerializeTemplates(GatheredTemplates(cluster, names, c)))
      {
        manager.Sizes();
        var templates := manager.GetTemplates(c, env, names[c]);
        var order := names[c];
        EmitTemplates(templates, order, GatheredTemplates(cluster, names, c), old(socket.outbound.pending),
            old(socket.writeCount));
      }
    }

    /** The inner loop: the templates of one controller, after those in `done`. */
    method EmitTemplates(
      templates: map<string, Template>, order: seq<string>, ghost done: seq<Template>, ghost before: string,
          ghost countBefore: int)
      requires socket.Valid() && Enumerates(order, templates.Keys)
               && socket.Wrote(before, countBefore, SerializeTemplates(done))
      modifies socket`writeCount, socket`sent, socket.outbound
      ensures socket.Valid() && forall i :: 0 <= i < |order| ==> order[i] in templates
      ensures socket.Wrote(before, countBefore, SerializeTemplates(done + TemplatesIn(templates, order)))
    {
      hide SerializeTemplates, Socket.Wrote, Enumerates;
      EnumeratesElements(order, templates.Keys);
      assert done + TemplatesIn(templates, order[..0]) == done;
      for i := 0 to |order|
        invariant socket.Valid() && socket.Wrote(before, countBefore,
                  SerializeTemplates(done + TemplatesIn(templates, order[..i])))
      {
        OneMoreIn(done, templates, order, i);
        OneMoreTemplate(done + TemplatesIn(templates, order[..i]), templates[order[i]]);
        socket.Emit(templates[order[i]].Serialize(), before, countBefore,
            SerializeTemplates(done + TemplatesIn(templates, order[..i])));
      }
      assert order[..|order|] == order;
    }

    method WriteInstances(ids: seq<seq<int>>, ghost maps: seq<map<string, InstanceInfo>>, orders: seq<seq<string>>,
    alive: seq<set<int>>)
      requires Valid() && TableOrders(manager.cluster, ids) && Listings(manager.cluster, maps, orders, alive)
      modifies socket`writeCount, socket`sent, socket.outbound, manager`repr, manager`cluster, manager.All()
      ensures Valid() && fresh(manager.All() - old(manager.All())) && manager.cluster == old(manager.cluster)
      ensures socket.Wrote(old(socket.outbound.pending), old(socket.writeCount),
                    SerializeInstances(Gathered(manager.cluster, maps, orders, |manager.cluster|)))
    {
      hide SerializeInstances, Socket.Wrote, Enumerates, MakeFullId, IsListing, Manager.Valid;
      ghost var cluster := manager.cluster;
      manager.Sizes();
      assert socket.Wrote(socket.outbound.pending, socket.writeCount, SerializeInstances([])) by {
        socket.WroteNothing();
        NoLines(map[], map[], {});
      }
      for c := 0 to |manager.controllers|
        invariant Valid() && fresh(manager.All() - old(manager.All())) && manager.cluster == cluster
        invariant socket.Wrote(old(socket.outbound.pending), old(socket.writeCount),
                        SerializeInstances(Gathered(cluster, maps, orders, c)))
      {
        manager.Sizes();
        var m := manager.GetInstances(c, Env({}, {}, alive[c], 0), ids[c]);
        SameListing(m, maps[c], cluster[c].state.table, alive[c]);
        manager.SameNames(c);
        EmitInstances(manager.controllers[c].id, m, orders[c], Gathered(cluster, maps, orders, c),
             old(socket.outbound.pending), old(socket.writeCount));
      }
    }

    /** The inner loop: the instances of one controller under full ids, after those in `done`. */
    method EmitInstances(
      name: string, m: map<string, InstanceInfo>, order: seq<string>, ghost done: seq<InstanceInfo>,
      ghost before: string, ghost countBefore: int)
      requires socket.Valid() && Enumerates(order, m.Keys)
               && socket.Wrote(before, countBefore, SerializeInstances(done))
      modifies socket`writeCount, socket`sent, socket.outbound
      ensures socket.Valid() && forall i :: 0 <= i < |order| ==> order[i] in m
      ensures socket.Wrote(before, countBefore, SerializeInstances(done + Renamed(name, m, order)))
    {
      hide SerializeInstances, Socket.Wrote, Enumerates, MakeFullId;
      EnumeratesElements(order, m.Keys);
      assert done + Renamed(name, m, order[..0]) == done;
      for i := 0 to |order|
        invariant socket.Valid() && socket.Wrote(before, countBefore,
                  SerializeInstances(done + Renamed(name, m, order[..i])))
      {
        OneMoreRenamed(done, name, m, order, i);
        var instance := m[order[i]];
        var fullId := MakeFullId(name, instance.id);
        instance := instance.SetId(fullId);
        OneMoreInstance(done + Renamed(name, m, order[..i]), instance);
        socket.Emit(instance.Serialize(), before, countBefore, SerializeInstances(done + Renamed(name, m, order[..i])));
      }
      assert order[..|order|] == order;
    }

    /** One turn of the placement loop: advance, and grant the request if that controller has the template. */
    method TryNext(request: InstanceInfo, env: Env, names: seq<seq<string>>, ghost before: string,
        ghost countBefore: int)
      returns (placed: bool)
      requires Valid() && socket.Wrote(before, countBefore, [])
      requires TemplateOrders(manager.cluster, names) && Int32(request.memory) && Int32(request.cpus)
      requires |manager.cluster| == |manager.controllers| > 0
      requires var n := AdvanceModulo(manager.nextController, |manager.cluster|);
               request.templ in manager.cluster[n].state.templates ==>
                 Int32(ServeInstantiate(manager.cluster[n].state, Asked(request), env).state.nextPort)
      modifies socket`writeCount, socket`sent, socket.outbound, manager, manager.All()
      ensures Valid() && fresh(manager.All() - old(manager.All()))
      ensures manager.nextController == AdvanceModulo(old(manager.nextController), |old(manager.cluster)|)
      ensures var node := old(manager.cluster)[manager.nextController];
              && (placed <==> request.templ in node.state.templates)
              && (!placed ==> manager.cluster == old(manager.cluster)
                              && socket.Wrote(before, countBefore, []))
              && (placed ==>
                    var info := Granted(node.state, Asked(request), env);
                    && manager.cluster == old(manager.cluster)[manager.nextController :=
                         node.(state := ServeInstantiate(node.state, Asked(request), env).state)]
                    && socket.Wrote(before, countBefore,
                             info.SetId(MakeFullId(node.name, info.id)).Serialize()))
    {
      hide InstanceInfo.Serialize, Socket.Wrote, Enumerates, Servable, Granted, ServeInstantiate, MakeFullId,
        Manager.Valid;
      ghost var cluster := manager.cluster;
      manager.Sizes();
      manager.AllServe();
      manager.Advance();
      manager.Sizes();
      manager.NotBehindItself();
      var n := manager.nextController;
      manager.SameNames(n);
      var templates := manager.GetTemplates(n, env, names[n]);
      var order := names[n];
      EnumeratesElements(order, templates.Keys);
      var i := 0;
      while i < |order| && order[i] != request.templ
        invariant 0 <= i <= |order| && forall j :: 0 <= j < i ==> order[j] != request.templ
        modifies {}
      {
        i := i + 1;
      }
      placed := i < |order|;
      if placed {
        TemplateCanBeAsked(cluster[n].state, request.templ);
        manager.Sizes();
        manager.NotBehindItself();
        var inst := manager.Instantiate(n, templates[order[i]], request.memory, request.cpus, env);
        inst := inst.SetId(MakeFullId(manager.controllers[n].id, inst.id));
        assert [] + inst.Serialize() == inst.Serialize();
        socket.Emit(inst.Serialize(), before, countBefore, []);
      }
    }

    /**
     The placement loop, with the sentinel -100 and the C++ loop condition `tries --> 0` as they are: `tries` ends as
     -101 after a success and as -1 after an unsuccessful lap, also when there is no controller at all.
     */
    method AnswerInstantiate(commands: seq<string>, env: Env, names: seq<seq<string>>)
      requires Valid() && |commands| >= 1 + INSTANCE_SIZE && InstanceInfo.Deserialize(commands[1..]).Some?
      requires TemplateOrders(manager.cluster, names)
      requires PortsInRange(PlaceInstance(manager.cluster, manager.nextController,
                                          InstanceInfo.Deserialize(commands[1..]).value, env).cluster)
      modifies socket`writeCount, socket`sent, socket.outbound, manager, manager.All()
      ensures Valid() && fresh(manager.All() - old(manager.All()))
      ensures var p := PlaceInstance(old(manager.cluster), old(manager.nextController),
                                     InstanceInfo.Deserialize(commands[1..]).value, env);
              && manager.cluster == p.cluster && manager.nextController == p.next
              && socket.Wrote(old(socket.outbound.pending), old(socket.writeCount), p.reply.Serialize())
    {
      hide InstanceInfo.Deserialize, InstanceInfo.Serialize, Socket.Wrote, Enumerates, Granted, ServeInstantiate,
        MakeFullId, Manager.Valid, Place, PlaceInstance, PortsInRange, AdvanceModulo;
      manager.Sizes();
      var request := InstanceInfo.Deserialize(commands[1..]).value;
      RequestInRange(commands);
      ghost var cluster, next := manager.cluster, manager.nextController;
      ghost var offers := Offers(cluster, request.templ);
      ghost var p := PlaceInstance(cluster, next, request, env);
      assert socket.Wrote(socket.outbound.pending, socket.writeCount, []) by { socket.WroteNothing(); }
      var tries: int := |manager.controllers|;
      var again := tries > 0;
      tries := tries - 1;
      while again
        invariant Valid() && fresh(manager.All() - old(manager.All()))
        invariant (again <==> tries >= 0) && tries < |cluster|
        invariant tries >= -1 ==>
                    && manager.cluster == cluster
                    && Place(next, offers, |offers|) == Place(manager.nextController, offers, tries + 1)
                    && socket.Wrote(old(socket.outbound.pending), old(socket.writeCount), [])
        invariant tries < -1 ==>
                    && tries == -101
                    && manager.cluster == p.cluster && manager.nextController == p.next
                    && socket.Wrote(old(socket.outbound.pending), old(socket.writeCount), p.reply.Serialize())
        decreases tries
      {
        manager.Sizes();
        ghost var n := AdvanceModulo(manager.nextController, |cluster|);
        PlacingTurn(cluster, next, manager.nextController, request, env, tries + 1);
        if request.templ in cluster[n].state.templates {
          ChosenInRange(cluster, n, ServeInstantiate(cluster[n].state, Asked(request), env).state);
        }
        var placed := TryNext(request, env, names, old(socket.outbound.pending), old(socket.writeCount));
        if placed { tries := -100; }
        again := tries > 0;
        tries := tries - 1;
      }
      if tries > -10 {
        PlacingEnds(cluster, next, manager.nextController, request, env);
        assert [] + request.Serialize() == request.Serialize();
        socket.Emit(request.Serialize(), old(socket.outbound.pending), old(socket.writeCount), []);
      }
    }

    /** Asks the first controller of the name in front of the slash; the text after the slash is its id there. */
    method AnswerRun(commands: seq<string>, env: Env)
      requires Valid() && WellFormedCommand(manager.cluster, commands) && commands[0] == "run"
      requires |commands| >= 2 ==> PortsInRange(RunAnywhere(manager.cluster, commands[1], env).cluster)
      modifies socket`writeCount, socket`sent, socket.outbound, manager`repr, manager`cluster, manager.All()
      ensures Valid() && fresh(manager.All() - old(manager.All()))
      ensures var a := if |commands| < 2 then Answered(old(manager.cluster), [BoolText(false)])
                       else RunAnywhere(old(manager.cluster), commands[1], env);
              && manager.cluster == a.cluster
              && socket.Wrote(old(socket.outbound.pending), old(socket.writeCount), a.lines)
    {
      hide ToString, Stoi, ControllerModel.Run, Manager.Valid, Socket.Wrote, InstanceInfo.Deserialize;
      manager.Sizes();
      var result := false;
      if |commands| >= 2 {
        IdPartIsClean(commands[1]);
        var idParts := ExtractIdParts(commands[1]);
        var c := FindController(idParts.0);
        if c < |manager.controllers| {
          ChosenInRange(manager.cluster, c, ServeRun(manager.cluster[c].state, idParts.1, env).state);
          ResultLines(manager.cluster[c].state, idParts.1, env);
          result := manager.Run(c, idParts.1, env);
        }
      }
      socket.WriteOnly(BoolText(result));
    }

    /** The search loop of `run` and `kill`; the number of controllers stands for "not found". */
    method FindController(name: string) returns (c: nat)
      requires Valid()
      ensures c <= |manager.cluster| == |manager.controllers|
      ensures FirstNamed(manager.cluster, name) == if c < |manager.cluster| then Some(c) else None
    {
      hide Manager.Valid;
      manager.Sizes();
      c := 0;
      while c < |manager.controllers|
        invariant c <= |manager.controllers|
        invariant forall i :: 0 <= i < c ==> manager.cluster[i].name != name
      {
        manager.SameNames(c);
        if manager.controllers[c].id == name { break; }
        c := c + 1;
      }
      FirstNamedIs(manager.cluster, name, c);
    }

    method AnswerKill(commands: seq<string>, env: Env)
      requires Valid() && WellFormedCommand(manager.cluster, commands) && commands[0] == "kill"
      modifies socket`writeCount, socket`sent, socket.outbound, manager`repr, manager`cluster, manager.All()
      ensures Valid() && fresh(manager.All() - old(manager.All())) && manager.cluster == old(manager.cluster)
      ensures socket.Wrote(old(socket.outbound.pending), old(socket.writeCount),
                    if |commands| < 2 then [BoolText(false)]
                        else KillAnywhere(old(manager.cluster), commands[1], env).lines)
    {
      hide ToString, Stoi, Kill, Manager.Valid, Socket.Wrote, InstanceInfo.Deserialize;
      manager.Sizes();
      var result := false;
      if |commands| >= 2 {
        IdPartIsClean(commands[1]);
        var idParts := ExtractIdParts(commands[1]);
        var c := FindController(idParts.0);
        if c < |manager.controllers| {
          ResultLines(manager.cluster[c].state, idParts.1, env);
          result := manager.Kill(c, idParts.1, env);
        }
      }
      socket.WriteOnly(BoolText(result));
    }

    /** The branches of `run`: the lines written before `send`. */
    method Answer(commands: seq<string>, env: Env, v: Visit)
      requires Valid()
      requires WellFormedCommand(manager.cluster, commands) && Visiting(manager.cluster, v)
      requires PortsInRange(Handle(manager.cluster, manager.nextController, commands, env, v).cluster)
      modifies socket`writeCount, socket`sent, socket.outbound, manager, manager.All()
      ensures Valid() && fresh(manager.All() - old(manager.All()))
      ensures var h := Handle(old(manager.cluster), old(manager.nextController), commands, env, v);
              && manager.cluster == h.cluster && manager.nextController == h.next
              && socket.Wrote(old(socket.outbound.pending), old(socket.writeCount), h.lines)
    {
      hide PlaceInstance, RunAnywhere, KillAnywhere, InstanceInfo.Deserialize, InstanceInfo.Serialize, Socket.Wrote,
        Manager.Valid, SerializeTemplates, SerializeInstances, Gathered, GatheredTemplates, Listings, TemplateOrders,
        TableOrders, Route, PortsInRange;
      manager.Sizes();
      manager.NotBehindItself();
      var cmd := commands[0];
      if cmd == "getTemplates" {
        WriteTemplates(env, v.names);
      } else if cmd == "getInstances" {
        WriteInstances(v.ids, v.maps, v.orders, v.alive);
      } else if cmd == "instantiate" {
        AnswerInstantiate(commands, env, v.names);
      } else if cmd == "run" {
        AnswerRun(commands, env);
      } else if cmd == "kill" {
        AnswerKill(commands, env);
      } else {
        socket.WriteOnly(UNKNOWN);
      }
    }

    /** Reads one request, answers it, and closes the answer with a blank line. */
    method HandleRequest(env: Env, v: Visit)
      requires Valid()
      requires HasFrame(socket.inbound.pending) && WellFormedCommand(manager.cluster,
               FrameLines(socket.inbound.pending))
      requires Visiting(manager.cluster, v)
      requires PortsInRange(Handle(manager.cluster, manager.nextController, FrameLines(socket.inbound.pending), env,
               v).cluster)
      modifies socket`writeCount, socket`sent, socket.inbound, socket.outbound, manager, manager.All()
      ensures Valid() && fresh(manager.All() - old(manager.All()))
      ensures socket.inbound.pending == AfterFrame(old(socket.inbound.pending))
      ensures var h := Handle(old(manager.cluster), old(manager.nextController),
                              FrameLines(old(socket.inbound.pending)), env, v);
              && manager.cluster == h.cluster && manager.nextController == h.next
              && socket.outbound.pending == old(socket.outbound.pending) + ReplyBytes(old(socket.writeCount), h.lines)
    {
      hide Handle, EncodeLines, WellFormedCommand, Visiting, PortsInRange, Manager.Valid;
      manager.NotBehindItself();
      var commands := socket.Read();
      Answer(commands, env, v);
      socket.Send();
    }
  }
}
