/** A whole cloud put together: disks, controllers and their servers, connections, proxies, and the manager. */
module Stacks {
  import opened Decimal
  import opened ControllerModel
  import opened Controllers
  import opened SocketIstreams
  import opened Sockets
  import opened Servers
  import opened ControllerServers
  import opened ControllerProxies
  import opened Clusters
  import opened Managers
  import opened Reachability

  /** What one controller is started with; `names` is the listing of its working directory. */
  datatype Site = Site(name: string, disk: Disk, initialId: int, initialPort: int, names: seq<string>, busy: set<int>)
  {
    ghost function Scanned(): Scanning
      reads disk
    { Scan(State(BUILTIN, initialId, initialPort, map[], disk.dirs), names, busy) }

    /** No name ends the scan, and the ports stay in the range of `int`. */
    ghost predicate Starts()
      reads disk
    { Scanned().finished && Int32(initialPort) && Int32(Scanned().state.nextPort) }
  }

  /** A started controller can answer every request. */
  method StartController(site: Site) returns (controller: Controller)
    requires site.Starts()
    modifies site.disk
    ensures controller.Valid() && controller.disk == site.disk && fresh(controller)
    ensures fresh(controller.Insts()) && fresh(controller.Procs())
    ensures controller.View() == old(site.Scanned()).state && Servable(controller.View())
  {
    hide Scan, Servable, TemplatesPrintable, Controller.View;
    BuiltinIsPrintable();
    ScanIsServable(State(BUILTIN, site.initialId, site.initialPort, map[], site.disk.dirs), site.names, site.busy);
    controller := new Controller(site.disk, site.initialId, site.initialPort, site.names, site.busy);
  }

  /** Starts a controller, and connects a proxy to it. */
  method Connect(site: Site) returns (proxy: ControllerProxy)
    requires site.Starts()
    modifies site.disk
    ensures proxy.Valid() && proxy.View() == old(site.Scanned()).state
    ensures site.disk in proxy.Repr() && fresh(proxy.Repr() - {site.disk})
  {
    hide Scan, Servable, Controller.View, Controller.Valid;
    var controller := StartController(site);
    var up := new ByteStream();
    var down := new ByteStream();
    var there := new Socket(up, down);
    var server := new ControllerServer(there, controller);
    var here := new Socket(down, up);
    proxy := new ControllerProxy(here, server);
    proxy.WithinRepr();
  }

  function Disks(sites: seq<Site>): set<Disk> { set i | 0 <= i < |sites| :: sites[i].disk }

  /** The cluster that the sites start up to. */
  ghost function Started(sites: seq<Site>, n: nat): (cluster: seq<Node>)
    requires n <= |sites|
    reads set i | 0 <= i < n :: sites[i].disk
    ensures |cluster| == n && forall c :: 0 <= c < n ==> cluster[c] == Node(sites[c].name, sites[c].Scanned().state)
  {
    if n == 0 then [] else Started(sites, n - 1) + [Node(sites[n - 1].name, sites[n - 1].Scanned().state)]
  }

  /** The proxies connected so far share no object, and use no disk but their own. */
  ghost predicate Connected(sites: seq<Site>, refs: seq<ControllerRef>, cluster: seq<Node>, reprs: seq<set<object>>)
    requires |refs| == |reprs| <= |sites| && |refs| <= |cluster|
    reads set c, o | 0 <= c < |reprs| && o in reprs[c] :: o
  {
    && (forall c :: 0 <= c < |refs| ==> Behind(refs[c], reprs[c], cluster[c]))
    && (forall c, d :: 0 <= c < d < |reprs| ==> reprs[c] !! reprs[d])
    && (forall c, d :: 0 <= c < |reprs| <= d < |sites| ==> sites[d].disk !in reprs[c])
  }

  lemma {:induction false} NothingConnected(sites: seq<Site>, cluster: seq<Node>)
    ensures Connected(sites, [], cluster, [])
  {
  }

  lemma {:induction false} AllConnected(sites: seq<Site>, refs: seq<ControllerRef>, cluster: seq<Node>,
      reprs: seq<set<object>>)
    requires |refs| == |reprs| == |sites| == |cluster| && Connected(sites, refs, cluster, reprs)
    ensures forall c :: 0 <= c < |refs| ==>
              && refs[c].proxy.Valid() && refs[c].proxy.Repr() == reprs[c]
              && cluster[c] == Node(refs[c].id, refs[c].proxy.View())
    ensures forall c, d :: 0 <= c < d < |refs| ==> refs[c].proxy.Repr() !! refs[d].proxy.Repr()
  {
    hide ControllerProxy.Valid, ControllerProxy.View, ControllerProxy.Repr, ControllerProxy.Core;
    forall c | 0 <= c < |refs|
      ensures refs[c].proxy.Valid() && refs[c].proxy.Repr() == reprs[c]
              && cluster[c] == Node(refs[c].id, refs[c].proxy.View())
    {
      assert Behind(refs[c], reprs[c], cluster[c]);
    }
  }

  /** One more controller, on a disk that none of the others uses. */
  method ConnectNext(sites: seq<Site>, refs: seq<ControllerRef>, ghost cluster: seq<Node>,
      ghost reprs: seq<set<object>>)
    returns (ref: ControllerRef, ghost objects: set<object>)
    requires |refs| == |reprs| < |sites| == |cluster| && Connected(sites, refs, cluster, reprs)
    requires forall i, j :: 0 <= i < j < |sites| ==> sites[i].disk != sites[j].disk
    requires sites[|refs|].Starts()
    requires cluster[|refs|] == Node(sites[|refs|].name, sites[|refs|].Scanned().state)
    modifies sites[|refs|].disk
    ensures Connected(sites, refs + [ref], cluster, reprs + [objects]) && fresh(objects - {sites[|refs|].disk})
  {
    hide Scan, Servable, ControllerProxy.Valid, ControllerProxy.View, ControllerProxy.Repr, ControllerProxy.Core;
    var site := sites[|refs|];
    var proxy := Connect(site);
    proxy.WithinRepr();
    objects := proxy.Repr();
    ref := ControllerRef(site.name, proxy);
  }

  lemma {:induction false} AllWithin(sites: seq<Site>, reprs: seq<set<object>>, made: set<object>)
    requires |reprs| == |sites| && forall c :: 0 <= c < |sites| ==> reprs[c] - {sites[c].disk} <= made
    ensures (set c, o | 0 <= c < |reprs| && o in reprs[c] :: o) <= made + Disks(sites)
  {
    forall c, o | 0 <= c < |reprs| && o in reprs[c] ensures o in made || o in Disks(sites) {
      assert sites[c].disk in Disks(sites);
    }
  }

  /** The manager of any number of controllers, each on its own disk. */
  method ConnectAll(sites: seq<Site>) returns (manager: Manager, ghost made: set<object>)
    requires forall i, j :: 0 <= i < j < |sites| ==> sites[i].disk != sites[j].disk
    requires forall i :: 0 <= i < |sites| ==> sites[i].Starts()
    modifies Disks(sites)
    ensures fresh(manager) && manager.Valid() && manager.nextController == 0
    ensures fresh(made) && manager.All() <= made + Disks(sites)
    ensures manager.cluster == old(Started(sites, |sites|))
  {
    hide Scan, ControllerProxy.Valid, ControllerProxy.View, ControllerProxy.Repr, ControllerProxy.Core, Connected,
      Manager.Valid;
    ghost var cluster := Started(sites, |sites|);
    var refs: seq<ControllerRef> := [];
    ghost var reprs: seq<set<object>> := [];
    made := {};
    NothingConnected(sites, cluster);
    for n := 0 to |sites|
      invariant |refs| == |reprs| == n && Connected(sites, refs, cluster, reprs)
      invariant fresh(made) && forall c :: 0 <= c < n ==> reprs[c] - {sites[c].disk} <= made
      invariant forall i :: n <= i < |sites| ==> sites[i].disk.dirs == old(sites[i].disk.dirs)
    {
      assert sites[n].Scanned() == old(sites[n].Scanned());
      ghost var objects;
      var ref;
      ref, objects := ConnectNext(sites, refs, cluster, reprs);
      made := made + (objects - {sites[n].disk});
      refs, reprs := refs + [ref], reprs + [objects];
    }
    AllConnected(sites, refs, cluster, reprs);
    manager := new Manager(refs);
    assert manager.cluster == cluster;
    assert manager.repr == reprs;
    AllWithin(sites, reprs, made);
  }
}
