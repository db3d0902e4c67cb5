/** Invariants of whole runs, and the results a user of the controller relies on. */
module LifetimeTheorems {
  import opened Wrappers
  import opened Decimal
  import opened Records
  import opened ControllerModel
  import opened ControllerTheorems
  import opened ScanTheorems
  import opened Lifetimes
  import Servers

  // ----- the disk -----

  lemma {:induction false} DiskOkKept(w: World, w': World)
    requires DiskOk(w) && SameMetadata(w.dirs, w'.dirs)
    requires w'.made == w.made && w'.allIds == w.allIds && w'.templates == w.templates
    ensures DiskOk(w')
  {
    hide Load;
    forall id | id in w'.dirs ensures DirOk(w', id) {
      assert DirOk(w, id) && SameDirMetadata(w.dirs[id], w'.dirs[id]);
    }
  }

  lemma {:induction false} SameMetadataRefl(a: Dirs)
    ensures SameMetadata(a, a)
  {
    hide Load;
  }

  lemma {:induction false} SameDirOk(w: World, w': World, id: int)
    requires id in w.dirs && DirOk(w, id) && id in w'.dirs && w'.dirs[id] == w.dirs[id] && w'.templates == w.templates
    requires (id in w'.made <==> id in w.made) && (id in w.made ==> w'.made[id] == w.made[id])
    ensures DirOk(w', id)
  {
    hide Load;
  }

  lemma {:induction false} NewDirOk(w: World, id: int, q: Request, complete: bool)
    requires id in w.dirs && (PidCookie in w.dirs[id] <==> complete) && (Load(w.dirs[id]).Some? <==> complete)
    requires complete ==>
               Load(w.dirs[id]).value.(sshPort := 0) == Metadata(q.templ, q.memory, q.cpus, 0) && q.templ in w.templates
    requires (id in w.made <==> complete) && (complete ==> w.made[id] == q)
    ensures DirOk(w, id)
  {
    hide Load;
  }

  lemma {:induction false} LiveInRange(w: World, s: State)
    requires LiveOk(w, s)
    ensures Agreement(s) && s.dirs == w.dirs && s.templates == w.templates && Int32(s.nextPort)
  {
    hide Matches, Load;
  }

  /** A crash between two writes leaves the new directory incomplete, or complete and recorded as made. */
  lemma {:induction false} DiskOkCreate(w: World, e: Event)
    requires Inv(w) && Enabled(w, e) && e.op.Create?
    ensures DiskOk(Step(w, e))
  {
    hide Load, Instantiate, DirOk, LiveOk, Agreement;
    var q, s := e.op.request, w.live.value;
    LiveInRange(w, s);
    var c := Instantiate(s, q.templ, q.memory, q.cpus, e.op.busyFirst, e.op.busyLater);
    InstantiateFacts(s, q.templ, q.memory, q.cpus, e.op.busyFirst, e.op.busyLater);
    var k := WritesDone(Perform(w, e.op), e);
    var w' := Step(w, e);
    if k == 0 {
      SameMetadataRefl(w.dirs);
      DiskOkKept(w, w');
    } else {
      InstantiateWrites(s, q.templ, q.memory, q.cpus, e.op.busyFirst, e.op.busyLater, k - 1);
      assert w'.dirs == c.writes[k - 1];
      forall id | id in w.dirs ensures id in w'.dirs && DirOk(w', id) {
        SameDirOk(w, w', id);
      }
      NewDirOk(w', c.id, q, k >= COMMIT);
      EnumeratesOneMore(w.allIds, w.dirs.Keys, c.id);
    }
  }

  lemma {:induction false} EnumeratesOneMore(order: seq<int>, ids: set<int>, id: int)
    requires Enumerates(order, ids) && id !in ids
    ensures Enumerates(order + [id], ids + {id})
  {
    assert forall i :: 0 <= i < |order| ==> order[i] in (set x | x in order);
    assert (set x | x in order + [id]) == (set x | x in order) + {id};
  }

  lemma {:induction false} DiskOkStart(w: World, e: Event)
    requires Inv(w) && Enabled(w, e) && e.op.Start?
    ensures DiskOk(Step(w, e))
  {
    hide Load, Scan;
    var s0 := InitialState(w, e.op.initialId, e.op.initialPort);
    var r := Scan(s0, e.op.names, e.op.busy);
    ScanFacts(s0, e.op.names, e.op.busy);
    var seen :| Scanned(s0, r, seen, e.op.busy);
    var w' := Step(w, e);
    SameMetadataRefl(w.dirs);
    if w'.dirs != w.dirs {
      assert w'.dirs in r.writes;
      SameButPortIsSameMetadata(w.dirs, w'.dirs);
    }
    DiskOkKept(w, w');
  }

  lemma {:induction false} DiskOkLaunch(w: World, e: Event)
    requires Inv(w) && Enabled(w, e) && (e.op.Launch? || e.op.Stop?)
    ensures DiskOk(Step(w, e))
  {
    hide Load, Run;
    var w' := Step(w, e);
    SameMetadataRefl(w.dirs);
    if e.op.Launch? {
      var r := Run(w.live.value, e.op.id, e.op.busyNow, e.op.alive, e.op.child);
      RunFacts(w.live.value, e.op.id, e.op.busyNow, e.op.alive, e.op.child);
      assert w'.dirs == w.dirs || w'.dirs in r.writes;
    }
    DiskOkKept(w, w');
  }

  // ----- the live controller -----

  /** After a complete scan the table holds exactly the completed instances. */
  lemma {:induction false} StartTable(w: World, e: Event)
    requires Inv(w) && Enabled(w, e) && e.op.Start?
    requires Scan(InitialState(w, e.op.initialId, e.op.initialPort), e.op.names, e.op.busy).finished
    ensures var s0 := InitialState(w, e.op.initialId, e.op.initialPort);
            var r := Scan(s0, e.op.names, e.op.busy);
            Scanned(s0, r, Named(e.op.names), e.op.busy) && r.state.table.Keys == w.made.Keys && Agreement(r.state)
  {
    hide Load, Scan, ScannedDisk, Agreement, SameButPort, RestoredFrom;
    var s0 := InitialState(w, e.op.initialId, e.op.initialPort);
    var r := Scan(s0, e.op.names, e.op.busy);
    ScanFacts(s0, e.op.names, e.op.busy);
    ListsNamesAll(e.op.names, w.dirs);
    forall id ensures id in r.state.table <==> id in w.made {
      assert id in w.dirs ==> DirOk(w, id);
    }
  }

  lemma {:induction false} StartPorts(w: World, e: Event, s0: State, r: Scanning, w': World)
    requires Inv(w) && Enabled(w, e) && e.op.Start? && w' == Step(w, e)
    requires s0 == InitialState(w, e.op.initialId, e.op.initialPort) && r == Scan(s0, e.op.names, e.op.busy)
    requires ScannedTable(s0, r, Named(e.op.names), e.op.busy) && IssuedBetween(r.ports, s0.nextPort, r.state.nextPort)
    ensures PortsOk(w', r.state) && OptionsOk(w', r.state)
  {
    hide Load, Scan, Inv, SameButPort, Matches, Named, Enabled;
    assert Int32(s0.nextPort) && Int32(r.state.nextPort) by { EnabledRange(w, e); }
    forall id | id in r.state.table
      ensures RestoredFrom(s0, id, r.state.table[id], e.op.busy, r.ports)
              && (id in w'.kept <==> !Reassigned(s0, id, e.op.busy)) && Int32(r.state.table[id].optPort)
    {
      assert RestoredFrom(s0, id, r.state.table[id], e.op.busy, r.ports);
      Servers.LoadInRange(s0.dirs[id]);
    }
  }

  lemma {:induction false} EnabledRange(w: World, e: Event)
    requires Enabled(w, e)
    ensures Int32(Perform(w, e.op).state.nextPort) && (e.op.Start? ==> Int32(e.op.initialPort))
  {
  }

  lemma {:induction false} LiveOkStart(w: World, e: Event)
    requires Inv(w) && Enabled(w, e) && e.op.Start? && Step(w, e).live.Some?
    ensures LiveOk(Step(w, e), Step(w, e).live.value)
  {
    hide Load, Scan, ScannedTable, PortsOk, OptionsOk, Agreement, SameButPort;
    var s0 := InitialState(w, e.op.initialId, e.op.initialPort);
    var r := Scan(s0, e.op.names, e.op.busy);
    StartTable(w, e);
    StartPorts(w, e, s0, r, Step(w, e));
    assert r.writes[..|r.writes|] == r.writes;
  }

  lemma {:induction false} LiveOkCreate(w: World, e: Event)
    requires Inv(w) && Enabled(w, e) && e.op.Create? && Step(w, e).live.Some?
    ensures LiveOk(Step(w, e), Step(w, e).live.value)
  {
    hide Load, Instantiate, Matches, DirOk, Agreement, PortsOk, OptionsOk;
    var q, s := e.op.request, w.live.value;
    assert Int32(s.nextPort) by { PortsInRange(w, s); }
    var c := Instantiate(s, q.templ, q.memory, q.cpus, e.op.busyFirst, e.op.busyLater);
    InstantiateFacts(s, q.templ, q.memory, q.cpus, e.op.busyFirst, e.op.busyLater);
    InstantiateWrites(s, q.templ, q.memory, q.cpus, e.op.busyFirst, e.op.busyLater, |c.writes| - 1);
    var w' := Step(w, e);
    assert c.writes[..|c.writes|] == c.writes;
    CreatePorts(w, s, c, w');
    forall id | id in w.lifeIds ensures id < c.id {}
    assert Increasing(w'.lifeIds) by {
      assert forall i :: 0 <= i < |w.lifeIds| ==> w.lifeIds[i] in w.lifeIds;
    }
  }

  lemma {:induction false} CreatePorts(w: World, s: State, c: Creating, w': World)
    requires PortsOk(w, s) && OptionsOk(w, s) && c.id !in s.table && c.id in c.state.table
    requires c.state.table == s.table[c.id := c.state.table[c.id]] && Int32(c.state.nextPort)
    requires IssuedBetween(c.ports, s.nextPort, c.state.nextPort) && c.state.table[c.id].sshPort in c.ports
    requires c.state.table[c.id].optPort == c.state.table[c.id].sshPort
    requires w'.lifePorts == w.lifePorts + c.ports && w'.kept == w.kept && w'.moved == w.moved
             && w'.settled == w.settled
    ensures PortsOk(w', c.state) && OptionsOk(w', c.state)
  {
    IncreasingConcat(w.lifePorts, c.ports, s.nextPort);
    assert c.id !in w.kept && c.id !in w.moved;
  }

  lemma {:induction false} IncreasingConcat(a: seq<int>, b: seq<int>, mid: int)
    requires Increasing(a) && Increasing(b) && (forall p :: p in a ==> p <= mid) && (forall p :: p in b ==> p > mid)
    ensures Increasing(a + b)
  {
    forall i, j | 0 <= i < j < |a + b| ensures (a + b)[i] < (a + b)[j] {
      if i < |a| <= j { assert a[i] in a && b[j - |a|] in b; }
    }
  }

  lemma {:induction false} LiveOkLaunch(w: World, e: Event)
    requires Inv(w) && Enabled(w, e) && e.op.Launch? && Step(w, e).live.Some?
    ensures LiveOk(Step(w, e), Step(w, e).live.value)
  {
    hide Load, Run, Matches, DirOk, PortsOk, OptionsOk, SameMetadata;
    var s := w.live.value;
    var r := Run(s, e.op.id, e.op.busyNow, e.op.alive, e.op.child);
    assert Int32(s.nextPort) by { PortsInRange(w, s); }
    RunFacts(s, e.op.id, e.op.busyNow, e.op.alive, e.op.child);
    var w' := Step(w, e);
    assert r.writes[..|r.writes|] == r.writes;
    LaunchPorts(w, s, e.op.id, r, w');
    LaunchOptions(w, s, e.op.id, r, w');
    assert w'.dirs.Keys == w.dirs.Keys by {
      assert w'.dirs == w.dirs || w'.dirs in r.writes;
      SameMetadataKeys(w.dirs, r.writes);
    }
  }

  lemma {:induction false} PortsInRange(w: World, s: State)
    requires PortsOk(w, s)
    ensures Int32(s.nextPort)
  {
  }

  lemma {:induction false} SameMetadataKeys(a: Dirs, writes: seq<Dirs>)
    requires forall w :: w in writes ==> SameMetadata(a, w)
    ensures forall w :: w in writes ==> w.Keys == a.Keys
  {
  }

  /** What a launch does to ports and options, given what it does to the table. */
  ghost predicate Launched(w: World, s: State, id: int, r: Starting, w': World) {
    && IssuedBetween(r.ports, s.nextPort, r.state.nextPort) && Int32(r.state.nextPort)
    && (!r.ok ==> r.state == s && r.ports == [])
    && (r.ok ==>
          && id in s.table && id in r.state.table
          && r.state.table == s.table[id := s.table[id].(sshPort := r.state.table[id].sshPort,
             pid := r.state.table[id].pid)]
          && (r.ports == [] ==> r.state.table[id].sshPort == s.table[id].sshPort)
          && (r.ports != [] ==>
                && r.ports == [r.state.table[id].sshPort]
                && r.state.nextPort == r.state.table[id].sshPort != s.table[id].sshPort))
    && w'.lifePorts == w.lifePorts + r.ports && w'.kept == w.kept
    && w'.moved == (if r.ports == [] then w.moved else w.moved + {id})
    && w'.settled == (if r.ports != [] && id !in w.moved && id in s.table && s.table[id].optPort <= s.nextPort + 1
                      then w.settled + {id} else w.settled)
  }

  lemma {:induction false} LaunchPorts(w: World, s: State, id: int, r: Starting, w': World)
    requires PortsOk(w, s) && Launched(w, s, id, r, w')
    ensures PortsOk(w', r.state)
  {
    IncreasingConcat(w.lifePorts, r.ports, s.nextPort);
    if r.ports != [] {
      assert r.state.table[id].sshPort in r.ports;
    } else {
      assert w.lifePorts + [] == w.lifePorts;
    }
  }

  lemma {:induction false} LaunchOptions(w: World, s: State, id: int, r: Starting, w': World)
    requires OptionsOk(w, s) && Launched(w, s, id, r, w')
    ensures OptionsOk(w', r.state)
  {
    if r.ports != [] {
      var p := r.state.table[id].sshPort;
      assert p in r.ports && p > s.nextPort;
      if id !in w.moved && s.table[id].optPort <= s.nextPort + 1 { assert s.table[id].optPort < p; }
    }
  }

  /** Every step of every run keeps disk, table and history in agreement. */
  lemma {:induction false} StepKeepsInv(w: World, e: Event)
    requires Inv(w) && Enabled(w, e)
    ensures Inv(Step(w, e))
  {
    hide Load, Scan, Instantiate, Run, DiskOk, LiveOk;
    match e.op {
      case Start(_, _, _, _) =>
        DiskOkStart(w, e);
        if Step(w, e).live.Some? { LiveOkStart(w, e); }
      case Create(_, _, _) =>
        DiskOkCreate(w, e);
        if Step(w, e).live.Some? { LiveOkCreate(w, e); }
      case Launch(_, _, _, _) =>
        DiskOkLaunch(w, e);
        if Step(w, e).live.Some? { LiveOkLaunch(w, e); }
      case Stop(_, _) =>
        DiskOkLaunch(w, e);
        if Step(w, e).live.Some? { LiveOkStop(w, e); }
    }
  }

  lemma {:induction false} LiveOkStop(w: World, e: Event)
    requires Inv(w) && Enabled(w, e) && e.op.Stop? && Step(w, e).live.Some?
    ensures LiveOk(Step(w, e), Step(w, e).live.value)
  {
  }

  /** So the invariant holds all along a run. */
  lemma {:induction false} RunKeepsInv(templates: map<string, Template>, ws: seq<World>, events: seq<Event>, k: nat)
    requires TemplatesNamed(templates) && IsHistory(templates, ws, events) && k <= |events|
    ensures Inv(ws[k]) && ws[k].templates == templates
  {
    hide Inv, Enabled, Step;
    if k == 0 {
      FreshIsOk(templates);
    } else {
      RunKeepsInv(templates, ws, events, k - 1);
      assert Follows(ws, events, k - 1);
      StepKeepsInv(ws[k - 1], events[k - 1]);
      TemplatesStay(ws[k - 1], events[k - 1]);
    }
  }

  lemma {:induction false} FreshIsOk(templates: map<string, Template>)
    requires TemplatesNamed(templates)
    ensures Inv(Fresh(templates)) && Fresh(templates).templates == templates
  {
  }

  lemma {:induction false} TemplatesStay(w: World, e: Event)
    requires Enabled(w, e)
    ensures Step(w, e).templates == w.templates
  {
    hide Perform, Final;
  }

  // ----- results about every run -----

  /** No directory id is ever used twice, across restarts and crashes; within a lifetime ids increase. */
  lemma {:induction false} IdsNeverReused(templates: map<string, Template>, ws: seq<World>, events: seq<Event>)
    requires TemplatesNamed(templates) && IsHistory(templates, ws, events)
    ensures var w := ws[|events|];
            && NoDuplicates(w.allIds) && (forall id :: id in w.allIds <==> id in w.dirs)
            && (w.live.Some? ==> Increasing(w.lifeIds) && forall id :: id in w.lifeIds ==> id in w.allIds)
  {
    hide Step, Enabled;
    RunKeepsInv(templates, ws, events, |events|);
    var w := ws[|events|];
    assert forall id :: id in w.allIds <==> id in (set x | x in w.allIds);
  }

  /** One lifetime never issues a port twice; two entries share one only if at least one kept its recorded port. */
  lemma {:induction false} PortsOverARun(templates: map<string, Template>, ws: seq<World>, events: seq<Event>)
    requires TemplatesNamed(templates) && IsHistory(templates, ws, events)
    ensures var w := ws[|events|];
            w.live.Some? ==>
              var s := w.live.value;
              && Increasing(w.lifePorts)
              && forall i, j :: i in s.table && j in s.table && i != j && s.table[i].sshPort == s.table[j].sshPort ==>
                   (i in w.kept && i !in w.moved) || (j in w.kept && j !in w.moved)
  {
    hide Step, Enabled;
    RunKeepsInv(templates, ws, events, |events|);
  }

  /** Between operations every entry is what its cookies say, and only completed instances are in the table. */
  lemma {:induction false} DiskAndTableAgree(templates: map<string, Template>, ws: seq<World>, events: seq<Event>)
    requires TemplatesNamed(templates) && IsHistory(templates, ws, events)
    ensures var w := ws[|events|];
            w.live.Some? ==>
              var s := w.live.value;
              && s.dirs == w.dirs && s.table.Keys == w.made.Keys
              && forall id :: id in s.table ==>
                   var e := s.table[id];
                   && id in w.dirs && e.id == id
                   && Load(w.dirs[id]) == Some(Metadata(e.templ.name, e.memory, e.cpus, e.sshPort))
                   && w.made[id] == Request(e.templ.name, e.memory, e.cpus)
                   && e.templ.name in templates && e.templ == templates[e.templ.name]
  {
    hide Step, Enabled, Load;
    RunKeepsInv(templates, ws, events, |events|);
    var w := ws[|events|];
    if w.live.Some? {
      forall id | id in w.live.value.table ensures Matches(w.live.value, id) && DirOk(w, id) {}
    }
  }

  /**
   The port QEMU is told is the entry's port for every entry `run` has not moved, and below it for every entry that was
   moved when its first port was not above the next one to issue; that is every moved entry that did not keep a
   recorded port at the start. What becomes of the others, see `OptionPorts.MayReturn`.
   */
  lemma {:induction false} OptionPortsOverARun(templates: map<string, Template>, ws: seq<World>, events: seq<Event>)
    requires TemplatesNamed(templates) && IsHistory(templates, ws, events)
    ensures var w := ws[|events|];
            w.live.Some? ==> forall id :: id in w.live.value.table ==>
              var e := w.live.value.table[id];
              && (id in w.settled ==> id in w.moved && e.optPort < e.sshPort)
              && (id in w.moved && id !in w.kept ==> id in w.settled)
              && (id !in w.moved ==> e.optPort == e.sshPort)
  {
    hide Step, Enabled;
    RunKeepsInv(templates, ws, events, |events|);
  }

  /**
   After any run, however it was interrupted, a start on what is left of the disk restores exactly the instances
   whose last cookie was written, with the fields their requests named; each keeps its recorded port if that is
   free and gets a newly issued one otherwise. Half-made directories are not restored. The start itself fails
   exactly when some name in the directory is a number out of the range of `int`.
   */
  lemma {:induction false} CrashRecovery(
    templates: map<string, Template>, ws: seq<World>, events: seq<Event>,
    initialId: int, initialPort: int, names: seq<string>, busy: set<int>)
    requires TemplatesNamed(templates) && IsHistory(templates, ws, events)
    requires events != [] && events[|events| - 1] == Event(Start(initialId, initialPort, names, busy), None)
    ensures ws[|events|].live.Some? <==> forall i :: 0 <= i < |names| ==> Stoi(names[i]) != OutOfRange
    ensures var w, w' := ws[|events| - 1], ws[|events|];
            w'.live.Some? ==>
            && w'.live.value.table.Keys == w.made.Keys
            && (forall id :: id in w.dirs ==> (id in w.made <==> PidCookie in w.dirs[id]))
            && (forall id :: id in w.made ==>
                  var e, q := w'.live.value.table[id], w.made[id];
                  && id in w.dirs && Load(w.dirs[id]).Some?
                  && q.templ in templates
                  && e == Entry(id, q.memory, q.cpus, e.sshPort, templates[q.templ], e.sshPort, 0)
                  && var recorded := Load(w.dirs[id]).value.sshPort;
                  if recorded in busy then e.sshPort in w'.lifePorts && e.sshPort !in busy else e.sshPort == recorded)
  {
    hide Load, Stoi, Scan;
    var n := |events| - 1;
    RunKeepsInv(templates, ws, events, n);
    assert Follows(ws, events, n);
    var w, w', e := ws[n], ws[n + 1], events[n];
    var s0 := InitialState(w, initialId, initialPort);
    ScanFacts(s0, names, busy);
    var r := Scan(s0, names, busy);
    if r.finished {
      StartTable(w, e);
      forall id | id in w.made
        ensures DirOk(w, id) && id in r.state.table && RestoredFrom(s0, id, r.state.table[id], busy, r.ports)
      {
      }
    }
  }
}
