/**
 Whole runs of a controller host: the controller is started, serves operations, and may be killed between any
 two disk writes; what is on disk then is what the next start finds.
 */
module Lifetimes {
  import opened Wrappers
  import opened Decimal
  import opened Records
  import opened ControllerModel
  import opened ControllerTheorems
  import opened ScanTheorems

  /** What a client asked for. */
  datatype Request = Request(templ: string, memory: int, cpus: int)

  /** The host, and a history of what happened on it. */
  datatype World = World(
    templates: map<string, Template>,
    dirs: Dirs,
    live: Option<State>,         // the running controller
    made: map<int, Request>,     // the requests whose directory got its last cookie
    allIds: seq<int>,            // every directory ever created, oldest first
    lifeIds: seq<int>,           // the ids handed out by the running controller
    lifePorts: seq<int>,         // the ports it issued
    kept: set<int>,              // entries whose recorded port was free when it started
    moved: set<int>,             // entries that `run` gave another port since it started
    settled: set<int>)           // those whose first port was not above the next one to issue when they were moved

  datatype Op =
    | Start(initialId: int, initialPort: int, names: seq<string>, busy: set<int>)
    | Create(request: Request, busyFirst: set<int>, busyLater: set<int>)
    | Launch(id: int, busyNow: set<int>, alive: set<int>, child: int)
    | Stop(stopId: int, running: set<int>)

  /** An operation, and after how many of its disk writes the controller died, if it did. */
  datatype Event = Event(op: Op, crash: Option<nat>)

  datatype Performed = Performed(state: State, survives: bool, writes: seq<Dirs>, ports: seq<int>)

  function InitialState(w: World, initialId: int, initialPort: int): State {
    State(w.templates, initialId, initialPort, map[], w.dirs)
  }

  predicate Possible(w: World, op: Op) {
    match op
    case Start(_, _, _, _) => w.live.None?
    case _ => w.live.Some?
  }

  function Perform(w: World, op: Op): Performed
    requires Possible(w, op)
  {
    match op
    case Start(id, port, names, busy) =>
      var r := Scan(InitialState(w, id, port), names, busy);
      Performed(r.state, r.finished, r.writes, r.ports)
    case Create(q, busy, busyLater) =>
      var c := Instantiate(w.live.value, q.templ, q.memory, q.cpus, busy, busyLater);
      Performed(c.state, true, c.writes, c.ports)
    case Launch(id, busy, alive, child) =>
      var r := Run(w.live.value, id, busy, alive, child);
      Performed(r.state, true, r.writes, r.ports)
    case Stop(_, _) => Performed(w.live.value, true, [], [])
  }

  /** How many writes of an operation reach the disk. */
  function WritesDone(p: Performed, e: Event): nat {
    match e.crash case None => |p.writes| case Some(k) => k
  }

  /**
   What the environment grants: a crash comes after some of the writes, a listing names every directory,
   templates are chosen from the controller's own, and no number overflows.
   */
  ghost predicate Enabled(w: World, e: Event) {
    && Possible(w, e.op)
    && var p := Perform(w, e.op);
    && WritesDone(p, e) <= |p.writes|
    && Int32(p.state.nextPort)
    && match e.op
       case Start(_, port, names, _) => Int32(port) && Lists(names, w.dirs)
       case Create(q, _, _) => q.templ in w.templates && Int32(q.memory) && Int32(q.cpus) && Int32(p.state.nextId)
       case _ => true
  }

  function Step(w: World, e: Event): World
    requires Possible(w, e.op) && WritesDone(Perform(w, e.op), e) <= |Perform(w, e.op).writes|
  {
    var p := Perform(w, e.op);
    var k := WritesDone(p, e);
    var dirs := Final(w.dirs, p.writes[..k]);
    var live := if e.crash.None? && p.survives then Some(p.state) else None;
    var w1 := w.(dirs := dirs, live := live);
    match e.op
    case Start(_, _, _, busy) =>
      var kept := set id | id in p.state.table && id in w.dirs && Load(w.dirs[id]).Some?
          && Load(w.dirs[id]).value.sshPort !in busy;
      w1.(lifeIds := [], lifePorts := p.ports, kept := kept, moved := {}, settled := {})
    case Create(q, _, _) =>
      var id := p.state.nextId;
      w1.(made := if k >= COMMIT then w.made[id := q] else w.made,
          allIds := if k >= 1 then w.allIds + [id] else w.allIds,
          lifeIds := w.lifeIds + [id], lifePorts := w.lifePorts + p.ports)
    case Launch(id, _, _, _) =>
      var s := w.live.value;
      var firstMove := p.ports != [] && id !in w.moved && id in s.table;
      w1.(lifePorts := w.lifePorts + p.ports, moved := if p.ports == [] then w.moved else w.moved + {id},
          settled := if firstMove && s.table[id].optPort <= s.nextPort + 1 then w.settled + {id} else w.settled)
    case Stop(_, _) => w1
  }

  function Fresh(templates: map<string, Template>): World {
    World(templates, map[], None, map[], [], [], [], {}, {}, {})
  }

  /** The `i`-th event takes one world to the next. */
  ghost predicate Follows(ws: seq<World>, events: seq<Event>, i: nat)
    requires |ws| == |events| + 1 && i < |events|
  {
    Enabled(ws[i], events[i]) && ws[i + 1] == Step(ws[i], events[i])
  }

  /** A whole run: the worlds that a list of events passes through, from an empty working directory. */
  ghost predicate IsHistory(templates: map<string, Template>, ws: seq<World>, events: seq<Event>) {
    && |ws| == |events| + 1 && ws[0] == Fresh(templates)
    && forall i: nat :: i < |events| ==> Follows(ws, events, i)
  }

  // ----- the invariant -----

  /** A directory is complete exactly when its `.pid` was written, and then holds the request. */
  ghost predicate DirOk(w: World, id: int)
    requires id in w.dirs
  {
    && (PidCookie in w.dirs[id] <==> id in w.made)
    && (Load(w.dirs[id]).Some? <==> id in w.made)
    && (id in w.made ==>
          var q := w.made[id];
          Load(w.dirs[id]).value.(sshPort := 0) == Metadata(q.templ, q.memory, q.cpus, 0) && q.templ in w.templates)
  }

  ghost predicate DiskOk(w: World) {
    && w.made.Keys <= w.dirs.Keys
    && AllInt32(w.dirs.Keys)
    && (forall id :: id in w.dirs ==> DirOk(w, id))
    && Enumerates(w.allIds, w.dirs.Keys)
  }

  /** An entry whose port the running controller chose itself. */
  ghost predicate OwnPort(w: World, id: int) { id !in w.kept || id in w.moved }

  /** Ports the running controller issued are all different, and so are the entries that hold them. */
  ghost predicate PortsOk(w: World, s: State) {
    && Int32(s.nextPort) && Increasing(w.lifePorts) && (forall p :: p in w.lifePorts ==> p <= s.nextPort)
    && (forall id :: id in s.table && OwnPort(w, id) ==> s.table[id].sshPort in w.lifePorts)
    && (forall i, j :: i in s.table && j in s.table && i != j && OwnPort(w, i) && OwnPort(w, j) ==>
          s.table[i].sshPort != s.table[j].sshPort)
  }

  /** The port in a process's options is the entry's port until `run` replaces that one, and below it once settled. */
  ghost predicate OptionsOk(w: World, s: State) {
    && w.kept <= s.table.Keys && w.settled <= w.moved <= s.table.Keys
    && (forall id :: id in s.table && id !in w.moved ==> s.table[id].optPort == s.table[id].sshPort)
    && (forall id :: id in w.settled ==> s.table[id].optPort < s.table[id].sshPort && s.table[id].optPort <= s.nextPort)
    && (forall id :: id in s.table && id !in w.kept ==> s.table[id].optPort <= s.nextPort)
    && (forall id :: id in w.moved && id !in w.kept ==> id in w.settled)
    && (forall id :: id in s.table ==> Int32(s.table[id].optPort))
  }

  ghost predicate LiveOk(w: World, s: State) {
    && s.templates == w.templates && s.dirs == w.dirs
    && s.table.Keys == w.made.Keys
    && Agreement(s)
    && PortsOk(w, s) && OptionsOk(w, s)
    && Increasing(w.lifeIds) && (forall id :: id in w.lifeIds ==> id <= s.nextId && id in w.dirs)
  }

  ghost predicate Inv(w: World) {
    && TemplatesNamed(w.templates)
    && DiskOk(w)
    && (w.live.Some? ==> LiveOk(w, w.live.value))
  }
}
