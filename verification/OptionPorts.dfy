/**
 The port given to QEMU is fixed when an instance's process object is made; `run` may move the entry to other ports
 later. When can an entry that was moved come to stand on that first port again?
 */
module OptionPorts {
  import opened Wrappers
  import opened Decimal
  import opened Records
  import opened ControllerModel
  import opened ControllerTheorems
  import opened Lifetimes
  import opened LifetimeTheorems

  /** The first port is not among those that may still be issued to the entry. */
  predicate Settled(s: State, id: int)
    requires id in s.table
  {
    var e := s.table[id];
    e.optPort <= s.nextPort + if e.optPort == e.sshPort then 1 else 0
  }

  // ----- one entry, started again and again -----

  datatype Launching = Launching(busy: set<int>, child: int)

  datatype Moving = Moving(state: State, moved: bool)

  /** `run` on one instance that has always ended before the next call; `moved` when some call replaced its port. */
  function RunAll(s: State, id: int, starts: seq<Launching>): (r: Moving)
    requires id in s.table
    ensures id in r.state.table
  {
    if starts == [] then Moving(s, false)
    else
      var n := |starts| - 1;
      var before := RunAll(s, id, starts[..n]);
      var r := Run(before.state, id, starts[n].busy, {}, starts[n].child);
      Moving(r.state, before.moved || r.ports != [])
  }

  /** `run` keeps an entry settled, and puts it on a port above its first one if it moves it. */
  lemma {:induction false} RunKeepsSettled(s: State, id: int, busy: set<int>, alive: set<int>, child: int)
    requires id in s.table && Settled(s, id)
    ensures var r := Run(s, id, busy, alive, child);
            && id in r.state.table && Settled(r.state, id)
            && (r.ports != [] ==> r.state.table[id].optPort < r.state.table[id].sshPort)
            && (r.ports == [] ==> r.state.table[id].sshPort == s.table[id].sshPort)
            && r.state.table[id].optPort == s.table[id].optPort
  {
    hide ToString;
  }

  lemma {:induction false} SettledStaysApart(s: State, id: int, starts: seq<Launching>)
    requires id in s.table && Settled(s, id)
    ensures var r := RunAll(s, id, starts);
            Settled(r.state, id) && (r.moved ==> r.state.table[id].optPort < r.state.table[id].sshPort)
    decreases |starts|
  {
    hide Run, Settled;
    if starts != [] {
      var n := |starts| - 1;
      SettledStaysApart(s, id, starts[..n]);
      RunKeepsSettled(RunAll(s, id, starts[..n]).state, id, starts[n].busy, {}, starts[n].child);
    }
  }

  /** A port above the next one to issue is reached by taking everything below it. */
  lemma {:induction false} RunOnto(s: State, id: int, port: int, child: int)
    requires id in s.table && port > s.nextPort && s.table[id].sshPort != port
    ensures var r := Run(s, id, Below(s, id, port), {}, child);
            r.ok && r.ports == [port] && r.state.nextPort == port
            && r.state.table == s.table[id := s.table[id].(sshPort := port, pid := child)]
  {
    hide ToString;
    LeastFreeIs(s.nextPort + 1, Below(s, id, port), port);
  }

  function Range(low: int, high: int): (r: set<int>)
    ensures forall q :: q in r <==> low <= q < high
    decreases high - low
  {
    if low >= high then {} else Range(low, high - 1) + {high - 1}
  }

  /** The ports that are taken then. */
  function Below(s: State, id: int, port: int): set<int>
    requires id in s.table
  { {s.table[id].sshPort} + Range(s.nextPort + 1, port) }

  /** Where a moved entry is sent first, if its first port is to be free for the second move. */
  lemma {:induction false} UnsettledComesBack(s: State, id: int, child: int) returns (starts: seq<Launching>)
    requires id in s.table && !Settled(s, id)
    ensures var r := RunAll(s, id, starts); r.moved && r.state.table[id].optPort == r.state.table[id].sshPort
  {
    hide Run, Below, LeastFree;
    var port := s.table[id].optPort;
    if s.table[id].sshPort == port {
      var away := Launching(Below(s, id, s.nextPort + 1), child);
      RunOnto(s, id, s.nextPort + 1, child);
      var s1 := Run(s, id, away.busy, {}, child).state;
      var back := Launching(Below(s1, id, port), child);
      RunOnto(s1, id, port, child);
      starts := [away, back];
      OneStart(s, id, away);
      assert starts[..1] == [away];
    } else {
      var back := Launching(Below(s, id, port), child);
      RunOnto(s, id, port, child);
      OneStart(s, id, back);
      starts := [back];
    }
  }

  lemma {:induction false} OneStart(s: State, id: int, x: Launching)
    requires id in s.table
    ensures RunAll(s, id, [x]) ==
            Moving(Run(s, id, x.busy, {}, x.child).state, Run(s, id, x.busy, {}, x.child).ports != [])
  {
    hide Run;
    assert [x][..0] == [];
  }

  /** However often the entry is started, a move never ends on the first port: exactly for settled entries. */
  lemma {:induction false} StaysApart(s: State, id: int)
    requires id in s.table
    ensures Settled(s, id) <==>
            forall starts :: var r := RunAll(s, id, starts);
                r.moved ==> r.state.table[id].optPort != r.state.table[id].sshPort
  {
    hide RunAll, Settled;
    if Settled(s, id) {
      forall starts
        ensures var r := RunAll(s, id, starts); r.moved ==> r.state.table[id].optPort != r.state.table[id].sshPort
      {
        SettledStaysApart(s, id, starts);
      }
    } else {
      var starts := UnsettledComesBack(s, id, 1);
    }
  }

  // ----- over a run of the controller -----

  ghost predicate HasEntry(w: World, id: int) { w.live.Some? && id in w.live.value.table }

  /** The entry stands on its first port, or elsewhere. */
  ghost predicate AtFirst(w: World, id: int)
    requires HasEntry(w, id)
  { w.live.value.table[id].sshPort == w.live.value.table[id].optPort }

  /** The run goes on in the same lifetime, and the entry stands elsewhere after `k` events and is back in the end. */
  ghost predicate Returns(
    templates: map<string, Template>, ws: seq<World>, events: seq<Event>, ws': seq<World>, events': seq<Event>,
    id: int, k: nat)
  {
    && IsHistory(templates, ws', events') && |ws| <= |ws'| && ws == ws'[..|ws|]
    && |events| <= k <= |events'| && (forall i :: |events| <= i < |events'| ==> !events'[i].op.Start?)
    && HasEntry(ws'[k], id) && !AtFirst(ws'[k], id)
    && HasEntry(ws'[|events'|], id) && AtFirst(ws'[|events'|], id)
  }

  /** Settled, and elsewhere if `away`. */
  ghost predicate Stays(w: World, id: int, away: bool) {
    HasEntry(w, id) && Settled(w.live.value, id) && (away ==> !AtFirst(w, id))
  }

  lemma {:induction false} StepStays(w: World, e: Event, id: int, away: bool)
    requires Inv(w) && Enabled(w, e) && !e.op.Start? && Stays(w, id, away) && Step(w, e).live.Some?
    ensures Stays(Step(w, e), id, away)
  {
    hide Load, Run, Instantiate, DiskOk, Agreement, ToString;
    var s := w.live.value;
    match e.op
    case Create(q, busy, busyLater) =>
      InstantiateFacts(s, q.templ, q.memory, q.cpus, busy, busyLater);
    case Launch(j, busy, alive, child) =>
      RunFacts(s, j, busy, alive, child);
      if j == id { RunKeepsSettled(s, id, busy, alive, child); }
    case Stop(_, _) =>
  }

  lemma {:induction false} RunStays(
    templates: map<string, Template>, ws: seq<World>, events: seq<Event>, from: nat, id: int, away: bool, k: nat)
    requires TemplatesNamed(templates) && IsHistory(templates, ws, events) && from <= k <= |events|
    requires Stays(ws[from], id, away) && forall i :: from <= i < k ==> !events[i].op.Start?
    ensures ws[k].live.Some? ==> Stays(ws[k], id, away)
    decreases k
  {
    hide Inv, Enabled, Step, Stays;
    if from < k {
      RunStays(templates, ws, events, from, id, away, k - 1);
      RunKeepsInv(templates, ws, events, k - 1);
      assert Follows(ws, events, k - 1);
      OnlyStartRevives(ws[k - 1], events[k - 1]);
      if ws[k].live.Some? { StepStays(ws[k - 1], events[k - 1], id, away); }
    }
  }

  lemma {:induction false} OnlyStartRevives(w: World, e: Event)
    requires Enabled(w, e) && !e.op.Start?
    ensures w.live.Some?
  {
    hide Perform;
  }

  /** One more `run` on an instance, in a live controller. */
  lemma {:induction false} LaunchEnabled(w: World, id: int, busy: set<int>, child: int)
    requires w.live.Some? && Int32(Run(w.live.value, id, busy, {}, child).state.nextPort)
    ensures var e := Event(Launch(id, busy, {}, child), None); var r := Run(w.live.value, id, busy, {}, child);
            && Enabled(w, e) && Step(w, e).live == Some(r.state)
            && Step(w, e).moved == if r.ports == [] then w.moved else w.moved + {id}
  {
    hide Run;
  }

  lemma {:induction false} OneMoreEvent(
    templates: map<string, Template>, ws: seq<World>, events: seq<Event>, e: Event)
    requires IsHistory(templates, ws, events) && Enabled(ws[|events|], e)
    ensures IsHistory(templates, ws + [Step(ws[|events|], e)], events + [e])
  {
    hide Perform, Step;
    var ws', events' := ws + [Step(ws[|events|], e)], events + [e];
    forall i: nat | i < |events'| ensures Follows(ws', events', i) {
      if i < |events| { assert Follows(ws, events, i); }
    }
  }

  /** One `run` takes the entry to any port above the next one to issue. */
  lemma {:induction false} OneMove(
    templates: map<string, Template>, ws: seq<World>, events: seq<Event>, id: int, port: int)
    returns (ws': seq<World>, events': seq<Event>)
    requires TemplatesNamed(templates) && IsHistory(templates, ws, events) && HasEntry(ws[|events|], id)
    requires var s := ws[|events|].live.value; port > s.nextPort && Int32(port) && s.table[id].sshPort != port
    ensures IsHistory(templates, ws', events')
    ensures |events'| == |events| + 1 && events' == events + [events'[|events|]] && !events'[|events|].op.Start?
    ensures ws' == ws + [ws'[|events'|]] && HasEntry(ws'[|events'|], id)
    ensures var w, w' := ws[|events|], ws'[|events'|];
            && w'.moved == w.moved + {id} && w'.live.value.nextPort == port
            && w'.live.value.table[id].sshPort == port
            && w'.live.value.table[id].optPort == w.live.value.table[id].optPort
  {
    hide Inv, Enabled, Step, Run, Below, IsHistory;
    LengthsOf(templates, ws, events);
    var w := ws[|events|];
    var s := w.live.value;
    RunKeepsInv(templates, ws, events, |events|);
    PortsAreInts(w, id);
    RunOnto(s, id, port, 1);
    var e := Event(Launch(id, Below(s, id, port), {}, 1), None);
    LaunchEnabled(w, id, Below(s, id, port), 1);
    OneMoreEvent(templates, ws, events, e);
    ws', events' := ws + [Step(w, e)], events + [e];
  }

  lemma {:induction false} PortsAreInts(w: World, id: int)
    requires Inv(w) && HasEntry(w, id)
    ensures Int32(w.live.value.nextPort) && Int32(w.live.value.table[id].optPort)
  {
    hide Load, DiskOk, Agreement;
  }

  /** An entry on its first port is first moved to the next one to issue, and then back. */
  lemma {:induction false} ComesBackInARun(templates: map<string, Template>, ws: seq<World>, events: seq<Event>,
      id: int)
    returns (ws': seq<World>, events': seq<Event>, k: nat)
    requires TemplatesNamed(templates) && IsHistory(templates, ws, events)
    requires HasEntry(ws[|events|], id) && !Settled(ws[|events|].live.value, id)
    ensures Returns(templates, ws, events, ws', events', id, k) && id in ws'[|events'|].moved
  {
    hide IsHistory, Inv;
    LengthsOf(templates, ws, events);
    RunKeepsInv(templates, ws, events, |events|);
    var w := ws[|events|];
    PortsAreInts(w, id);
    var s := w.live.value;
    if AtFirst(w, id) {
      var ws1, events1 := OneMove(templates, ws, events, id, s.nextPort + 1);
      ws', events' := OneMove(templates, ws1, events1, id, s.table[id].optPort);
      k := |events| + 1;
    } else {
      ws', events' := OneMove(templates, ws, events, id, s.table[id].optPort);
      k := |events|;
    }
  }

  /**
   Exactly when an entry can come back to its first port: for any entry of the running controller, some continuation of
   its lifetime finds the entry elsewhere and then on that port if and only if the port is above the next one to issue,
   or above the one after that if the entry still stands there.
   */
  lemma {:induction false} MayReturn(templates: map<string, Template>, ws: seq<World>, events: seq<Event>, id: int)
    requires TemplatesNamed(templates) && IsHistory(templates, ws, events) && HasEntry(ws[|events|], id)
    ensures var e, next := ws[|events|].live.value.table[id], ws[|events|].live.value.nextPort;
            (exists ws', events', k :: Returns(templates, ws, events, ws', events', id, k)) <==>
            e.optPort > if e.sshPort == e.optPort then next + 1 else next
  {
    hide IsHistory;
    LengthsOf(templates, ws, events);
    if Settled(ws[|events|].live.value, id) {
      forall ws', events', k ensures !Returns(templates, ws, events, ws', events', id, k) {
        if Returns(templates, ws, events, ws', events', id, k) {
          LengthsOf(templates, ws', events');
          assert ws'[|events|] == ws[|events|];
          RunStays(templates, ws', events', |events|, id, false, k);
          RunStays(templates, ws', events', k, id, true, |events'|);
        }
      }
    } else {
      var ws', events', k := ComesBackInARun(templates, ws, events, id);
    }
  }

  lemma {:induction false} LengthsOf(templates: map<string, Template>, ws: seq<World>, events: seq<Event>)
    requires IsHistory(templates, ws, events)
    ensures |ws| == |events| + 1
  {
  }

  // ----- a run in which it happens -----

  /** Start, create, and die after the last cookie: a complete directory that records port 21. */
  lemma {:induction false} DiesAfterCreate(templates: map<string, Template>, name: string)
    returns (ws: seq<World>, events: seq<Event>)
    requires TemplatesNamed(templates) && name in templates
    ensures IsHistory(templates, ws, events)
    ensures var w := ws[|events|];
            w.live.None? && w.dirs.Keys == {0} && Load(w.dirs[0]) == Some(Metadata(name, 64, 1, 21))
  {
    hide Load, Restore, CreateWrites, ToString;
    var w0 := Fresh(templates);
    var start := Event(Start(0, 20, [], {}), None);
    var s := State(templates, 0, 20, map[], map[]);
    assert Perform(w0, start.op) == Performed(s, true, [], []);
    assert Enabled(w0, start);
    var w1 := Step(w0, start);
    assert w1.live == Some(s) && w1.dirs == map[];
    var create := Event(Create(Request(name, 64, 1), {}, {}), Some(COMMIT));
    var c := Instantiate(s, name, 64, 1, {}, {});
    LeastFreeIs(21, {}, 21);
    LeastFreeIs(0, {}, 0);
    assert s.dirs.Keys + s.table.Keys == {};
    var s1 := BeforeRestore(s, name, 64, 1, {});
    CreateWritesFacts(map[], 0, name, 64, 1, 21, COMMIT - 1);
    DecimalRoundTrip(21);
    var d := CreateWrites(map[], 0, name, 64, 1, 21)[COMMIT - 1];
    assert s1 == State(templates, 0, 21, map[], d);
    RestoreFacts(s1, 0, {});
    InstantiateFacts(s, name, 64, 1, {}, {});
    assert Enabled(w1, create);
    var w2 := Step(w1, create);
    assert c.writes[..COMMIT][COMMIT - 1] == d;
    ws, events := [w0, w1, w2], [start, create];
    assert Follows(ws, events, 0) && Follows(ws, events, 1);
  }

  /**
   The next start gets a lower first port to issue. The instance keeps 21, which is free again; `run` moves it to 11
   while 21 is taken, and back to 21 while all ports between are.
   */
  lemma {:induction false} OptionPortCanReturn(templates: map<string, Template>, name: string)
    returns (ws: seq<World>, events: seq<Event>)
    requires TemplatesNamed(templates) && name in templates
    ensures IsHistory(templates, ws, events)
    ensures var w := ws[|events|];
            && w.live.Some? && 0 in w.moved && 0 in w.live.value.table
            && w.live.value.table[0].optPort == w.live.value.table[0].sshPort
  {
    hide Load, IsHistory;
    var ws0, events0 := DiesAfterCreate(templates, name);
    LengthsOf(templates, ws0, events0);
    RunKeepsInv(templates, ws0, events0, |events0|);
    var w := ws0[|events0|];
    var start := Event(Start(0, 10, [ToString(0)], {}), None);
    StartKeepsPort(w, name, start);
    OneMoreEvent(templates, ws0, events0, start);
    var k: nat;
    ws, events, k := ComesBackInARun(templates, ws0 + [Step(w, start)], events0 + [start], 0);
  }

  lemma {:induction false} StartKeepsPort(w: World, name: string, e: Event)
    requires w.live.None? && w.dirs.Keys == {0} && Load(w.dirs[0]) == Some(Metadata(name, 64, 1, 21))
             && name in w.templates
    requires e == Event(Start(0, 10, [ToString(0)], {}), None)
    ensures Enabled(w, e) && HasEntry(Step(w, e), 0) && AtFirst(Step(w, e), 0)
    ensures var s := Step(w, e).live.value; s.nextPort == 10 && s.table[0].optPort == 21
  {
    hide Load, ToString, Stoi;
    DecimalRoundTrip(0);
    var s0 := InitialState(w, 0, 10);
    var names := [ToString(0)];
    assert names[..0] == [];
    assert Scan(s0, names[..0], {}) == Scanning(s0, true, [], []);
    var r := Restore(s0, 0, {});
    assert r.state == s0.(table := map[0 := Entry(0, 64, 1, 21, w.templates[name], 21, 0)]);
    assert Scan(s0, names, {}).state == r.state && Scan(s0, names, {}).finished;
  }
}
