/** The controller's side of a connection: one request in, exactly one frame out. */
module Servers {
  import opened Wrappers
  import opened Decimal
  import opened Framing
  import opened FramingTheorems
  import opened Records
  import opened ControllerModel
  import opened ControllerTheorems
  import opened Sockets

  /** What the operating system shows while one request is served. */
  datatype Env = Env(busy: set<int>, busyLater: set<int>, alive: set<int>, child: int)

  const UNKNOWN := "unknown command"

  function BoolText(b: bool): string { ToString(if b then 1 else 0) }

  lemma {:induction false} BoolTextIs(b: bool)
    ensures BoolText(b) == if b then "1" else "0"
  {
    assert Digits(1) == ['1'] && Digits(0) == ['0'];
  }

  lemma {:induction false} EnumeratesElements<T>(order: seq<T>, keys: set<T>)
    requires Enumerates(order, keys)
    ensures forall i :: 0 <= i < |order| ==> order[i] in keys
    ensures forall k :: k in keys ==> exists i :: 0 <= i < |order| && order[i] == k
    ensures |order| == |keys|
  {
    assert forall i :: 0 <= i < |order| ==> order[i] in (set x | x in order);
    assert forall k :: k in keys ==> k in (set x | x in order);
    DistinctCount(order);
  }

  lemma {:induction false} DistinctCount<T>(order: seq<T>)
    requires NoDuplicates(order)
    ensures |set x | x in order| == |order|
  {
    if order != [] {
      var n := |order| - 1;
      DistinctCount(order[..n]);
      assert (set x | x in order) == (set x | x in order[..n]) + {order[n]};
      assert order[n] !in order[..n];
    }
  }

  /** The values of a map in the order `order` visits its keys. */
  function TemplatesIn(templates: map<string, Template>, order: seq<string>): (ts: seq<Template>)
    requires forall i :: 0 <= i < |order| ==> order[i] in templates
    ensures |ts| == |order| && forall i :: 0 <= i < |ts| ==> ts[i] == templates[order[i]]
  {
    seq(|order|, i requires 0 <= i < |order| => templates[order[i]])
  }

  function InfosIn(table: map<int, Entry>, order: seq<int>, alive: set<int>): (infos: seq<InstanceInfo>)
    requires forall i :: 0 <= i < |order| ==> order[i] in table
    ensures |infos| == |order| && forall i :: 0 <= i < |infos| ==> infos[i] == table[order[i]].Info(alive)
  {
    hide ToString;
    seq(|order|, i requires 0 <= i < |order| => table[order[i]].Info(alive))
  }

  /** A request the handler does not die on. */
  predicate WellFormedRequest(r: seq<string>) {
    && WellFormed(r)
    && (r[0] == "instantiate" ==> |r| >= 1 + INSTANCE_SIZE && InstanceInfo.Deserialize(r[1..]).Some?)
    && (r[0] == "run" || r[0] == "kill" ==> |r| >= 2)
  }

  datatype Served = Served(state: State, lines: seq<string>)

  /** The record sent back for `instantiate`: the new instance, or the request itself. */
  function Granted(s: State, x: InstanceInfo, env: Env): InstanceInfo {
    if x.templ !in s.templates then x
    else
      var c := Instantiate(s, s.templates[x.templ].name, x.memory, x.cpus, env.busy, env.busyLater);
      if c.outcome == Restored && c.id in c.state.table then c.state.table[c.id].Info(env.alive) else x
  }

  function ServeInstantiate(s: State, x: InstanceInfo, env: Env): Served {
    if x.templ !in s.templates then Served(s, x.Serialize())
    else
      var c := Instantiate(s, s.templates[x.templ].name, x.memory, x.cpus, env.busy, env.busyLater);
      Served(c.state, Granted(s, x, env).Serialize())
  }

  function ServeRun(s: State, id: string, env: Env): Served {
    match Stoi(id)
    case Number(n) =>
      var r := Run(s, n, env.busy, env.alive, env.child);
      Served(r.state, [BoolText(r.ok)])
    case _ => Served(s, [BoolText(false)])
  }

  function ServeKill(s: State, id: string, env: Env): Served {
    match Stoi(id)
    case Number(n) => Served(s, [BoolText(Kill(s, n, env.alive).0)])
    case _ => Served(s, [BoolText(false)])
  }

  /** The order in which a request's map is visited, if it visits one: every key once. */
  predicate Visits(s: State, r: seq<string>, names: seq<string>, ids: seq<int>)
    requires WellFormedRequest(r)
  {
    && (r[0] == "getTemplates" ==> Enumerates(names, s.templates.Keys))
    && (r[0] == "getInstances" ==> Enumerates(ids, s.table.Keys))
  }

  /** The lines written in answer to a request, when the two maps are visited in the given orders. */
  function Serve(s: State, r: seq<string>, env: Env, names: seq<string>, ids: seq<int>): Served
    requires WellFormedRequest(r) && Visits(s, r, names, ids)
  {
    if r[0] == "getTemplates" then
      EnumeratesElements(names, s.templates.Keys);
      Served(s, SerializeTemplates(TemplatesIn(s.templates, names)))
    else if r[0] == "getInstances" then
      EnumeratesElements(ids, s.table.Keys);
      Served(s, if |s.table| == 0 then [""] else SerializeInstances(InfosIn(s.table, ids, env.alive)))
    else if r[0] == "instantiate" then ServeInstantiate(s, InstanceInfo.Deserialize(r[1..]).value, env)
    else if r[0] == "run" then ServeRun(s, r[1], env)
    else if r[0] == "kill" then ServeKill(s, r[1], env)
    else Served(s, [UNKNOWN])
  }

  // ----- every request is answered by one frame -----

  /** Everything the controller might print can be a line of a frame. */
  ghost predicate Servable(s: State) {
    && TemplatesNamed(s.templates) && s.templates != map[]
    && (forall n :: n in s.templates ==> s.templates[n].Printable())
    && Int32(s.nextPort)
    && forall id :: id in s.table ==> s.table[id].id == id && ServableEntry(s.table[id])
  }

  predicate ServableEntry(e: Entry) {
    Int32(e.memory) && Int32(e.cpus) && Int32(e.sshPort) && e.templ.Printable()
  }

  lemma {:induction false} InfoIsPrintable(e: Entry, alive: set<int>)
    requires ServableEntry(e)
    ensures e.Info(alive).Printable()
  {
    TextIsPlain(e.id);
    assert e.templ.Serialize()[0] == e.templ.name;
  }

  lemma {:induction false} PrintableIsOneFrame(lines: seq<string>)
    requires lines != [] && AllPrintable(lines)
    ensures OneFrame(lines)
  {
  }

  /** A record that was just parsed from a request can be echoed. */
  lemma {:induction false} EchoIsLegal(r: seq<string>)
    requires WellFormedRequest(r) && r[0] == "instantiate"
    ensures InstanceInfo.Deserialize(r[1..]).value.Printable()
  {
    hide Stoi;
    assert r[1] != "" && r[2] != "" && Clean(r[1]) && Clean(r[2]);
    var x := InstanceInfo.Deserialize(r[1..]).value;
    assert x.id == r[1] && x.templ == r[2];
    StoiInRange(r[1..][2]);
    StoiInRange(r[1..][3]);
    StoiInRange(r[1..][4]);
  }

  lemma {:induction false} StoiInRange(s: string)
    ensures Stoi(s).Number? ==> Int32(Stoi(s).value)
  {
  }

  lemma {:induction false} RestoredIsServable(s: State, id: int, busy: set<int>)
    requires Servable(s) && Int32(Restore(s, id, busy).state.nextPort)
    ensures Servable(Restore(s, id, busy).state)
  {
    hide Restore, Load;
    RestoreFacts(s, id, busy);
    if Restorable(s, id) && id !in s.table { LoadInRange(s.dirs[id]); }
  }

  lemma {:induction false} LoadInRange(d: Dir)
    requires Load(d).Some?
    ensures Int32(Load(d).value.memory) && Int32(Load(d).value.cpus) && Int32(Load(d).value.sshPort)
  {
    hide Convert;
  }

  lemma {:induction false} BeforeRestoreIsServable(s: State, templ: string, memory: int, cpus: int, busy: set<int>)
    requires Servable(s) && Int32(NextPort(s, busy))
    ensures Servable(BeforeRestore(s, templ, memory, cpus, busy))
  {
  }

  /** `instantiate` on a template the controller has never fails, and its answer is a printable record. */
  lemma {:induction false} ServeInstantiateFacts(s: State, x: InstanceInfo, env: Env)
    requires Servable(s) && x.Printable() && Int32(ServeInstantiate(s, x, env).state.nextPort)
    ensures Servable(ServeInstantiate(s, x, env).state)
    ensures AllPrintable(ServeInstantiate(s, x, env).lines) && |ServeInstantiate(s, x, env).lines| == INSTANCE_SIZE
    ensures x.templ in s.templates ==>
              var c := Instantiate(s, x.templ, x.memory, x.cpus, env.busy, env.busyLater);
              && c.outcome == Restored && c.id in c.state.table
              && ServeInstantiate(s, x, env).state == c.state
                 && Shows(Granted(s, x, env), ToString(c.id), c.state.table[c.id], env.alive)
              && c.id !in s.table && c.state.table == s.table[c.id := c.state.table[c.id]]
              && (var e := c.state.table[c.id];
                  e.templ == s.templates[x.templ] && e.memory == x.memory && e.cpus == x.cpus)
    ensures x.templ !in s.templates ==> ServeInstantiate(s, x, env).state == s && Granted(s, x, env) == x
    ensures Granted(s, x, env).Printable() && ServeInstantiate(s, x, env).lines == Granted(s, x, env).Serialize()
  {
    hide Restore, CreateWrites, Load, ToString;
    PrintableLines(x);
    if x.templ in s.templates {
      var s1 := BeforeRestore(s, x.templ, x.memory, x.cpus, env.busy);
      var r := Restore(s1, s1.nextId, env.busyLater);
      assert s.templates[x.templ].name == x.templ && Clean(x.templ);
      RestoreFacts(s1, s1.nextId, env.busyLater);
      BeforeRestoreIsServable(s, x.templ, x.memory, x.cpus, env.busy);
      RestoredIsServable(s1, s1.nextId, env.busyLater);
      CreateWritesFacts(s.dirs, s1.nextId, x.templ, x.memory, x.cpus, s1.nextPort, COMMIT - 1);
      assert Restorable(s1, s1.nextId);
      InfoIsPrintable(r.state.table[s1.nextId], env.alive);
      PrintableLines(r.state.table[s1.nextId].Info(env.alive));
    }
  }

  lemma {:induction false} RunIsServable(s: State, id: int, env: Env)
    requires Servable(s) && Int32(Run(s, id, env.busy, env.alive, env.child).state.nextPort)
    ensures Servable(Run(s, id, env.busy, env.alive, env.child).state)
  {
    hide ToString, WriteCookie;
  }

  /**
   Whatever the request, the state and the earlier traffic on the connection, the answer is exactly one frame,
   and it reads back as the lines written (as no lines, when there are no instances).
   */
  lemma {:induction false} ServeTotal(s: State, r: seq<string>, env: Env, names: seq<string>, ids: seq<int>,
      writeCount: int, rest: string)
    requires WellFormedRequest(r) && Servable(s) && Visits(s, r, names, ids)
    requires Int32(Serve(s, r, env, names, ids).state.nextPort)
    ensures var a := Serve(s, r, env, names, ids);
            && Servable(a.state) && OneFrame(a.lines)
            && IsOneFrame(ReplyBytes(writeCount, a.lines))
            && HasFrame(ReplyBytes(writeCount, a.lines) + rest)
            && FrameLines(ReplyBytes(writeCount, a.lines) + rest) == Decoded(a.lines)
            && AfterFrame(ReplyBytes(writeCount, a.lines) + rest) == rest
  {
    hide ServeInstantiate, ServeRun, ServeKill, Servable, InstanceInfo.Deserialize, ReplyBytes, Encode,
      SerializeTemplates, SerializeInstances;
    var a := Serve(s, r, env, names, ids);
    ServeLines(s, r, env, names, ids);
    ReplyIsEncode(writeCount, a.lines);
    MessageIsFrame(a.lines);
    FrameOfMessage(a.lines, rest);
  }

  lemma {:induction false} ServeLines(s: State, r: seq<string>, env: Env, names: seq<string>, ids: seq<int>)
    requires WellFormedRequest(r) && Servable(s) && Visits(s, r, names, ids)
    requires Int32(Serve(s, r, env, names, ids).state.nextPort)
    ensures Servable(Serve(s, r, env, names, ids).state)
    ensures OneFrame(Serve(s, r, env, names, ids).lines)
  {
    hide ServeInstantiate, ServeRun, ServeKill, InstanceInfo.Deserialize, SerializeTemplates, SerializeInstances,
      Servable;
    if r[0] == "getTemplates" {
      TemplatesAreLegal(s, names);
    } else if r[0] == "getInstances" {
      if |s.table| != 0 { InstancesAreLegal(s, ids, env.alive); }
    } else if r[0] == "instantiate" {
      EchoIsLegal(r);
      ServeInstantiateFacts(s, InstanceInfo.Deserialize(r[1..]).value, env);
      PrintableIsOneFrame(ServeInstantiate(s, InstanceInfo.Deserialize(r[1..]).value, env).lines);
    } else if r[0] == "run" {
      ServeRunFacts(s, r[1], env);
    } else if r[0] == "kill" {
      ServeKillFacts(s, r[1], env);
    }
  }

  lemma {:induction false} TemplatesAreLegal(s: State, names: seq<string>)
    requires Servable(s) && Enumerates(names, s.templates.Keys)
    ensures (forall i :: 0 <= i < |names| ==> names[i] in s.templates)
    ensures OneFrame(SerializeTemplates(TemplatesIn(s.templates, names)))
  {
    hide SerializeTemplates, Enumerates;
    EnumeratesElements(names, s.templates.Keys);
    var ts := TemplatesIn(s.templates, names);
    assert |ts| > 0;
    forall i | 0 <= i < |ts| ensures ts[i].Printable() { assert names[i] in s.templates; }
    TemplateLines(ts);
    PrintableIsOneFrame(SerializeTemplates(ts));
  }

  lemma {:induction false} InstancesAreLegal(s: State, ids: seq<int>, alive: set<int>)
    requires Servable(s) && Enumerates(ids, s.table.Keys)
    ensures (forall i :: 0 <= i < |ids| ==> ids[i] in s.table)
    ensures forall i :: 0 <= i < |ids| ==> InfosIn(s.table, ids, alive)[i].Printable()
    ensures s.table != map[] ==> OneFrame(SerializeInstances(InfosIn(s.table, ids, alive)))
  {
    hide SerializeInstances, Enumerates, ToString;
    EnumeratesElements(ids, s.table.Keys);
    var infos := InfosIn(s.table, ids, alive);
    forall i | 0 <= i < |infos| ensures infos[i].Printable() {
      var id := ids[i];
      assert id in s.table;
      assert ServableEntry(s.table[id]);
      InfoIsPrintable(s.table[id], alive);
    }
    InstanceLines(infos);
    if s.table != map[] {
      assert |s.table.Keys| > 0;
      PrintableIsOneFrame(SerializeInstances(infos));
    }
  }

  lemma {:induction false} ServeRunFacts(s: State, id: string, env: Env)
    requires Servable(s) && Int32(ServeRun(s, id, env).state.nextPort)
    ensures Servable(ServeRun(s, id, env).state) && OneFrame(ServeRun(s, id, env).lines)
  {
    hide Run, Stoi, ToString, Servable;
    TextIsPlain(0);
    TextIsPlain(1);
    if Stoi(id).Number? { RunIsServable(s, Stoi(id).value, env); }
  }

  lemma {:induction false} ServeKillFacts(s: State, id: string, env: Env)
    requires Servable(s)
    ensures Servable(ServeKill(s, id, env).state) && OneFrame(ServeKill(s, id, env).lines)
  {
    hide Kill, Stoi, ToString;
    TextIsPlain(0);
    TextIsPlain(1);
  }
}
