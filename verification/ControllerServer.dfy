/** The controller's command handler: one turn of its endless loop over one connection. */
module ControllerServers {
  import opened Wrappers
  import opened Decimal
  import opened Framing
  import opened Records
  import opened ControllerModel
  import opened Controllers
  import opened Sockets
  import opened Servers

  lemma {:induction false} SerializeOneTemplate(templates: map<string, Template>, order: seq<string>, k: string)
    requires (forall i :: 0 <= i < |order| ==> order[i] in templates) && k in templates
    ensures forall i :: 0 <= i < |order + [k]| ==> (order + [k])[i] in templates
    ensures SerializeTemplates(TemplatesIn(templates, order + [k])) ==
            SerializeTemplates(TemplatesIn(templates, order)) + templates[k].Serialize()
  {
    var all := order + [k];
    assert all[..|all| - 1] == order;
    var ts := TemplatesIn(templates, order);
    assert TemplatesIn(templates, all) == ts + [templates[k]];
    assert (ts + [templates[k]])[..|ts|] == ts;
  }

  lemma {:induction false} SerializeOneInstance(table: map<int, Entry>, order: seq<int>, k: int, alive: set<int>)
    requires (forall i :: 0 <= i < |order| ==> order[i] in table) && k in table
    ensures forall i :: 0 <= i < |order + [k]| ==> (order + [k])[i] in table
    ensures SerializeInstances(InfosIn(table, order + [k], alive)) ==
            SerializeInstances(InfosIn(table, order, alive)) + table[k].Info(alive).Serialize()
  {
    hide ToString;
    var all := order + [k];
    assert all[..|all| - 1] == order;
    var infos := InfosIn(table, order, alive);
    assert InfosIn(table, all, alive) == infos + [table[k].Info(alive)];
    assert (infos + [table[k].Info(alive)])[..|infos|] == infos;
  }

  class ControllerServer {
    const socket: Socket
    const controller: Controller

    ghost predicate Valid()
      reads socket, controller`instances
    {
      socket.Valid() && controller.Valid()
    }

    constructor (socket: Socket, controller: Controller)
      requires socket.Valid() && controller.Valid()
      ensures Valid() && this.socket == socket && this.controller == controller
    {
      this.socket, this.controller := socket, controller;
    }

    /** Visits the templates in the order of the map, which is `order`. */
    method WriteTemplates(order: seq<string>)
      requires socket.Valid() && Enumerates(order, controller.templates.Keys)
      modifies socket`writeCount, socket`sent, socket.outbound
      ensures socket.Valid()
      ensures forall i :: 0 <= i < |order| ==> order[i] in controller.templates
      ensures socket.Wrote(old(socket.outbound.pending), old(socket.writeCount),
                    SerializeTemplates(TemplatesIn(controller.templates, order)))
    {
      hide SerializeTemplates, Socket.Wrote, TemplatesIn, Enumerates;
      EnumeratesElements(order, controller.templates.Keys);
      var templates := controller.templates;
      NoLines(templates, map[], {});
      assert order[..0] == [];
      assert socket.Wrote(socket.outbound.pending, socket.writeCount, []) by { socket.WroteNothing(); }
      for i := 0 to |order|
        invariant socket.Valid()
        invariant socket.Wrote(old(socket.outbound.pending), old(socket.writeCount),
                        SerializeTemplates(TemplatesIn(templates, order[..i])))
      {
        assert order[..i + 1] == order[..i] + [order[i]];
        SerializeOneTemplate(templates, order[..i], order[i]);
        socket.Emit(templates[order[i]].Serialize(), old(socket.outbound.pending), old(socket.writeCount),
             SerializeTemplates(TemplatesIn(templates, order[..i])));
      }
      assert order[..|order|] == order;
    }

    method WriteInstances(order: seq<int>, alive: set<int>)
      requires socket.Valid() && Enumerates(order, controller.instances.Keys)
      modifies socket`writeCount, socket`sent, socket.outbound
      ensures socket.Valid()
      ensures forall i :: 0 <= i < |order| ==> order[i] in controller.instances
      ensures socket.Wrote(old(socket.outbound.pending), old(socket.writeCount),
                    SerializeInstances(InfosIn(old(controller.Table()), order, alive)))
    {
      hide SerializeInstances, ToString, Socket.Wrote, InfosIn, Enumerates;
      EnumeratesElements(order, controller.instances.Keys);
      ghost var table := controller.Table();
      NoLines(map[], table, alive);
      assert order[..0] == [];
      assert socket.Wrote(socket.outbound.pending, socket.writeCount, []) by { socket.WroteNothing(); }
      for i := 0 to |order|
        invariant socket.Valid() && controller.Table() == table
        invariant socket.Wrote(old(socket.outbound.pending), old(socket.writeCount),
                        SerializeInstances(InfosIn(table, order[..i], alive)))
      {
        assert order[..i + 1] == order[..i] + [order[i]];
        SerializeOneInstance(table, order[..i], order[i], alive);
        var info := controller.instances[order[i]].GetInstanceInfo(alive);
        socket.Emit(info.Serialize(), old(socket.outbound.pending), old(socket.writeCount),
             SerializeInstances(InfosIn(table, order[..i], alive)));
      }
      assert order[..|order|] == order;
    }

    /** The record to send back: the new instance, or the request when it cannot be granted. */
    method Grant(x: InstanceInfo, env: Env) returns (info: InstanceInfo)
      requires controller.Valid()
      modifies controller, controller.disk
      ensures controller.Valid()
      ensures fresh(controller.Insts() - old(controller.Insts())) && fresh(controller.Procs() - old(controller.Procs()))
      ensures controller.View() == ServeInstantiate(old(controller.View()), x, env).state
      ensures info == Granted(old(controller.View()), x, env)
    {
      hide Instantiate, InstanceInfo.Serialize, Controller.View, Controller.Table, Controller.Valid, ToString;
      controller.Shows();
      if x.templ !in controller.templates { return x; }
      var inst, outcome := controller.InstantiateInstance(
        controller.templates[x.templ], x.memory, x.cpus, env.busy, env.busyLater);
      if inst == null { return x; }
      controller.Shows();
      info := inst.GetInstanceInfo(env.alive);
    }

    method AnswerInstantiate(commands: seq<string>, env: Env)
      requires Valid() && |commands| >= 1 + INSTANCE_SIZE && InstanceInfo.Deserialize(commands[1..]).Some?
      modifies socket`writeCount, socket`sent, socket.outbound, controller, controller.disk
      ensures Valid() && fresh(controller.Insts() - old(controller.Insts()))
              && fresh(controller.Procs() - old(controller.Procs()))
      ensures var a := ServeInstantiate(old(controller.View()), InstanceInfo.Deserialize(commands[1..]).value, env);
              controller.View() == a.state && socket.Wrote(old(socket.outbound.pending), old(socket.writeCount),
                  a.lines)
    {
      hide ServeInstantiate, Granted, InstanceInfo.Serialize, InstanceInfo.Deserialize, EncodeLines, Controller.View,
        Controller.Table, Controller.Valid;
      var x := InstanceInfo.Deserialize(commands[1..]).value;
      GrantedLines(controller.View(), x, env);
      var info := Grant(x, env);
      socket.WriteLines(info.Serialize());
    }

    lemma {:induction false} GrantedLines(s: State, x: InstanceInfo, env: Env)
      ensures ServeInstantiate(s, x, env).lines == Granted(s, x, env).Serialize()
              && Granted(s, x, env).Serialize() != []
    {
      hide Instantiate, ToString;
    }

    method AnswerRun(id: string, env: Env)
      requires Valid()
      modifies socket`writeCount, socket`sent, socket.outbound
      modifies controller, controller.disk, controller.Insts(), controller.Procs()
      ensures Valid() && controller.Insts() == old(controller.Insts()) && controller.Procs() == old(controller.Procs())
      ensures var a := ServeRun(old(controller.View()), id, env);
              controller.View() == a.state && socket.Wrote(old(socket.outbound.pending), old(socket.writeCount),
                  a.lines)
    {
      hide Run, ToString, Stoi;
      var result := false;
      match Stoi(id) {
        case Number(n) => result := controller.RunInstance(n, env.busy, env.alive, env.child);
        case _ =>
      }
      socket.WriteLine(BoolText(result));
    }

    method AnswerKill(id: string, env: Env)
      requires Valid()
      modifies socket`writeCount, socket`sent, socket.outbound
      ensures Valid()
      ensures socket.Wrote(old(socket.outbound.pending), old(socket.writeCount),
              ServeKill(old(controller.View()), id, env).lines)
    {
      hide Kill, ToString, Stoi;
      var result := false;
      match Stoi(id) {
        case Number(n) =>
          var signalled;
          result, signalled := controller.KillInstance(n, env.alive);
        case _ =>
      }
      socket.WriteLine(BoolText(result));
    }

    /** The branches of `run`: the lines written before `send`. */
    method Answer(commands: seq<string>, env: Env, names: seq<string>, ids: seq<int>)
      requires Valid() && WellFormedRequest(commands) && Visits(controller.View(), commands, names, ids)
      modifies socket`writeCount, socket`sent, socket.outbound
      modifies controller, controller.disk, controller.Insts(), controller.Procs()
      ensures Valid() && fresh(controller.Insts() - old(controller.Insts()))
              && fresh(controller.Procs() - old(controller.Procs()))
      ensures var a := Serve(old(controller.View()), commands, env, names, ids);
              controller.View() == a.state && socket.Wrote(old(socket.outbound.pending), old(socket.writeCount),
                  a.lines)
    {
      hide ServeInstantiate, ServeRun, ServeKill, InstanceInfo.Deserialize, Visits, Socket.Wrote, Serve;
      ServeBranches(controller.View(), commands, env, names, ids);
      var cmd := commands[0];
      if cmd == "instantiate" {
        AnswerInstantiate(commands, env);
      } else if cmd == "run" {
        AnswerRun(commands[1], env);
      } else if cmd == "kill" {
        AnswerKill(commands[1], env);
      } else {
        AnswerReading(commands, env, names, ids);
      }
    }

    lemma {:induction false} ServeBranches(s: State, r: seq<string>, env: Env, names: seq<string>, ids: seq<int>)
      requires WellFormedRequest(r) && Visits(s, r, names, ids)
      ensures var a := Serve(s, r, env, names, ids);
              if r[0] == "instantiate" then a == ServeInstantiate(s, InstanceInfo.Deserialize(r[1..]).value, env)
              else if r[0] == "run" then a == ServeRun(s, r[1], env)
              else if r[0] == "kill" then a == ServeKill(s, r[1], env) && a.state == s
              else a.state == s
    {
      hide ServeInstantiate, ServeRun, InstanceInfo.Deserialize, Stoi, Kill, SerializeTemplates, SerializeInstances;
    }

    /** The requests that only look: the two listings, and anything unknown. */
    method AnswerReading(commands: seq<string>, env: Env, names: seq<string>, ids: seq<int>)
      requires Valid() && WellFormedRequest(commands) && Visits(controller.View(), commands, names, ids)
      requires commands[0] != "instantiate" && commands[0] != "run" && commands[0] != "kill"
      modifies socket`writeCount, socket`sent, socket.outbound
      ensures Valid()
      ensures socket.Wrote(old(socket.outbound.pending), old(socket.writeCount),
                    Serve(old(controller.View()), commands, env, names, ids).lines)
    {
      hide SerializeInstances, SerializeTemplates, Socket.Wrote, Enumerates, InstanceInfo.Deserialize;
      SameSize(controller.instances, controller.View().table);
      if commands[0] == "getTemplates" {
        WriteTemplates(names);
      } else if commands[0] == "getInstances" {
        if |controller.instances| == 0 {
          socket.WriteOnly("");
        } else {
          WriteInstances(ids, env.alive);
        }
      } else {
        socket.WriteOnly(UNKNOWN);
      }
    }

    /** Reads one request, answers it, and closes the answer with a blank line. */
    method HandleRequest(env: Env, names: seq<string>, ids: seq<int>)
      requires Valid() && HasFrame(socket.inbound.pending) && WellFormedRequest(FrameLines(socket.inbound.pending))
      requires Visits(controller.View(), FrameLines(socket.inbound.pending), names, ids)
      modifies socket`writeCount, socket`sent, socket.inbound, socket.outbound
      modifies controller, controller.disk, controller.Insts(), controller.Procs()
      ensures Valid() && fresh(controller.Insts() - old(controller.Insts()))
              && fresh(controller.Procs() - old(controller.Procs()))
      ensures socket.inbound.pending == AfterFrame(old(socket.inbound.pending))
      ensures var a := Serve(old(controller.View()), FrameLines(old(socket.inbound.pending)), env, names, ids);
              && controller.View() == a.state
              && socket.outbound.pending == old(socket.outbound.pending) + ReplyBytes(old(socket.writeCount), a.lines)
    {
      hide Serve, EncodeLines, WellFormedRequest, Visits, HasFrame, FrameLines, AfterFrame, Controller.View,
        Controller.Table, Controller.Valid;
      var commands := socket.Read();
      Answer(commands, env, names, ids);
      socket.Send();
    }
  }

  lemma {:induction false} SameSize<V, W>(a: map<int, V>, b: map<int, W>)
    requires a.Keys == b.Keys
    ensures |a| == |b|
  {
    assert |a| == |a.Keys| && |b| == |b.Keys|;
  }

  lemma {:induction false} NoLines(templates: map<string, Template>, table: map<int, Entry>, alive: set<int>)
    ensures SerializeTemplates(TemplatesIn(templates, [])) == []
    ensures SerializeInstances(InfosIn(table, [], alive)) == []
  {
  }
}
