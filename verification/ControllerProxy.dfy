/** The caller's side: each operation is one request, one reply, and the loop that turns lines back into values. */
module ControllerProxies {
  import opened Wrappers
  import opened Decimal
  import opened Framing
  import opened FramingTheorems
  import opened Records
  import opened ControllerModel
  import opened Controllers
  import opened Sockets
  import opened Servers
  import opened ControllerServers

  // ----- chunking -----

  /** A piece of a prefix is a piece of the whole. */
  lemma {:induction false} PieceOfPrefix(data: seq<string>, n: nat, low: nat, high: nat)
    requires low <= high <= n <= |data|
    ensures data[..n][low..high] == data[low..high]
  {
  }

  /** The record at `j` is the one in the lines from `j * 6`. */
  lemma {:induction false} ParsedAt(data: seq<string>, j: nat)
    requires |data| % INSTANCE_SIZE == 0 && ParseInstances(data).Some? && j * INSTANCE_SIZE < |data|
    ensures j < |ParseInstances(data).value| && (j + 1) * INSTANCE_SIZE <= |data|
    ensures InstanceInfo.Deserialize(data[j * INSTANCE_SIZE..(j + 1) * INSTANCE_SIZE]) ==
            Some(ParseInstances(data).value[j])
    decreases |data|
  {
    hide InstanceInfo.Deserialize;
    var n := |data| - INSTANCE_SIZE;
    var low, high := j * INSTANCE_SIZE, (j + 1) * INSTANCE_SIZE;
    if high <= n {
      ParsedAt(data[..n], j);
      PieceOfPrefix(data, n, low, high);
    } else {
      assert low == n && data[low..high] == data[n..];
    }
  }

  lemma {:induction false} ParsedTemplateAt(data: seq<string>, j: nat)
    requires |data| % TEMPLATE_SIZE == 0 && j * TEMPLATE_SIZE < |data|
    ensures j < |ParseTemplates(data)| && (j + 1) * TEMPLATE_SIZE <= |data|
    ensures Template.Deserialize(data[j * TEMPLATE_SIZE..(j + 1) * TEMPLATE_SIZE]) == ParseTemplates(data)[j]
    decreases |data|
  {
    hide Template.Deserialize;
    var n := |data| - TEMPLATE_SIZE;
    var low, high := j * TEMPLATE_SIZE, (j + 1) * TEMPLATE_SIZE;
    if high <= n {
      ParsedTemplateAt(data[..n], j);
      PieceOfPrefix(data, n, low, high);
    } else {
      assert low == n && data[low..high] == data[n..];
    }
  }

  /** One turn of the chunking loops. */
  lemma {:induction false} IndexNext<R>(rs: seq<R>, key: R -> string, j: nat)
    requires j < |rs|
    ensures Index(rs[..j + 1], key) == Index(rs[..j], key)[key(rs[j]) := rs[j]]
  {
    assert rs[..j + 1][..j] == rs[..j];
  }

  lemma {:induction false} IndexNothing<R>(rs: seq<R>, key: R -> string)
    ensures Index(rs[..0], key) == map[]
  {
  }

  // ----- what a listing means -----

  /** The map is the controller's table: one record per instance, under the decimal text of its id. */
  ghost predicate IsListing(m: map<string, InstanceInfo>, table: map<int, Entry>, alive: set<int>) {
    && |m| == |table|
    && (forall k :: k in m ==> exists id :: id in table && k == ToString(id))
    && (forall id :: id in table ==> ToString(id) in m && Shows(m[ToString(id)], ToString(id), table[id], alive))
  }

  lemma {:induction false} IndexIsListing(table: map<int, Entry>, order: seq<int>, alive: set<int>)
    requires Enumerates(order, table.Keys) && forall id :: id in table ==> table[id].id == id
    requires forall i :: 0 <= i < |order| ==> order[i] in table
    ensures IsListing(Index(InfosIn(table, order, alive), IdOf), table, alive)
    ensures DistinctKeys(InfosIn(table, order, alive), IdOf)
  {
    hide ToString, Index, Enumerates;
    EnumeratesElements(order, table.Keys);
    var infos := InfosIn(table, order, alive);
    assert NoDuplicates(order) by { OrderIsDistinct(order, table.Keys); }
    forall i, j | 0 <= i < j < |infos| ensures IdOf(infos[i]) != IdOf(infos[j]) {
      Injective(order[i], order[j]);
    }
    IndexSize(infos, IdOf);
    var m := Index(infos, IdOf);
    assert |table| == |table.Keys|;
    forall k | k in m ensures exists id :: id in table && k == ToString(id) {
      IndexKeys(infos, IdOf, k);
      var i :| 0 <= i < |infos| && IdOf(infos[i]) == k;
      assert order[i] in table && k == ToString(order[i]);
    }
    forall id | id in table ensures ToString(id) in m && Shows(m[ToString(id)], ToString(id), table[id], alive) {
      var i :| 0 <= i < |order| && order[i] == id;
      IndexLast(infos, IdOf, i);
    }
  }

  lemma {:induction false} OrderIsDistinct<T>(order: seq<T>, keys: set<T>)
    requires Enumerates(order, keys)
    ensures NoDuplicates(order)
  {
  }

  lemma {:induction false} IndexIsTemplates(templates: map<string, Template>, order: seq<string>)
    requires Enumerates(order, templates.Keys) && forall n :: n in templates ==> templates[n].name == n
    requires forall i :: 0 <= i < |order| ==> order[i] in templates
    ensures Index(TemplatesIn(templates, order), NameOf) == templates
  {
    hide Index, Enumerates;
    EnumeratesElements(order, templates.Keys);
    var ts := TemplatesIn(templates, order);
    var m := Index(ts, NameOf);
    assert NoDuplicates(order) by { OrderIsDistinct(order, templates.Keys); }
    forall k ensures k in m <==> k in templates {
      IndexKeys(ts, NameOf, k);
      if k in m {
        var i :| 0 <= i < |ts| && NameOf(ts[i]) == k;
        assert order[i] in templates;
      }
      if k in templates {
        var i :| 0 <= i < |order| && order[i] == k;
        assert NameOf(ts[i]) == k;
      }
    }
    forall k | k in templates ensures m[k] == templates[k] {
      var i :| 0 <= i < |order| && order[i] == k;
      assert forall j :: 0 <= j < |order| ==> order[j] in templates && ts[j].name == order[j];
      IndexLast(ts, NameOf, i);
    }
  }

  /** The reply to `getInstances`, once read, parses back to the very infos that were printed. */
  lemma {:induction false} ListingReply(s: State, ids: seq<int>, alive: set<int>)
    requires Servable(s) && Enumerates(ids, s.table.Keys)
    ensures forall i :: 0 <= i < |ids| ==> ids[i] in s.table
    ensures var lines := if |s.table| == 0 then [""] else SerializeInstances(InfosIn(s.table, ids, alive));
            |Decoded(lines)| % INSTANCE_SIZE == 0 && ParseInstances(Decoded(lines)) ==
                Some(InfosIn(s.table, ids, alive))
  {
    hide SerializeInstances, ParseInstances, ToString, Enumerates;
    EnumeratesElements(ids, s.table.Keys);
    InstancesAreLegal(s, ids, alive);
    var infos := InfosIn(s.table, ids, alive);
    InstancesRoundTrip(infos);
    assert |s.table| == |s.table.Keys|;
    if |s.table| == 0 {
      assert infos == [];
      assert ParseInstances([]) == Some([]) by { NothingParses(); }
    } else {
      assert |SerializeInstances(infos)| >= INSTANCE_SIZE;
    }
  }

  lemma {:induction false} TemplatesReply(s: State, names: seq<string>)
    requires Servable(s) && Enumerates(names, s.templates.Keys)
    ensures forall i :: 0 <= i < |names| ==> names[i] in s.templates
    ensures var lines := SerializeTemplates(TemplatesIn(s.templates, names));
            Decoded(lines) == lines && |lines| % TEMPLATE_SIZE == 0
                && ParseTemplates(lines) == TemplatesIn(s.templates, names)
  {
    hide SerializeTemplates, ParseTemplates, Enumerates;
    EnumeratesElements(names, s.templates.Keys);
    TemplatesRoundTrip(TemplatesIn(s.templates, names));
  }

  lemma {:induction false} NothingAround(s: string)
    ensures "" + s == s == s + ""
  {
  }

  // ----- the proxy -----

  /** A connection between a proxy and the controller it stands for, served in sequence. */
  class ControllerProxy {
    const socket: Socket
    const server: ControllerServer

    ghost predicate Connected()
      reads socket, server.socket
    {
      && socket.Valid() && server.socket.Valid() && socket != server.socket
      && socket.outbound == server.socket.inbound && socket.inbound == server.socket.outbound
    }

    /** Between operations nothing is in flight, in either direction. */
    ghost predicate Valid()
      reads socket, server.socket, socket.inbound, socket.outbound
      reads server.controller, server.controller.disk, server.controller.Insts(), server.controller.Procs()
    {
      && Connected()
      && socket.inbound.pending == "" && socket.outbound.pending == ""
      && server.controller.Valid() && Servable(server.controller.View())
    }

    ghost function View(): State
      reads server.controller, server.controller.disk, server.controller.Insts(), server.controller.Procs()
    { server.controller.View() }

    lemma {:induction false} CanBeServed()
      requires Valid()
      ensures Connected() && socket != server.socket && socket.inbound != socket.outbound
      ensures socket.inbound.pending == "" && socket.outbound.pending == ""
      ensures server.controller.Valid() && Servable(View())
    {
      hide Servable;
    }

    lemma {:induction false} Settled()
      requires Connected() && socket.inbound.pending == "" && socket.outbound.pending == ""
      requires server.controller.Valid() && Servable(View())
      ensures Valid()
    {
      hide Servable;
    }

    /** The objects behind the proxy: the connection, the controller with its disk, and its instances. */
    ghost function Core(): set<object> {
      {socket, server.socket, socket.inbound, socket.outbound, server.controller, server.controller.disk}
    }

    ghost function Repr(): set<object>
      reads server.controller`instances
    { Core() + server.controller.Insts() + server.controller.Procs() }

    twostate lemma FreshRepr()
      requires fresh(server.controller.Insts() - old(server.controller.Insts()))
      requires fresh(server.controller.Procs() - old(server.controller.Procs()))
      ensures fresh(Repr() - old(Repr()))
    {
    }

    lemma {:induction false} WithinRepr()
      ensures {socket, server.socket, socket.inbound, socket.outbound, server.controller,
              server.controller.disk} <= Repr()
      ensures server.controller.Insts() <= Repr() && server.controller.Procs() <= Repr() && Core() <= Repr()
    {
    }

    constructor (socket: Socket, server: ControllerServer)
      ensures this.socket == socket && this.server == server
    {
      this.socket, this.server := socket, server;
    }

    /** `write(...).send()`. */
    method SendRequest(request: seq<string>)
      requires Connected() && WellFormedRequest(request) && socket.outbound.pending == ""
      modifies socket`writeCount, socket`sent, socket.outbound
      ensures Connected() && socket.outbound.pending == Encode(request)
    {
      hide EncodeLines, Encode;
      RequestArrives(request, socket.outbound.pending);
      socket.WriteLines(request);
      socket.Send();
    }

    /** The controller's turn: it reads the request and writes its reply. */
    method Turn(request: seq<string>, env: Env, names: seq<string>, ids: seq<int>)
      requires Connected() && server.controller.Valid() && WellFormedRequest(request)
               && Visits(View(), request, names, ids)
      requires socket.outbound.pending == Encode(request) && socket.inbound.pending == ""
      modifies server.socket`writeCount, server.socket`sent, socket.inbound, socket.outbound
      modifies server.controller, server.controller.disk, server.controller.Insts(), server.controller.Procs()
      ensures fresh(server.controller.Insts() - old(server.controller.Insts()))
      ensures fresh(server.controller.Procs() - old(server.controller.Procs()))
      ensures Connected() && server.controller.Valid() && socket.outbound.pending == ""
      ensures var a := Serve(old(View()), request, env, names, ids);
              View() == a.state && socket.inbound.pending == ReplyBytes(old(server.socket.writeCount), a.lines)
    {
      hide Serve, WellFormedRequest, Visits, EncodeLines, ReplyBytes, Encode, HasFrame, FrameLines, AfterFrame,
        Controller.View, Controller.Valid, Controller.Table;
      ghost var reply := ReplyBytes(server.socket.writeCount, Serve(View(), request, env, names, ids).lines);
      RequestArrives(request, "");
      server.HandleRequest(env, names, ids);
      NothingAround(reply);
    }

    /** One request, the controller's turn, and the reply's frame. */
    method Converse(request: seq<string>, env: Env, names: seq<string>, ids: seq<int>) returns (data: seq<string>)
      requires Valid() && WellFormedRequest(request) && Visits(View(), request, names, ids)
      requires Int32(Serve(View(), request, env, names, ids).state.nextPort)
      modifies socket, server.socket, socket.inbound, socket.outbound
      modifies server.controller, server.controller.disk, server.controller.Insts(), server.controller.Procs()
      ensures fresh(server.controller.Insts() - old(server.controller.Insts()))
      ensures fresh(server.controller.Procs() - old(server.controller.Procs()))
      ensures Valid()
      ensures var a := Serve(old(View()), request, env, names, ids);
              View() == a.state && data == Decoded(a.lines)
    {
      hide Serve, WellFormedRequest, Visits, Servable, ReplyBytes, Encode, HasFrame, FrameLines, AfterFrame, OneFrame,
        Controller.View, Controller.Valid, Controller.Table, View, Valid, Connected;
      ghost var a := Serve(View(), request, env, names, ids);
      ghost var reply := ReplyBytes(server.socket.writeCount, a.lines);
      CanBeServed();
      ServeTotal(View(), request, env, names, ids, server.socket.writeCount, "");
      NothingAround(reply);
      SendRequest(request);
      assert View() == old(View());
      Turn(request, env, names, ids);
      assert View() == a.state && socket.inbound.pending == reply + "";
      data := socket.Read();
      assert View() == a.state;
      Settled();
    }

    /** The same, with all the objects behind the proxy in view. */
    method Exchange(request: seq<string>, env: Env, names: seq<string>, ids: seq<int>) returns (data: seq<string>)
      requires Valid() && WellFormedRequest(request) && Visits(View(), request, names, ids)
      requires Int32(Serve(View(), request, env, names, ids).state.nextPort)
      modifies socket, server.socket, socket.inbound, socket.outbound
      modifies server.controller, server.controller.disk, server.controller.Insts(), server.controller.Procs()
      ensures Valid() && fresh(Repr() - old(Repr()))
      ensures var a := Serve(old(View()), request, env, names, ids);
              View() == a.state && data == Decoded(a.lines)
    {
      hide Serve, Visits, WellFormedRequest, Valid, View, Repr, Decoded;
      data := Converse(request, env, names, ids);
      FreshRepr();
    }

    method GetTemplates(env: Env, names: seq<string>) returns (result: map<string, Template>)
      requires Valid() && Enumerates(names, View().templates.Keys)
      modifies socket, server.socket, socket.inbound, socket.outbound
      modifies server.controller, server.controller.disk, server.controller.Insts(), server.controller.Procs()
      ensures Valid() && fresh(Repr() - old(Repr())) && View() == old(View())
      ensures result == old(View()).templates
    {
      hide SerializeTemplates, ParseTemplates, TemplatesIn, Enumerates, Servable, Index, Serve, Decoded, Valid, View,
        Repr;
      ghost var s := View();
      CanBeServed();
      ListingRequests();
      ServeListings(s, env, names, []);
      TemplatesReply(s, names);
      var data := Exchange(["getTemplates"], env, names, []);
      assert data == SerializeTemplates(TemplatesIn(s.templates, names));
      ghost var ts := ParseTemplates(data);
      result := map[];
      ghost var j := 0;
      var i := 0;
      assert result == Index(ts[..0], NameOf) by { IndexNothing(ts, NameOf); }
      while i < |data|
        invariant Valid() && fresh(Repr() - old(Repr())) && View() == s && i == j * TEMPLATE_SIZE && i <= |data|
                  && j <= |ts|
        invariant result == Index(ts[..j], NameOf)
      {
        ParsedTemplateAt(data, j);
        IndexNext(ts, NameOf, j);
        var tmpl := Template.Deserialize(data[i..i + TEMPLATE_SIZE]);
        result := result[tmpl.name := tmpl];
        i, j := i + TEMPLATE_SIZE, j + 1;
      }
      assert ts[..|ts|] == ts;
      IndexIsTemplates(s.templates, names) by { ServableNames(s); }
    }

    /** The map is the controller's real table, whatever the order in which the controller lists it. */
    method GetInstances(env: Env, ids: seq<int>) returns (result: map<string, InstanceInfo>)
      requires Valid() && Enumerates(ids, View().table.Keys)
      modifies socket, server.socket, socket.inbound, socket.outbound
      modifies server.controller, server.controller.disk, server.controller.Insts(), server.controller.Procs()
      ensures Valid() && fresh(Repr() - old(Repr())) && View() == old(View())
      ensures IsListing(result, old(View()).table, env.alive)
    {
      hide SerializeInstances, ParseInstances, InfosIn, Enumerates, Servable, Index, IsListing, Serve, Decoded,
        InstanceInfo.Deserialize, Valid, View, Repr;
      ghost var s := View();
      CanBeServed();
      ghost var infos := ListingWorks(s, env, ids);
      var data := Exchange(["getInstances"], env, [], ids);
      result := map[];
      ghost var j := 0;
      var i := 0;
      assert result == Index(infos[..0], IdOf) by { IndexNothing(infos, IdOf); }
      while i < |data|
        invariant Valid() && fresh(Repr() - old(Repr())) && View() == s && i == j * INSTANCE_SIZE && i <= |data|
                  && j <= |infos|
        invariant result == Index(infos[..j], IdOf)
      {
        ParsedAt(data, j);
        IndexNext(infos, IdOf, j);
        var inst := InstanceInfo.Deserialize(data[i..i + INSTANCE_SIZE]).value;
        result := result[inst.id := inst];
        i, j := i + INSTANCE_SIZE, j + 1;
      }
      assert infos[..|infos|] == infos;
    }

    /** The controller's new instance, or the request itself when the controller has no such template. */
    method Instantiate(templ: Template, memory: int, cpus: int, env: Env) returns (result: InstanceInfo)
      requires Valid() && Clean(templ.name) && templ.name != "" && Int32(memory) && Int32(cpus)
      requires Int32(ServeInstantiate(View(), Ask(templ.name, memory, cpus), env).state.nextPort)
      modifies socket, server.socket, socket.inbound, socket.outbound
      modifies server.controller, server.controller.disk, server.controller.Insts(), server.controller.Procs()
      ensures Valid() && fresh(Repr() - old(Repr()))
      ensures View() == ServeInstantiate(old(View()), Ask(templ.name, memory, cpus), env).state
      ensures result == Granted(old(View()), Ask(templ.name, memory, cpus), env)
      ensures if templ.name !in old(View()).templates then
                result == Ask(templ.name, memory, cpus) && View() == old(View())
              else
                exists id :: id !in old(View()).table && id in View().table
                  && View().table == old(View()).table[id := View().table[id]]
                  && IsNew(View().table[id], old(View()).templates[templ.name], memory, cpus)
                  && Shows(result, ToString(id), View().table[id], env.alive)
    {
      hide ServeInstantiate, Granted, Servable, InstanceInfo.Deserialize, InstanceInfo.Serialize;
      ghost var s := View();
      var x := Ask(templ.name, memory, cpus);
      AskIsLegal(templ.name, memory, cpus);
      InstantiateReply(s, x, env);
      ServeInstantiateFacts(s, x, env);
      var data := Exchange(["instantiate"] + x.Serialize(), env, [], []);
      result := InstanceInfo.Deserialize(data).value;
    }

    method Run(fullId: string, env: Env) returns (ok: bool)
      requires Valid() && Clean(fullId) && fullId != ""
      requires Int32(ServeRun(View(), fullId, env).state.nextPort)
      modifies socket, server.socket, socket.inbound, socket.outbound
      modifies server.controller, server.controller.disk, server.controller.Insts(), server.controller.Procs()
      ensures Valid() && fresh(Repr() - old(Repr())) && View() == ServeRun(old(View()), fullId, env).state
      ensures ok <==> CanStart(old(View()), fullId, env.alive)
    {
      hide ServeRun, Servable, Stoi, ToString;
      BoolReply(View(), fullId, env);
      var data := Exchange(["run", fullId], env, [], []);
      ok := Stoi(data[0]).value != 0;
    }

    method Kill(fullId: string, env: Env) returns (ok: bool)
      requires Valid() && Clean(fullId) && fullId != ""
      modifies socket, server.socket, socket.inbound, socket.outbound
      modifies server.controller, server.controller.disk, server.controller.Insts(), server.controller.Procs()
      ensures Valid() && fresh(Repr() - old(Repr())) && View() == old(View())
      ensures ok <==> Known(old(View()), fullId)
    {
      hide ServeKill, Servable, Stoi, ToString;
      BoolReply(View(), fullId, env);
      var data := Exchange(["kill", fullId], env, [], []);
      ok := Stoi(data[0]).value != 0;
    }
  }

  /** An instance as it was asked for. */
  predicate IsNew(e: Entry, templ: Template, memory: int, cpus: int) {
    e.templ == templ && e.memory == memory && e.cpus == cpus
  }

  /** The record a proxy sends to ask for a new instance. */
  function Ask(templ: string, memory: int, cpus: int): InstanceInfo {
    InstanceInfo("0", templ, memory, cpus, 0, false)
  }

  lemma {:induction false} ListingRequests()
    ensures WellFormedRequest(["getTemplates"]) && WellFormedRequest(["getInstances"])
  {
  }

  lemma {:induction false} ServableNames(s: State)
    requires Servable(s)
    ensures forall n :: n in s.templates ==> s.templates[n].name == n
    ensures forall id :: id in s.table ==> s.table[id].id == id
    ensures Int32(s.nextPort)
  {
  }

  lemma {:induction false} ServeListings(s: State, env: Env, names: seq<string>, ids: seq<int>)
    requires Servable(s)
    ensures WellFormedRequest(["getTemplates"]) && WellFormedRequest(["getInstances"])
    ensures Enumerates(names, s.templates.Keys) ==>
              && Visits(s, ["getTemplates"], names, [])
              && (forall i :: 0 <= i < |names| ==> names[i] in s.templates)
              && Serve(s, ["getTemplates"], env, names, []) ==
                 Served(s, SerializeTemplates(TemplatesIn(s.templates, names)))
    ensures Enumerates(ids, s.table.Keys) ==>
              && Visits(s, ["getInstances"], [], ids)
              && (forall i :: 0 <= i < |ids| ==> ids[i] in s.table)
              && Serve(s, ["getInstances"], env, [], ids) ==
                 Served(s, if |s.table| == 0 then [""] else SerializeInstances(InfosIn(s.table, ids, env.alive)))
    ensures Int32(s.nextPort)
  {
    hide SerializeTemplates, SerializeInstances, Enumerates;
    ListingRequests();
    if Enumerates(names, s.templates.Keys) { EnumeratesElements(names, s.templates.Keys); }
    if Enumerates(ids, s.table.Keys) { EnumeratesElements(ids, s.table.Keys); }
  }

  /** A listing of a servable controller, in any order, is decoded to the controller's table. */
  lemma {:induction false} ListingWorks(s: State, env: Env, ids: seq<int>) returns (infos: seq<InstanceInfo>)
    requires Servable(s) && Enumerates(ids, s.table.Keys)
    ensures WellFormedRequest(["getInstances"]) && Visits(s, ["getInstances"], [], ids) && Int32(s.nextPort)
    ensures var a := Serve(s, ["getInstances"], env, [], ids);
            a.state == s && |Decoded(a.lines)| % INSTANCE_SIZE == 0 && ParseInstances(Decoded(a.lines)) == Some(infos)
    ensures IsListing(Index(infos, IdOf), s.table, env.alive)
  {
    hide SerializeInstances, ParseInstances, InfosIn, Enumerates, Servable, Index, IsListing, Serve, Decoded;
    ServeListings(s, env, [], ids);
    ListingReply(s, ids, env.alive);
    ServableNames(s);
    IndexIsListing(s.table, ids, env.alive);
    infos := InfosIn(s.table, ids, env.alive);
  }

  lemma {:induction false} AskIsLegal(templ: string, memory: int, cpus: int)
    requires Clean(templ) && templ != "" && Int32(memory) && Int32(cpus)
    ensures var x := Ask(templ, memory, cpus); var r := ["instantiate"] + x.Serialize();
            && x.Printable() && WellFormedRequest(r) && r[0] == "instantiate"
               && InstanceInfo.Deserialize(r[1..]) == Some(x)
  {
    hide ToString, Stoi;
    var x := Ask(templ, memory, cpus);
    var r := ["instantiate"] + x.Serialize();
    InstanceRoundTrip(x);
    PrintableLines(x);
    assert r[1..] == x.Serialize();
    assert forall i :: 1 <= i < |r| ==> r[i] == x.Serialize()[i - 1];
  }

  /** The answer to `instantiate` is one record, which reads back. */
  lemma {:induction false} InstantiateReply(s: State, x: InstanceInfo, env: Env)
    requires Servable(s) && x.Printable() && Int32(ServeInstantiate(s, x, env).state.nextPort)
    ensures var lines := ServeInstantiate(s, x, env).lines;
            && |lines| == INSTANCE_SIZE && Decoded(lines) == lines
            && InstanceInfo.Deserialize(lines) == Some(Granted(s, x, env))
  {
    hide ServeInstantiate, Granted, Servable, ToString, Stoi;
    ServeInstantiateFacts(s, x, env);
    InstanceRoundTrip(Granted(s, x, env));
  }

  /** The text is the number of an instance of the controller. */
  predicate Known(s: State, id: string) { Stoi(id).Number? && Stoi(id).value in s.table }

  /** And that instance has no live process. */
  predicate CanStart(s: State, id: string, alive: set<int>) {
    Known(s, id) && var e := s.table[Stoi(id).value]; !(e.pid != 0 && e.pid in alive)
  }

  lemma {:induction false} ResultLines(s: State, id: string, env: Env)
    ensures ServeRun(s, id, env).lines == [BoolText(CanStart(s, id, env.alive))]
    ensures !CanStart(s, id, env.alive) ==> ServeRun(s, id, env).state == s
    ensures ServeKill(s, id, env) == Served(s, [BoolText(Known(s, id))])
  {
    hide ToString, Stoi, ClaimPort, WriteCookie;
  }

  /** `run` is answered "1" exactly for an instance that can be started, `kill` exactly for a known one, else "0". */
  lemma {:induction false} BoolReply(s: State, id: string, env: Env)
    requires Servable(s) && Clean(id) && id != ""
    ensures WellFormedRequest(["run", id]) && WellFormedRequest(["kill", id])
    ensures Visits(s, ["run", id], [], []) && Visits(s, ["kill", id], [], [])
    ensures var a := Serve(s, ["run", id], env, [], []);
            && a == ServeRun(s, id, env) && Decoded(a.lines) == a.lines && |a.lines| == 1 && Stoi(a.lines[0]).Number?
            && (Stoi(a.lines[0]).value != 0 <==>
                  CanStart(s, id, env.alive))
    ensures var a := Serve(s, ["kill", id], env, [], []);
            && a == ServeKill(s, id, env) && a.state == s && Decoded(a.lines) == a.lines && |a.lines| == 1
            && Stoi(a.lines[0]).Number?
            && (Stoi(a.lines[0]).value != 0 <==>
                  Known(s, id))
    ensures Int32(s.nextPort)
  {
    hide ToString, Stoi, CanStart, Known, ServeRun, ServeKill;
    ResultLines(s, id, env);
    DecimalRoundTrip(0);
    DecimalRoundTrip(1);
    TextIsPlain(0);
    TextIsPlain(1);
  }

  lemma {:induction false} RequestArrives(request: seq<string>, before: string)
    requires WellFormedRequest(request) && before == ""
    ensures request != []
    ensures before + EncodeLines(request) + Closing(1) == Encode(request) == Encode(request) + ""
    ensures HasFrame(Encode(request)) && FrameLines(Encode(request)) == request && AfterFrame(Encode(request)) == ""
  {
    FrameOfMessage(request, "");
    assert Encode(request) + "" == Encode(request);
    assert before + EncodeLines(request) == EncodeLines(request);
  }
}
