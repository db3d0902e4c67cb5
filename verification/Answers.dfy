/**
 The text of every answer, line by line, as any program on the other end reads it: what stands in which line, in terms
 of the controllers' tables and of the lines of the request.
 */
module Answers {
  import opened Wrappers
  import opened Decimal
  import opened Records
  import opened ControllerModel
  import opened ControllerTheorems
  import opened Servers
  import opened ControllerProxies
  import opened Clusters
  import opened ClusterTheorems
  import opened Managers
  import opened ManagerTheorems

  /** Six lines tell of an instance: id, template, memory, cpus, port, and "1" exactly if its process is alive. */
  predicate InstanceAt(lines: seq<string>, at: nat, id: string, e: Entry, alive: set<int>) {
    && at + 6 <= |lines|
    && lines[at] == id && lines[at + 1] == e.templ.name && lines[at + 2] == ToString(e.memory)
    && lines[at + 3] == ToString(e.cpus) && lines[at + 4] == ToString(e.sshPort)
    && lines[at + 5] == if e.pid != 0 && e.pid in alive then "1" else "0"
  }

  /** Four lines tell of a template. */
  predicate TemplateAt(lines: seq<string>, at: nat, t: Template) {
    && at + 4 <= |lines|
    && lines[at] == t.name && lines[at + 1] == t.description && lines[at + 2] == t.kernelPath
    && lines[at + 3] == t.rootfsPath
  }

  /** Some six of the lines tell of the instance, or some four of the template. */
  ghost predicate HasInstance(lines: seq<string>, id: string, e: Entry, alive: set<int>) {
    exists j: nat :: InstanceAt(lines, 6 * j, id, e, alive)
  }

  ghost predicate HasTemplate(lines: seq<string>, t: Template) { exists j: nat :: TemplateAt(lines, 4 * j, t) }

  /** Six lines repeat a request: the texts as they were, the numbers with the values they were read with. */
  predicate EchoOf(lines: seq<string>, r: seq<string>)
    requires |r| >= 7
  {
    && |lines| == 6 && lines[0] == r[1] && lines[1] == r[2]
    && Stoi(r[3]).Number? && lines[2] == ToString(Stoi(r[3]).value)
    && Stoi(r[4]).Number? && lines[3] == ToString(Stoi(r[4]).value)
    && Stoi(r[5]).Number? && lines[4] == ToString(Stoi(r[5]).value)
    && Stoi(r[6]).Number? && lines[5] == if Stoi(r[6]).value != 0 then "1" else "0"
  }

  // ----- records in a row -----

  lemma {:induction false} InstancePiece(infos: seq<InstanceInfo>, i: nat)
    requires i < |infos|
    ensures |SerializeInstances(infos)| == 6 * |infos|
    ensures SerializeInstances(infos)[6 * i..6 * i + 6] == infos[i].Serialize()
    decreases |infos|
  {
    hide InstanceInfo.Serialize;
    var n := |infos| - 1;
    var front := SerializeInstances(infos[..n]);
    RecordLength(infos[n]);
    if n == 0 {
      assert infos[..0] == [];
    } else {
      InstancePiece(infos[..n], if i < n then i else 0);
    }
    if i < n { assert (front + infos[n].Serialize())[6 * i..6 * i + 6] == front[6 * i..6 * i + 6]; }
  }

  lemma {:induction false} TemplatePiece(ts: seq<Template>, i: nat)
    requires i < |ts|
    ensures |SerializeTemplates(ts)| == 4 * |ts|
    ensures SerializeTemplates(ts)[4 * i..4 * i + 4] == ts[i].Serialize()
    decreases |ts|
  {
    hide Template.Serialize;
    var n := |ts| - 1;
    var front := SerializeTemplates(ts[..n]);
    FourLines(ts[n]);
    if n == 0 {
      assert ts[..0] == [];
    } else {
      TemplatePiece(ts[..n], if i < n then i else 0);
    }
    if i < n { assert (front + ts[n].Serialize())[4 * i..4 * i + 4] == front[4 * i..4 * i + 4]; }
  }

  lemma {:induction false} FourLines(t: Template)
    ensures |t.Serialize()| == 4
  {
  }

  lemma {:induction false} RecordLines(lines: seq<string>, at: nat, x: InstanceInfo, e: Entry, alive: set<int>)
    requires at + 6 <= |lines| && lines[at..at + 6] == x.Serialize() && Shows(x, x.id, e, alive)
    ensures InstanceAt(lines, at, x.id, e, alive)
  {
    hide ToString;
    BoolTextIs(x.running);
    var piece := lines[at..at + 6];
    assert lines[at] == piece[0] && lines[at + 1] == piece[1] && lines[at + 2] == piece[2] && lines[at + 3] == piece[3]
           && lines[at + 4] == piece[4] && lines[at + 5] == piece[5];
  }

  lemma {:induction false} TemplateLinesAre(lines: seq<string>, at: nat, t: Template)
    requires at + 4 <= |lines| && lines[at..at + 4] == t.Serialize()
    ensures TemplateAt(lines, at, t)
  {
    var piece := lines[at..at + 4];
    assert lines[at] == piece[0] && lines[at + 1] == piece[1] && lines[at + 2] == piece[2] && lines[at + 3] == piece[3];
  }

  /**
   What a proxy writes to ask for an instance: the same seven lines whatever the client's own id, port and flag were,
   and a controller that has the template grants just what the client asked for.
   */
  lemma {:induction false} RequestText(r: seq<string>)
    requires |r| >= 7 && InstanceInfo.Deserialize(r[1..]).Some?
    ensures var x := InstanceInfo.Deserialize(r[1..]).value;
            ["instantiate"] + Asked(x).Serialize() ==
            ["instantiate", "0", r[2], ToString(Stoi(r[3]).value), ToString(Stoi(r[4]).value), "0", "0"]
  {
    hide Stoi, ToString;
    RequestFields(r);
    ZeroText();
  }

  // ----- a controller's answers -----

  /** `getInstances`: one empty line if there is none, else six lines for each instance, in any order. */
  lemma {:induction false} ListingText(s: State, env: Env, ids: seq<int>)
    requires Servable(s) && Enumerates(ids, s.table.Keys)
    ensures WellFormedRequest(["getInstances"]) && Visits(s, ["getInstances"], [], ids)
    ensures var a := Serve(s, ["getInstances"], env, [], ids);
            && a.state == s && (s.table == map[] ==> a.lines == [""])
            && (s.table != map[] ==> |a.lines| == 6 * |s.table|)
            && forall id :: id in s.table ==> HasInstance(a.lines, ToString(id), s.table[id], env.alive)
  {
    hide Servable, Enumerates, SerializeInstances, ToString, Serve, InstanceAt;
    ServeListings(s, env, [], ids);
    EnumeratesElements(ids, s.table.Keys);
    ServableNames(s);
    var infos := InfosIn(s.table, ids, env.alive);
    assert |s.table| == |s.table.Keys|;
    if s.table != map[] { InstancePiece(infos, 0); }
    forall id | id in s.table
      ensures HasInstance(Serve(s, ["getInstances"], env, [], ids).lines, ToString(id), s.table[id], env.alive)
    {
      var j :| 0 <= j < |ids| && ids[j] == id;
      InstancePiece(infos, j);
      RecordLines(SerializeInstances(infos), 6 * j, infos[j], s.table[id], env.alive);
    }
  }

  /** `getTemplates`: four lines for each template, in any order. */
  lemma {:induction false} TemplatesText(s: State, env: Env, names: seq<string>)
    requires Servable(s) && Enumerates(names, s.templates.Keys)
    ensures WellFormedRequest(["getTemplates"]) && Visits(s, ["getTemplates"], names, [])
    ensures var a := Serve(s, ["getTemplates"], env, names, []);
            && a.state == s && |a.lines| == 4 * |s.templates|
            && forall n :: n in s.templates ==> HasTemplate(a.lines, s.templates[n])
  {
    hide Servable, Enumerates, SerializeTemplates, Serve, TemplateAt;
    ServeListings(s, env, names, []);
    EnumeratesElements(names, s.templates.Keys);
    var ts := TemplatesIn(s.templates, names);
    assert |s.templates| == |s.templates.Keys|;
    TemplatesRoundTrip(ts);
    forall n | n in s.templates
      ensures HasTemplate(Serve(s, ["getTemplates"], env, names, []).lines, s.templates[n])
    {
      var j :| 0 <= j < |names| && names[j] == n;
      TemplatePiece(ts, j);
      TemplateLinesAre(SerializeTemplates(ts), 4 * j, ts[j]);
    }
  }

  lemma {:induction false} RequestFields(r: seq<string>)
    requires |r| >= 7 && InstanceInfo.Deserialize(r[1..]).Some?
    ensures var x := InstanceInfo.Deserialize(r[1..]).value;
            && x.id == r[1] && x.templ == r[2] && Stoi(r[3]) == Number(x.memory) && Stoi(r[4]) == Number(x.cpus)
            && EchoOf(x.Serialize(), r)
  {
    hide Stoi, ToString;
    BoolTextIs(InstanceInfo.Deserialize(r[1..]).value.running);
  }

  /**
   `instantiate`: the request again, and nothing has changed, exactly if the controller does not have the template in
   the third line; else one more instance of that template, with the memory and cpus in the next two, and its six lines.
   */
  lemma {:induction false} InstantiateText(s: State, r: seq<string>, env: Env) returns (id: int)
    requires WellFormedRequest(r) && r[0] == "instantiate" && Servable(s)
    requires Int32(Serve(s, r, env, [], []).state.nextPort)
    ensures var a := Serve(s, r, env, [], []);
            if r[2] !in s.templates then a.state == s && EchoOf(a.lines, r)
            else
              && |a.lines| == 6 && id !in s.table && id in a.state.table
              && a.state.table == s.table[id := a.state.table[id]] && a.state.templates == s.templates
              && var e := a.state.table[id];
                 && e.templ == s.templates[r[2]] && Stoi(r[3]) == Number(e.memory) && Stoi(r[4]) == Number(e.cpus)
                 && InstanceAt(a.lines, 0, ToString(id), e, env.alive)
  {
    hide ServeInstantiate, Granted, Servable, InstanceInfo.Deserialize, InstanceInfo.Serialize, ToString, Stoi,
      InstanceAt;
    EchoIsLegal(r);
    RequestFields(r);
    var x := InstanceInfo.Deserialize(r[1..]).value;
    ServeInstantiateFacts(s, x, env);
    id := 0;
    if x.templ in s.templates {
      id := Instantiate(s, x.templ, x.memory, x.cpus, env.busy, env.busyLater).id;
      var info := Granted(s, x, env);
      assert info.Serialize()[0..6] == info.Serialize();
      RecordLines(info.Serialize(), 0, info, ServeInstantiate(s, x, env).state.table[id], env.alive);
    }
  }

  /** `run` and `kill` are answered by "1" or "0", and a command that is none of the five by "unknown command". */
  lemma {:induction false} OtherText(s: State, r: seq<string>, env: Env)
    requires WellFormedRequest(r) && r[0] !in ["getTemplates", "getInstances", "instantiate"]
    ensures var a := Serve(s, r, env, [], []);
            if r[0] == "run" then
              && a.lines == [if CanStart(s, r[1], env.alive) then "1" else "0"]
              && (CanStart(s, r[1], env.alive) ==>
                    a.state == Run(s, Stoi(r[1]).value, env.busy, env.alive, env.child).state)
              && (!CanStart(s, r[1], env.alive) ==> a.state == s)
            else if r[0] == "kill" then a == Served(s, [if Known(s, r[1]) then "1" else "0"])
            else a == Served(s, ["unknown command"])
  {
    hide Run, Kill, Stoi, ToString, BoolText;
    if r[0] == "run" || r[0] == "kill" {
      ResultLines(s, r[1], env);
      BoolTextIs(true);
      BoolTextIs(false);
    }
  }

  // ----- the manager's answers -----

  /** `getInstances`: six lines for each instance of any controller, under its full id, and no others. */
  lemma {:induction false} ClusterListingText(cluster: seq<Node>, next: nat, env: Env, v: Visit)
    requires ClusterOk(cluster) && Visiting(cluster, v) && (cluster != [] ==> next < |cluster|)
    ensures WellFormedCommand(cluster, ["getInstances"])
    ensures var h := Handle(cluster, next, ["getInstances"], env, v);
            && h.cluster == cluster && h.next == next && |h.lines| == 6 * TotalInstances(cluster)
            && forall c: nat, id :: c < |cluster| && id in cluster[c].state.table ==>
                 HasInstance(h.lines, cluster[c].name + "/" + ToString(id), cluster[c].state.table[id], v.alive[c])
  {
    hide ClusterOk, Gathered, SerializeInstances, Enumerates, IsListing, TotalInstances, ToString, FullInfo, InstanceAt,
      TemplateOrders, TableOrders;
    var infos := Gathered(cluster, v.maps, v.orders, |cluster|);
    var origins := GatheredIsAll(cluster, v.maps, v.orders, |cluster|, v.alive);
    assert cluster[..|cluster|] == cluster;
    if infos != [] { InstancePiece(infos, 0); } else { assert SerializeInstances([]) == [] by { NoLinesOfNone(); } }
    forall c: nat, id | c < |cluster| && id in cluster[c].state.table
      ensures HasInstance(Handle(cluster, next, ["getInstances"], env, v).lines,
              cluster[c].name + "/" + ToString(id), cluster[c].state.table[id], v.alive[c])
    {
      assert (c, id) in origins;
      var j :| 0 <= j < |origins| && origins[j] == (c, id);
      InstancePiece(infos, j);
      FullInfoShows(cluster, c, id, v.alive);
      RecordLines(SerializeInstances(infos), 6 * j, infos[j], cluster[c].state.table[id], v.alive[c]);
    }
  }

  lemma {:induction false} NoLinesOfNone()
    ensures SerializeInstances([]) == []
  {
  }

  /** The templates gathered are those of the first `n` controllers. */
  lemma {:induction false} GatheredAre(cluster: seq<Node>, orders: seq<seq<string>>, n: nat)
    requires TemplateOrders(cluster, orders) && n <= |cluster|
    ensures var ts := GatheredTemplates(cluster, orders, n);
            && (forall c: nat, k :: c < n && k in cluster[c].state.templates ==> cluster[c].state.templates[k] in ts)
            && forall t :: t in ts ==> OfSome(cluster, t)
    decreases n
  {
    hide Enumerates, OfSome, TemplatesIn;
    if n > 0 {
      GatheredAre(cluster, orders, n - 1);
      var m, order := cluster[n - 1].state.templates, orders[n - 1];
      EnumeratesElements(order, m.Keys);
      TemplatesOfOne(cluster, n - 1, order);
      AllOfBoth(cluster, GatheredTemplates(cluster, orders, n - 1), TemplatesIn(m, order), n - 1);
    }
  }

  lemma {:induction false} TemplatesOfOne(cluster: seq<Node>, c: nat, order: seq<string>)
    requires c < |cluster| && Enumerates(order, cluster[c].state.templates.Keys)
    requires forall i :: 0 <= i < |order| ==> order[i] in cluster[c].state.templates
    ensures var m := cluster[c].state.templates; var ts := TemplatesIn(m, order);
            (forall k :: k in m ==> m[k] in ts) && forall i :: 0 <= i < |ts| ==> OfSome(cluster, ts[i])
  {
    hide Enumerates;
    var m := cluster[c].state.templates;
    var ts := TemplatesIn(m, order);
    EnumeratesElements(order, m.Keys);
    forall k | k in m ensures m[k] in ts {
      var i :| 0 <= i < |order| && order[i] == k;
      assert ts[i] == m[k];
    }
    forall i | 0 <= i < |ts| ensures OfSome(cluster, ts[i]) { assert ts[i] == m[order[i]]; }
  }

  lemma {:induction false} AllOfBoth(cluster: seq<Node>, a: seq<Template>, b: seq<Template>, n: nat)
    requires n < |cluster|
    requires forall c: nat, k :: c < n && k in cluster[c].state.templates ==> cluster[c].state.templates[k] in a
    requires forall k :: k in cluster[n].state.templates ==> cluster[n].state.templates[k] in b
    requires forall i :: 0 <= i < |a| ==> OfSome(cluster, a[i])
    requires forall i :: 0 <= i < |b| ==> OfSome(cluster, b[i])
    ensures forall c: nat, k :: c < n + 1 && k in cluster[c].state.templates ==>
              cluster[c].state.templates[k] in a + b
    ensures forall i :: 0 <= i < |a + b| ==> OfSome(cluster, (a + b)[i])
  {
    hide OfSome;
  }

  ghost predicate OfSome(cluster: seq<Node>, t: Template) {
    exists c: nat, k :: c < |cluster| && k in cluster[c].state.templates && cluster[c].state.templates[k] == t
  }

  /** `getTemplates`: four lines for each template of each controller, and no others. */
  lemma {:induction false} ClusterTemplatesText(cluster: seq<Node>, next: nat, env: Env, v: Visit)
    requires ClusterOk(cluster) && Visiting(cluster, v) && (cluster != [] ==> next < |cluster|)
    ensures WellFormedCommand(cluster, ["getTemplates"])
    ensures var h := Handle(cluster, next, ["getTemplates"], env, v);
            && h.cluster == cluster && h.next == next && |h.lines| % 4 == 0
            && (forall c: nat, k :: c < |cluster| && k in cluster[c].state.templates ==>
                  HasTemplate(h.lines, cluster[c].state.templates[k]))
            && forall j: nat :: 4 * j < |h.lines| ==>
                 exists t :: TemplateAt(h.lines, 4 * j, t) && OfSome(cluster, t)
  {
    hide ClusterOk, GatheredTemplates, SerializeTemplates, Enumerates, Listings, TableOrders, HasTemplate, OfSome;
    GatheredAre(cluster, v.names, |cluster|);
    TextOfAll(GatheredTemplates(cluster, v.names, |cluster|));
  }

  lemma {:induction false} TextOfAll(ts: seq<Template>)
    ensures var lines := SerializeTemplates(ts);
            && |lines| == 4 * |ts| && (forall t :: t in ts ==> HasTemplate(lines, t))
            && forall j: nat :: 4 * j < |lines| ==> exists t :: TemplateAt(lines, 4 * j, t) && t in ts
  {
    hide SerializeTemplates, TemplateAt;
    TemplatesRoundTrip(ts);
    var lines := SerializeTemplates(ts);
    forall t | t in ts ensures HasTemplate(lines, t) {
      var j :| 0 <= j < |ts| && ts[j] == t;
      TemplatePiece(ts, j);
      TemplateLinesAre(lines, 4 * j, t);
    }
    forall j: nat | 4 * j < |lines| ensures exists t :: TemplateAt(lines, 4 * j, t) && t in ts {
      TemplatePiece(ts, j);
      TemplateLinesAre(lines, 4 * j, ts[j]);
      assert TemplateAt(lines, 4 * j, ts[j]) && ts[j] in ts;
    }
  }

  /**
   `instantiate`: the request again, and nothing has changed, exactly if no controller has the template in the third
   line; else the six lines, under its full id, of the one instance that the next controller in turn has got.
   */
  lemma {:induction false} ClusterInstantiateText(cluster: seq<Node>, next: nat, r: seq<string>, env: Env, v: Visit)
    returns (id: int)
    requires ClusterRuns(cluster) && (cluster != [] ==> next < |cluster|)
    requires WellFormedCommand(cluster, r) && r[0] == "instantiate" && Visiting(cluster, v)
    requires PortsInRange(Handle(cluster, next, r, env, v).cluster)
    ensures var h := Handle(cluster, next, r, env, v);
            if forall c :: 0 <= c < |cluster| ==> r[2] !in cluster[c].state.templates then
              h.cluster == cluster && h.next == next && EchoOf(h.lines, r)
            else
              && h.next < |cluster| == |h.cluster| && |h.lines| == 6
              && (forall c :: 0 <= c < |cluster| && c != h.next ==> h.cluster[c] == cluster[c])
              && var s, s' := cluster[h.next].state, h.cluster[h.next].state;
                 && r[2] in s.templates && id !in s.table && id in s'.table && s'.table == s.table[id := s'.table[id]]
                 && var e := s'.table[id];
                    && e.templ == s.templates[r[2]] && Stoi(r[3]) == Number(e.memory) && Stoi(r[4]) == Number(e.cpus)
                    && InstanceAt(h.lines, 0, cluster[h.next].name + "/" + ToString(id), e, env.alive)
  {
    hide PlaceInstance, InstanceInfo.Deserialize, InstanceInfo.Serialize, ClusterRuns, PortsInRange, Visiting, ToString,
      Stoi, Route, InstanceAt;
    EchoIsLegal(r);
    RequestFields(r);
    var x := InstanceInfo.Deserialize(r[1..]).value;
    var p := PlaceInstance(cluster, next, x, env);
    NotPlaced(cluster, next, x, env);
    id := 0;
    if p.chosen.Some? {
      id := Placed(cluster, next, x, env);
      RecordLength(p.reply);
      assert p.reply.Serialize()[0..6] == p.reply.Serialize();
      RecordLines(p.reply.Serialize(), 0, p.reply, p.cluster[p.next].state.table[id], env.alive);
    }
  }

  /**
   `run` and `kill`: "0" without an id, else "1" exactly if it names an instance that can be started, or that is known;
   no other command changes anything, and one that is none of the five is answered by "unknown command".
   */
  lemma {:induction false} ClusterOtherText(cluster: seq<Node>, next: nat, r: seq<string>, env: Env, v: Visit)
    requires WellFormedCommand(cluster, r) && Visiting(cluster, v) && (cluster != [] ==> next < |cluster|)
    requires r[0] !in ["getTemplates", "getInstances", "instantiate"]
    ensures var h := Handle(cluster, next, r, env, v);
            && h.next == next && (h.lines != ["1"] || r[0] != "run" ==> h.cluster == cluster)
            && (r[0] != "run" && r[0] != "kill" ==> h.lines == ["unknown command"])
            && (r[0] == "run" || r[0] == "kill" ==> h.lines == ["1"] || h.lines == ["0"])
            && (r[0] == "run" ==>
                  (h.lines == ["1"] <==> |r| >= 2 && exists c: nat, id ::
                     Names(cluster, r[1], c, id) && CanStart(cluster[c].state, id, env.alive)))
            && (r[0] == "kill" ==>
                  (h.lines == ["1"] <==> |r| >= 2 && exists c: nat, id ::
                     Names(cluster, r[1], c, id) && Known(cluster[c].state, id)))
  {
    hide RunAnywhere, KillAnywhere, BoolText, Names, CanStart, Known, Visiting, Route;
    BoolTextIs(false);
    assert "0" != "1";
    if |r| >= 2 {
      RunAnswers(cluster, r[1], env);
      KillAnswers(cluster, r[1], env);
    }
  }
}
