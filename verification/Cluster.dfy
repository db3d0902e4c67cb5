/** The manager's view of a cluster: full ids, routing, and the union of its controllers' listings. */
module Clusters {
  import opened Wrappers
  import opened Decimal
  import opened Records
  import opened ControllerModel
  import opened Servers
  import opened ControllerProxies

  /** A `ControllerRef`: its name in the controllers file, and the controller behind its proxy. */
  datatype Node = Node(name: string, state: State)

  function MakeFullId(serverName: string, numericId: string): string { serverName + "/" + numericId }

  /** `fullId.find("/")`; the length stands for `npos`. */
  function FindSlash(s: string): (k: nat)
    ensures k <= |s| && '/' !in s[..k] && (k < |s| ==> s[k] == '/')
  {
    if s == "" || s[0] == '/' then 0
    else
      var k := FindSlash(s[1..]);
      assert s[..k + 1] == [s[0]] + s[1..][..k];
      k + 1
  }

  /** Without a slash both parts are the whole text: `npos + 1` is 0. */
  function ExtractIdParts(fullId: string): (string, string) {
    var k := FindSlash(fullId);
    if k == |fullId| then (fullId, fullId) else (fullId[..k], fullId[k + 1..])
  }

  /** The first controller of that name. */
  function FirstNamed(cluster: seq<Node>, name: string): (c: Option<nat>)
    ensures c.Some? ==> c.value < |cluster| && cluster[c.value].name == name
                        && forall i :: 0 <= i < c.value ==> cluster[i].name != name
    ensures c.None? ==> forall i :: 0 <= i < |cluster| ==> cluster[i].name != name
  {
    if cluster == [] then None
    else if cluster[0].name == name then Some(0)
    else
      match FirstNamed(cluster[1..], name)
      case None => None
      case Some(i) => Some(i + 1)
  }

  /** Where `run` and `kill` send a full id, and the text they send there. */
  function Route(cluster: seq<Node>, fullId: string): (Option<nat>, string) {
    var parts := ExtractIdParts(fullId);
    (FirstNamed(cluster, parts.0), parts.1)
  }

  predicate SlashFree(s: string) { '/' !in s }

  predicate DistinctNames(cluster: seq<Node>) {
    forall i, j :: 0 <= i < j < |cluster| ==> cluster[i].name != cluster[j].name
  }

  // ----- full ids -----

  lemma {:induction false} FindSlashIs(s: string, k: nat)
    requires k < |s| && s[k] == '/' && '/' !in s[..k]
    ensures FindSlash(s) == k
  {
    var f := FindSlash(s);
    assert forall p :: 0 <= p < k ==> s[p] == s[..k][p];
    assert forall p :: 0 <= p < f ==> s[p] == s[..f][p];
  }

  /** Splitting undoes `makeFullId` exactly for slash-free server names. */
  lemma {:induction false} ExtractUndoesMake(name: string, id: string)
    ensures ExtractIdParts(MakeFullId(name, id)) == (name, id) <==> SlashFree(name)
  {
    var s := MakeFullId(name, id);
    if SlashFree(name) {
      assert s[..|name|] == name;
      FindSlashIs(s, |name|);
      assert s[|name| + 1..] == id;
    } else {
      var k := FindSlash(s);
      assert '/' !in s[..k];
      assert ExtractIdParts(s).0 == s[..k];
    }
  }

  /** Full ids of instances are all different, whatever the server names are. */
  lemma {:induction false} FullIdsDistinct(name1: string, id1: int, name2: string, id2: int)
    ensures MakeFullId(name1, ToString(id1)) == MakeFullId(name2, ToString(id2)) <==> name1 == name2 && id1 == id2
  {
    hide ToString;
    TextIsPlain(id1);
    TextIsPlain(id2);
    Injective(id1, id2);
    var a, b := ToString(id1), ToString(id2);
    var s, t := MakeFullId(name1, a), MakeFullId(name2, b);
    if s == t {
      LastSlash(name1, a, name2, b);
    }
  }

  lemma {:induction false} LastSlash(m: string, a: string, n: string, b: string)
    requires m + "/" + a == n + "/" + b && '/' !in a && '/' !in b
    ensures m == n && a == b
  {
    var s, t := m + "/" + a, n + "/" + b;
    assert s[|m|] == '/' && forall p :: |m| < p < |s| ==> s[p] == a[p - |m| - 1] != '/';
    assert t[|n|] == '/' && forall p :: |n| < p < |t| ==> t[p] == b[p - |n| - 1] != '/';
    assert s[..|m|] == m && t[..|n|] == n;
    assert s[|m| + 1..] == a && t[|n| + 1..] == b;
  }

  /**
   A full id reaches the controller it was made for, with the id text intact, exactly when the controller's name
   has no slash and no earlier controller has the same name.
   */
  lemma {:induction false} RouteIsExact(cluster: seq<Node>, i: nat, id: string)
    requires i < |cluster|
    ensures Route(cluster, MakeFullId(cluster[i].name, id)) == (Some(i), id)
      <==> SlashFree(cluster[i].name) && forall j :: 0 <= j < i ==> cluster[j].name != cluster[i].name
  {
    var s := MakeFullId(cluster[i].name, id);
    ExtractUndoesMake(cluster[i].name, id);
    var k := FindSlash(s);
    assert k < |s| by { assert s[|cluster[i].name|] == '/'; }
    if !SlashFree(cluster[i].name) {
      assert ExtractIdParts(s).0 == s[..k];
      assert s[..k] != cluster[i].name;
    }
  }

  /**
   What a client's text stands for, whoever made it: a controller's name and an id there, cut at the first slash; a
   text without slash is both.
   */
  predicate Splits(fullId: string, name: string, id: string) {
    if SlashFree(fullId) then name == fullId && id == fullId else SlashFree(name) && fullId == name + "/" + id
  }

  lemma {:induction false} PartsAre(fullId: string, name: string, id: string)
    ensures ExtractIdParts(fullId) == (name, id) <==> Splits(fullId, name, id)
  {
    var k := FindSlash(fullId);
    if k < |fullId| {
      assert fullId == fullId[..k] + "/" + fullId[k + 1..];
      if Splits(fullId, name, id) {
        assert fullId[..|name|] == name && fullId[|name|] == '/' && fullId[|name| + 1..] == id;
        FindSlashIs(fullId, |name|);
      }
    } else {
      assert fullId[..k] == fullId;
    }
  }

  /** The text names controller `c`, the first one of its name, and the id `id` there. */
  predicate Names(cluster: seq<Node>, fullId: string, c: nat, id: string) {
    && c < |cluster| && Splits(fullId, cluster[c].name, id)
    && forall d :: 0 <= d < c ==> cluster[d].name != cluster[c].name
  }

  /** Any text a client may send goes to the controller it names, with the id it names, and to none if it names none. */
  lemma {:induction false} RouteIs(cluster: seq<Node>, fullId: string, c: nat, id: string)
    ensures Route(cluster, fullId) == (Some(c), id) <==> Names(cluster, fullId, c, id)
    ensures Route(cluster, fullId).0 == None ==> !Names(cluster, fullId, c, id)
    ensures Route(cluster, fullId).0.Some? ==> Route(cluster, fullId).0.value < |cluster|
  {
    hide ExtractIdParts, Splits, FindSlash;
    var parts := ExtractIdParts(fullId);
    PartsAre(fullId, parts.0, parts.1);
    if c < |cluster| { PartsAre(fullId, cluster[c].name, id); }
  }

  /** With distinct slash-free names, every full id leads back to its controller and its instance. */
  lemma {:induction false} RoutingReachesOrigin(cluster: seq<Node>, i: nat, id: int)
    requires i < |cluster| && DistinctNames(cluster) && SlashFree(cluster[i].name) && Int32(id)
    ensures var (c, text) := Route(cluster, MakeFullId(cluster[i].name, ToString(id)));
            c == Some(i) && Stoi(text) == Number(id)
  {
    hide ToString, Stoi;
    RouteIsExact(cluster, i, ToString(id));
    DecimalRoundTrip(id);
  }

  // ----- operations on the cluster -----

  datatype Answered = Answered(cluster: seq<Node>, lines: seq<string>)

  /** `run` on a full id: the controller it names, if any, is asked; the answer is "0" otherwise. */
  function RunAnywhere(cluster: seq<Node>, fullId: string, env: Env): Answered {
    match Route(cluster, fullId)
    case (None, _) => Answered(cluster, [BoolText(false)])
    case (Some(c), id) =>
      var a := ServeRun(cluster[c].state, id, env);
      Answered(cluster[c := cluster[c].(state := a.state)], a.lines)
  }

  function KillAnywhere(cluster: seq<Node>, fullId: string, env: Env): Answered {
    match Route(cluster, fullId)
    case (None, _) => Answered(cluster, [BoolText(false)])
    case (Some(c), id) => Answered(cluster, ServeKill(cluster[c].state, id, env).lines)
  }

  /** `run` on an instance's full id runs that instance on its controller, and touches nothing else. */
  lemma {:induction false} RunReachesInstance(cluster: seq<Node>, i: nat, id: int, env: Env)
    requires i < |cluster| && DistinctNames(cluster) && SlashFree(cluster[i].name) && Int32(id)
    ensures var a := RunAnywhere(cluster, MakeFullId(cluster[i].name, ToString(id)), env);
            var r, table := Run(cluster[i].state, id, env.busy, env.alive, env.child), cluster[i].state.table;
            && a.lines == [if id in table && !(table[id].pid != 0 && table[id].pid in env.alive) then "1" else "0"]
            && |a.cluster| == |cluster|
            && a.cluster[i] == cluster[i].(state := r.state)
            && forall j :: 0 <= j < |cluster| && j != i ==> a.cluster[j] == cluster[j]
    ensures KillAnywhere(cluster, MakeFullId(cluster[i].name, ToString(id)), env).lines ==
            [if id in cluster[i].state.table then "1" else "0"]
  {
    hide ToString, Stoi, Run, Kill, Route, BoolText;
    RoutingReachesOrigin(cluster, i, id);
    ResultLines(cluster[i].state, Route(cluster, MakeFullId(cluster[i].name, ToString(id))).1, env);
    BoolTextIs(true);
    BoolTextIs(false);
  }

  /**
   `run` on any text: "1", and that instance is run on its controller alone, exactly if the text names a controller and,
   there, the number of an instance without live process; otherwise "0" and nothing changes.
   */
  lemma {:induction false} RunAnswers(cluster: seq<Node>, fullId: string, env: Env)
    ensures var a := RunAnywhere(cluster, fullId, env);
            && (a.lines == ["1"] || a.lines == ["0"]) && (a.lines == ["0"] ==> a.cluster == cluster)
            && (a.lines == ["1"] <==>
                  exists c: nat, id :: Names(cluster, fullId, c, id) && CanStart(cluster[c].state, id, env.alive))
    ensures forall c: nat, id :: Names(cluster, fullId, c, id) && CanStart(cluster[c].state, id, env.alive) ==>
              var r := Run(cluster[c].state, Stoi(id).value, env.busy, env.alive, env.child);
              RunAnywhere(cluster, fullId, env).cluster == cluster[c := cluster[c].(state := r.state)]
  {
    hide ToString, Stoi, Run, Route, BoolText, Names, CanStart;
    BoolTextIs(true);
    BoolTextIs(false);
    assert "1" != "0";
    var a, route := RunAnywhere(cluster, fullId, env), Route(cluster, fullId);
    RouteIs(cluster, fullId, 0, "");
    if route.0.Some? {
      var c, id := route.0.value, route.1;
      RouteIs(cluster, fullId, c, id);
      ResultLines(cluster[c].state, id, env);
      if a.lines == ["0"] { assert cluster[c := cluster[c]] == cluster; }
    }
    forall d: nat, id | Names(cluster, fullId, d, id) ensures route == (Some(d), id) {
      RouteIs(cluster, fullId, d, id);
    }
    RunKnown();
  }

  lemma {:induction false} RunKnown()
    ensures forall s: State, id: string, env: Env :: CanStart(s, id, env.alive) ==>
              ServeRun(s, id, env).state == Run(s, Stoi(id).value, env.busy, env.alive, env.child).state
  {
    hide Run, Stoi, BoolText;
  }

  /** `kill` on any text: "1" exactly if it names a controller and, there, the number of an instance; else "0". */
  lemma {:induction false} KillAnswers(cluster: seq<Node>, fullId: string, env: Env)
    ensures var a := KillAnywhere(cluster, fullId, env);
            && (a.lines == ["1"] || a.lines == ["0"]) && a.cluster == cluster
            && (a.lines == ["1"] <==>
                  exists c: nat, id :: Names(cluster, fullId, c, id) && Known(cluster[c].state, id))
  {
    hide ToString, Stoi, Kill, Route, BoolText, Names, Known;
    BoolTextIs(true);
    BoolTextIs(false);
    assert "1" != "0";
    var route := Route(cluster, fullId);
    RouteIs(cluster, fullId, 0, "");
    if route.0.Some? {
      RouteIs(cluster, fullId, route.0.value, route.1);
      ResultLines(cluster[route.0.value].state, route.1, env);
    }
    forall d: nat, id | Names(cluster, fullId, d, id) ensures route == (Some(d), id) {
      RouteIs(cluster, fullId, d, id);
    }
  }

  /** A text without slash goes out as it is, and is answered "0" unless it is the number of an instance. */
  lemma {:induction false} NoSlash(cluster: seq<Node>, fullId: string, env: Env)
    requires SlashFree(fullId)
    ensures ExtractIdParts(fullId) == (fullId, fullId)
    ensures !Stoi(fullId).Number? ==>
              RunAnywhere(cluster, fullId, env) == KillAnywhere(cluster, fullId, env) == Answered(cluster, ["0"])
  {
    hide Stoi, RunAnywhere, KillAnywhere, Known;
    PartsAre(fullId, fullId, fullId);
    RunAnswers(cluster, fullId, env);
    KillAnswers(cluster, fullId, env);
    if !Stoi(fullId).Number? {
      forall s: State, id: string | Known(s, id) ensures Stoi(id).Number? { KnownIsNumber(s, id); }
    }
  }

  lemma {:induction false} KnownIsNumber(s: State, id: string)
    requires Known(s, id)
    ensures Stoi(id).Number?
  {
    hide Stoi;
  }

  // ----- listings -----

  /** The infos of one controller's listing, in the order its map is visited, under full ids. */
  function Renamed(name: string, m: map<string, InstanceInfo>, order: seq<string>): (infos: seq<InstanceInfo>)
    requires forall i :: 0 <= i < |order| ==> order[i] in m
    ensures |infos| == |order|
    ensures forall i :: 0 <= i < |order| ==> infos[i] == m[order[i]].SetId(MakeFullId(name, m[order[i]].id))
  {
    seq(|order|, i requires 0 <= i < |order| => m[order[i]].SetId(MakeFullId(name, m[order[i]].id)))
  }

  /**
   What the proxies return for `getInstances`, and the orders in which those maps are visited; `alive[c]` are the
   processes alive on the host of controller `c`.
   */
  ghost predicate Listings(
    cluster: seq<Node>, maps: seq<map<string, InstanceInfo>>, orders: seq<seq<string>>, alive: seq<set<int>>)
  {
    && |maps| == |orders| == |alive| == |cluster|
    && (forall c :: 0 <= c < |cluster| ==>
          IsListing(maps[c], cluster[c].state.table, alive[c]) && Enumerates(orders[c], maps[c].Keys))
  }

  /** All infos of the first `n` controllers, in the order the manager writes them. */
  function Gathered(cluster: seq<Node>, maps: seq<map<string, InstanceInfo>>, orders: seq<seq<string>>,
      n: nat): seq<InstanceInfo>
    requires n <= |cluster| && |maps| == |cluster| == |orders|
    requires forall c :: 0 <= c < |cluster| ==> Enumerates(orders[c], maps[c].Keys)
  {
    if n == 0 then []
    else
      EnumeratesElements(orders[n - 1], maps[n - 1].Keys);
      Gathered(cluster, maps, orders, n - 1) + Renamed(cluster[n - 1].name, maps[n - 1], orders[n - 1])
  }

  function TotalInstances(cluster: seq<Node>): nat {
    if cluster == [] then 0 else TotalInstances(cluster[..|cluster| - 1]) + |cluster[|cluster| - 1].state.table|
  }

  /** The union of the controllers' templates; a later controller wins on a shared name. */
  function AllTemplates(cluster: seq<Node>): map<string, Template> {
    if cluster == [] then map[] else AllTemplates(cluster[..|cluster| - 1]) + cluster[|cluster| - 1].state.templates
  }

  /** Templates of the first `n` controllers, in the order the manager writes them. */
  function GatheredTemplates(cluster: seq<Node>, orders: seq<seq<string>>, n: nat): seq<Template>
    requires n <= |cluster| == |orders|
    requires forall c :: 0 <= c < |cluster| ==> Enumerates(orders[c], cluster[c].state.templates.Keys)
  {
    if n == 0 then []
    else
      EnumeratesElements(orders[n - 1], cluster[n - 1].state.templates.Keys);
      GatheredTemplates(cluster, orders, n - 1) + TemplatesIn(cluster[n - 1].state.templates, orders[n - 1])
  }
}
