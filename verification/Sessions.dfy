/**
 What a handler does while it holds the lock, as a program over its requests and replies alone: which controller it
 asks next and what, or that it is done and with which lines.
 */
module Sessions {
  import opened Wrappers
  import opened Decimal
  import opened Framing
  import opened Records
  import opened ControllerModel
  import opened Servers
  import opened Placement
  import opened Clusters
  import opened Managers
  import opened LockDiscipline

  /**
   A handler's own variables in a branch: the client's request, the replies so far, and whether it sent
   `instantiate`.
   */
  datatype Local = Local(command: seq<string>, replies: seq<seq<string>>, granted: bool)

  datatype Next = AskNext(c: nat, request: seq<string>) | Finished(lines: seq<string>)

  function FindName(names: seq<string>, name: string): (c: Option<nat>)
    ensures c.Some? ==> c.value < |names|
  {
    if names == [] then None
    else if names[0] == name then Some(0)
    else
      match FindName(names[1..], name)
      case None => None
      case Some(i) => Some(i + 1)
  }

  /** The map that a reply to `getTemplates` is cut back into. */
  function TemplatesRead(reply: seq<string>): map<string, Template> {
    if |reply| % TEMPLATE_SIZE == 0 then Index(ParseTemplates(reply), NameOf) else map[]
  }

  function InstancesRead(reply: seq<string>): map<string, InstanceInfo> {
    if |reply| % INSTANCE_SIZE == 0 && ParseInstances(reply).Some? then Index(ParseInstances(reply).value, IdOf)
        else map[]
  }

  /** The templates of all replies, each map visited in its order. */
  ghost function TemplatesOf(replies: seq<seq<string>>): seq<Template> {
    if replies == [] then []
    else
      var n := |replies| - 1;
      var m := TemplatesRead(replies[n]);
      EnumeratesElements(Order(m.Keys), m.Keys);
      TemplatesOf(replies[..n]) + TemplatesIn(m, Order(m.Keys))
  }

  ghost function InstancesOf(names: seq<string>, replies: seq<seq<string>>): seq<InstanceInfo>
    requires |replies| <= |names|
  {
    if replies == [] then []
    else
      var n := |replies| - 1;
      var m := InstancesRead(replies[n]);
      EnumeratesElements(Order(m.Keys), m.Keys);
      InstancesOf(names, replies[..n]) + Renamed(names[n], m, Order(m.Keys))
  }

  predicate InstantiateArgs(r: seq<string>) { |r| >= 1 + INSTANCE_SIZE && InstanceInfo.Deserialize(r[1..]).Some? }

  /**
   `instantiate`: ask the controllers in turn for their templates, and the first that has the right one for an
   instance.
   */
  function PlanInstantiate(names: seq<string>, next: nat, l: Local): Next
    requires InstantiateArgs(l.command)
  {
    var x := InstanceInfo.Deserialize(l.command[1..]).value;
    var k := |l.replies|;
    if l.granted then
      if k > 0 && next < |names| && |l.replies[k - 1]| >= INSTANCE_SIZE
          && InstanceInfo.Deserialize(l.replies[k - 1]).Some? then
        var info := InstanceInfo.Deserialize(l.replies[k - 1]).value;
        Finished(info.SetId(MakeFullId(names[next], info.id)).Serialize())
      else Finished([])
    else if k > 0 && x.templ in TemplatesRead(l.replies[k - 1]) then
      AskNext(next, ["instantiate"] + Asked(x).Serialize())
    else if k < |names| then AskNext(AdvanceModulo(next, |names|), ["getTemplates"])
    else Finished(x.Serialize())
  }

  /** `run` and `kill`: ask the controller named in front of the slash, if there is one. */
  function PlanById(names: seq<string>, l: Local): Next
    requires l.command != []
  {
    if |l.command| < 2 then Finished([BoolText(false)])
    else
      var parts := ExtractIdParts(l.command[1]);
      match FindName(names, parts.0)
      case None => Finished([BoolText(false)])
      case Some(c) =>
        if l.replies == [] then AskNext(c, [l.command[0], parts.1])
        else Finished([BoolText(l.replies[0] != [] && Stoi(l.replies[0][0]).Number?
            && Stoi(l.replies[0][0]).value != 0)])
  }

  /** The branches of the handler. */
  ghost function Plan(names: seq<string>, next: nat, l: Local): Next
    requires l.command != [] && (l.command[0] == "instantiate" ==> InstantiateArgs(l.command))
  {
    var cmd, k := l.command[0], |l.replies|;
    if cmd == "getTemplates" then
      if k < |names| then AskNext(k, ["getTemplates"]) else Finished(SerializeTemplates(TemplatesOf(l.replies)))
    else if cmd == "getInstances" then
      if k < |names| then AskNext(k, ["getInstances"])
      else if k == |names| then Finished(SerializeInstances(InstancesOf(names, l.replies)))
      else Finished([])
    else if cmd == "instantiate" then PlanInstantiate(names, next, l)
    else if cmd == "run" || cmd == "kill" then PlanById(names, l)
    else Finished([UNKNOWN])
  }

  // ----- a session, as the controllers see it -----

  /** One request of the session, and its service. */
  datatype Exchange = Exchange(c: nat, service: Service)

  predicate Indexed(n: nat, trail: seq<Exchange>) {
    forall i :: 0 <= i < |trail| ==> trail[i].c < n && CanServe(trail[i].service)
  }

  /** The controllers' states after the exchanges, and the handler's variables then. */
  function After(before: seq<State>, trail: seq<Exchange>): (after: seq<State>)
    requires Indexed(|before|, trail)
    ensures |after| == |before|
  {
    if trail == [] then before
    else
      var n := |trail| - 1;
      After(before, trail[..n])[trail[n].c := ServedBy(trail[n].service).state]
  }

  function LocalAfter(command: seq<string>, trail: seq<Exchange>): (l: Local)
    requires forall i :: 0 <= i < |trail| ==> CanServe(trail[i].service)
    ensures l.command == command && |l.replies| == |trail|
  {
    if trail == [] then Local(command, [], false)
    else
      var n := |trail| - 1;
      var l := LocalAfter(command, trail[..n]);
      Local(command, l.replies + [Decoded(ServedBy(trail[n].service).lines)],
          trail[n].service.request[0] == "instantiate")
  }

  /** `nextController`: advanced before each look at a controller's templates in `instantiate`. */
  function NextAfter(next: nat, command: seq<string>, c: nat, request: seq<string>): nat {
    if command != [] && command[0] == "instantiate" && request == ["getTemplates"] then c else next
  }

  function NextOf(next: nat, command: seq<string>, trail: seq<Exchange>): nat {
    if trail == [] then next
    else
      var n := |trail| - 1;
      NextAfter(NextOf(next, command, trail[..n]), command, trail[n].c, trail[n].service.request)
  }

  /** A client's request on which neither the handler nor a controller dies. */
  predicate LegalCommand(names: seq<string>, r: seq<string>) {
    && WellFormed(r)
    && (r[0] == "instantiate" ==> InstantiateArgs(r))
    && (r[0] == "run" || r[0] == "kill" ==> |r| >= 2 ==>
          var parts := ExtractIdParts(r[1]); FindName(names, parts.0).Some? ==> parts.1 != "")
  }

  /** The exchanges are those of the handler's program, each served in the state the earlier ones left. */
  ghost predicate Played(names: seq<string>, before: seq<State>, next: nat, command: seq<string>, trail: seq<Exchange>)
    requires |before| == |names| && LegalCommand(names, command)
    decreases |trail|
  {
    && Indexed(|names|, trail)
    && (trail != [] ==>
          var n := |trail| - 1;
          && Played(names, before, next, command, trail[..n])
          && Indexed(|names|, trail[..n])
          && Plan(names, NextOf(next, command, trail[..n]), LocalAfter(command, trail[..n])) ==
             AskNext(trail[n].c, trail[n].service.request)
          && trail[n].service.before == After(before, trail[..n])[trail[n].c])
  }

  // ----- the same in terms of the cluster -----

  function ClusterOf(names: seq<string>, states: seq<State>): (cluster: seq<Node>)
    requires |names| == |states|
    ensures |cluster| == |names| && forall c :: 0 <= c < |names| ==> cluster[c] == Node(names[c], states[c])
  {
    seq(|names|, c requires 0 <= c < |names| => Node(names[c], states[c]))
  }

  /** The listing of a table, and the orders in which all maps are visited. */
  ghost function ListingOf(table: map<int, Entry>, alive: set<int>): map<string, InstanceInfo> {
    EnumeratesElements(Order(table.Keys), table.Keys);
    Index(InfosIn(table, Order(table.Keys), alive), IdOf)
  }

  ghost function VisitOf(cluster: seq<Node>, alive: seq<set<int>>): Visit
    requires |alive| == |cluster|
  {
    var n := |cluster|;
    var maps := seq(n, c requires 0 <= c < n => ListingOf(cluster[c].state.table, alive[c]));
    Visit(
      seq(n, c requires 0 <= c < n => Order(cluster[c].state.templates.Keys)),
      seq(n, c requires 0 <= c < n => Order(cluster[c].state.table.Keys)),
      maps,
      seq(n, c requires 0 <= c < n => Order(maps[c].Keys)),
      alive)
  }

  /** What the last exchange saw of its controller's host, and what each exchange saw alive on its own. */
  function EnvOf(trail: seq<Exchange>): Env {
    if trail == [] then Env({}, {}, {}, 0) else trail[|trail| - 1].service.env
  }

  function AliveOf(n: nat, trail: seq<Exchange>): (alive: seq<set<int>>)
    ensures |alive| == n
  {
    seq(n, c requires 0 <= c < n => if c < |trail| then trail[c].service.env.alive else {})
  }
}
