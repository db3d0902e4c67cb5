/** A session under the lock, taken by itself, does to the cluster what one request to the manager does. */
module SessionTheorems {
  import opened Wrappers
  import opened Decimal
  import opened Framing
  import opened Records
  import opened ControllerModel
  import opened Servers
  import opened ControllerProxies
  import opened Placement
  import opened Clusters
  import opened Managers
  import opened LockDiscipline
  import opened Sessions

  // ----- names and orders -----

  lemma {:induction false} FindNameIs(names: seq<string>, cluster: seq<Node>, name: string)
    requires |names| == |cluster| && forall c :: 0 <= c < |names| ==> cluster[c].name == names[c]
    ensures FindName(names, name) == FirstNamed(cluster, name)
  {
    if names != [] { FindNameIs(names[1..], cluster[1..], name); }
  }

  lemma {:induction false} CommandIsWellFormed(names: seq<string>, states: seq<State>, r: seq<string>)
    requires |names| == |states| && LegalCommand(names, r)
    ensures WellFormedCommand(ClusterOf(names, states), r)
  {
    hide InstanceInfo.Deserialize, FindSlash;
    if |r| >= 2 { FindNameIs(names, ClusterOf(names, states), ExtractIdParts(r[1]).0); }
  }

  lemma {:induction false} ListingOfIs(s: State, alive: set<int>)
    requires Servable(s)
    ensures IsListing(ListingOf(s.table, alive), s.table, alive)
  {
    hide IsListing, Index, InfosIn, Enumerates, Servable;
    ServableNames(s);
    EnumeratesElements(Order(s.table.Keys), s.table.Keys);
    IndexIsListing(s.table, Order(s.table.Keys), alive);
  }

  lemma {:induction false} VisitsAll(cluster: seq<Node>, alive: seq<set<int>>)
    requires |alive| == |cluster| && forall c :: 0 <= c < |cluster| ==> Servable(cluster[c].state)
    ensures Visiting(cluster, VisitOf(cluster, alive))
  {
    hide IsListing, ListingOf, Enumerates, Servable;
    forall c | 0 <= c < |cluster| ensures IsListing(ListingOf(cluster[c].state.table, alive[c]),
        cluster[c].state.table, alive[c]) {
      ListingOfIs(cluster[c].state, alive[c]);
    }
  }

  // ----- one exchange -----

  /** The reply to `getTemplates` is the controller's own map, and its state stays. */
  lemma {:induction false} ReadsTemplates(v: Service)
    requires CanServe(v) && Servable(v.before) && v.request == ["getTemplates"]
    ensures ServedBy(v).state == v.before && TemplatesRead(Decoded(ServedBy(v).lines)) == v.before.templates
  {
    hide SerializeTemplates, ParseTemplates, Enumerates, Index, TemplatesIn, Servable;
    EnumeratesElements(v.names, v.before.templates.Keys);
    TemplatesReply(v.before, v.names);
    ServableNames(v.before);
    IndexIsTemplates(v.before.templates, v.names);
  }

  /** The reply to `getInstances` is the controller's listing. */
  lemma {:induction false} ReadsInstances(v: Service)
    requires CanServe(v) && Servable(v.before) && v.request == ["getInstances"]
    ensures ServedBy(v).state == v.before
    ensures InstancesRead(Decoded(ServedBy(v).lines)) == ListingOf(v.before.table, v.env.alive)
  {
    hide SerializeInstances, ParseInstances, Enumerates, Index, InfosIn, Servable, IsListing, ListingOf, Decoded;
    var s := v.before;
    EnumeratesElements(v.ids, s.table.Keys);
    ListingReply(s, v.ids, v.env.alive);
    ServableNames(s);
    IndexIsListing(s.table, v.ids, v.env.alive);
    ListingOfIs(s, v.env.alive);
    SameListing(Index(InfosIn(s.table, v.ids, v.env.alive), IdOf), ListingOf(s.table, v.env.alive), s.table,
        v.env.alive);
  }

  /** The reply to `instantiate` reads back as the record that was granted. */
  lemma {:induction false} ReadsGrant(v: Service, x: InstanceInfo)
    requires CanServe(v) && Servable(v.before) && x.Printable() && v.request == ["instantiate"] + Asked(x).Serialize()
    ensures ServedBy(v).state == ServeInstantiate(v.before, Asked(x), v.env).state
    ensures var reply := Decoded(ServedBy(v).lines);
            |reply| >= INSTANCE_SIZE && InstanceInfo.Deserialize(reply) == Some(Granted(v.before, Asked(x), v.env))
  {
    hide ServeInstantiate, Granted, Servable, InstanceInfo.Deserialize, InstanceInfo.Serialize, Visits;
    AskIsLegal(x.templ, x.memory, x.cpus);
    InstantiateReply(v.before, Asked(x), v.env);
  }

  /** The reply to `run` and `kill` reads back as the result. */
  lemma {:induction false} ReadsResult(v: Service, command: string, id: string)
    requires CanServe(v) && v.request == [command, id] && (command == "run" || command == "kill")
    ensures var a := if command == "run" then ServeRun(v.before, id, v.env) else ServeKill(v.before, id, v.env);
            var reply := Decoded(ServedBy(v).lines);
            && ServedBy(v) == a && |reply| == 1
            && a.lines == [BoolText(reply != [] && Stoi(reply[0]).Number? && Stoi(reply[0]).value != 0)]
  {
    hide ToString, Stoi, ControllerModel.Run, ControllerModel.Kill;
    DecimalRoundTrip(0);
    DecimalRoundTrip(1);
    TextIsPlain(0);
    TextIsPlain(1);
  }

  // ----- the listings -----

  lemma {:induction false} PlayedLast(
    names: seq<string>, before: seq<State>, next: nat, command: seq<string>, trail: seq<Exchange>)
    requires |before| == |names| && LegalCommand(names, command) && trail != []
    requires Played(names, before, next, command, trail)
    ensures var n := |trail| - 1;
            && Indexed(|names|, trail) && Indexed(|names|, trail[..n])
               && Played(names, before, next, command, trail[..n])
            && Plan(names, NextOf(next, command, trail[..n]), LocalAfter(command, trail[..n])) ==
               AskNext(trail[n].c, trail[n].service.request)
            && trail[n].service.before == After(before, trail[..n])[trail[n].c]
  {
    hide Plan, CanServe, LegalCommand;
  }

  lemma {:induction false} TemplatesSession(
    names: seq<string>, before: seq<State>, next: nat, command: seq<string>, trail: seq<Exchange>,
    orders: seq<seq<string>>)
    requires |before| == |names| == |orders| && LegalCommand(names, command) && command[0] == "getTemplates"
    requires forall c :: 0 <= c < |names| ==> Servable(before[c]) && orders[c] == Order(before[c].templates.Keys)
    requires TemplateOrders(ClusterOf(names, before), orders)
    requires Played(names, before, next, command, trail)
    ensures |trail| <= |names| && After(before, trail) == before && NextOf(next, command, trail) == next
    ensures TemplatesOf(LocalAfter(command, trail).replies) ==
            GatheredTemplates(ClusterOf(names, before), orders, |trail|)
    decreases |trail|
  {
    hide Servable, CanServe, ServedBy, Enumerates, TemplatesRead, TemplatesIn, Decoded, Played;
    if trail != [] {
      var n := |trail| - 1;
      PlayedLast(names, before, next, command, trail);
      TemplatesSession(names, before, next, command, trail[..n], orders);
      var v := trail[n].service;
      ReadsTemplates(v);
      var l := LocalAfter(command, trail);
      assert l.replies[..n] == LocalAfter(command, trail[..n]).replies;
    }
  }

  lemma {:induction false} InstancesSession(
    names: seq<string>, before: seq<State>, next: nat, command: seq<string>, trail: seq<Exchange>, v: Visit)
    requires |before| == |names| == |v.alive| && LegalCommand(names, command) && command[0] == "getInstances"
    requires forall c :: 0 <= c < |names| ==> Servable(before[c])
    requires v == VisitOf(ClusterOf(names, before), v.alive) && GathersIn(names, v)
    requires forall i :: 0 <= i < |trail| && i < |names| ==> v.alive[i] == trail[i].service.env.alive
    requires Played(names, before, next, command, trail)
    ensures |trail| <= |names| && After(before, trail) == before && NextOf(next, command, trail) == next
    ensures InstancesOf(names, LocalAfter(command, trail).replies) ==
            Gathered(ClusterOf(names, before), v.maps, v.orders, |trail|)
    decreases |trail|
  {
    hide Servable, CanServe, ServedBy, Enumerates, InstancesRead, ListingOf, Renamed, Decoded, Played, InstancesOf,
      Gathered, After, LocalAfter, NextOf, LegalCommand, VisitOf;
    LegalHasName(names, command);
    if trail == [] {
      NothingGathered(names, before, next, command, v);
    } else {
      var n := |trail| - 1;
      PlayedLast(names, before, next, command, trail);
      TrailStep(before, next, command, trail);
      InstancesSession(names, before, next, command, trail[..n], v);
      ReadsInstances(trail[n].service);
      VisitParts(names, before, v, n);
      OneMoreGathered(names, before, LocalAfter(command, trail[..n]).replies,
          Decoded(ServedBy(trail[n].service).lines), v);
    }
  }

  /** The orders are orders of the maps. */
  ghost predicate GathersIn(names: seq<string>, v: Visit) {
    && |v.maps| == |v.orders| == |v.alive| == |names|
    && forall c :: 0 <= c < |names| ==> Enumerates(v.orders[c], v.maps[c].Keys)
  }

  lemma {:induction false} VisitGathers(names: seq<string>, before: seq<State>, v: Visit)
    requires |before| == |names| == |v.alive| && v == VisitOf(ClusterOf(names, before), v.alive)
    ensures GathersIn(names, v)
  {
    hide ListingOf, Enumerates;
  }

  lemma {:induction false} VisitParts(names: seq<string>, before: seq<State>, v: Visit, c: nat)
    requires |before| == |names| == |v.alive| && v == VisitOf(ClusterOf(names, before), v.alive) && c < |names|
    ensures |v.maps| == |v.orders| == |names|
    ensures v.maps[c] == ListingOf(before[c].table, v.alive[c]) && v.orders[c] == Order(v.maps[c].Keys)
  {
    hide ListingOf, Enumerates;
  }

  lemma {:induction false} NothingGathered(
    names: seq<string>, before: seq<State>, next: nat, command: seq<string>, v: Visit)
    requires |before| == |names| && GathersIn(names, v)
    ensures After(before, []) == before && NextOf(next, command, []) == next && LocalAfter(command, []).replies == []
    ensures InstancesOf(names, []) == Gathered(ClusterOf(names, before), v.maps, v.orders, 0)
  {
    hide Enumerates;
  }

  lemma {:induction false} TrailStep(before: seq<State>, next: nat, command: seq<string>, trail: seq<Exchange>)
    requires trail != [] && Indexed(|before|, trail) && Indexed(|before|, trail[..|trail| - 1])
    ensures var n := |trail| - 1; var x := trail[n];
            && After(before, trail) == After(before, trail[..n])[x.c := ServedBy(x.service).state]
            && LocalAfter(command, trail).replies ==
               LocalAfter(command, trail[..n]).replies + [Decoded(ServedBy(x.service).lines)]
            && |LocalAfter(command, trail[..n]).replies| == n
            && NextOf(next, command, trail) ==
               NextAfter(NextOf(next, command, trail[..n]), command, x.c, x.service.request)
  {
    hide CanServe, ServedBy;
  }

  lemma {:induction false} OneMoreGathered(
    names: seq<string>, before: seq<State>, replies: seq<seq<string>>, reply: seq<string>, v: Visit)
    requires |before| == |names| && GathersIn(names, v) && |replies| < |names|
    requires InstancesRead(reply) == v.maps[|replies|] && v.orders[|replies|] == Order(v.maps[|replies|].Keys)
    requires InstancesOf(names, replies) == Gathered(ClusterOf(names, before), v.maps, v.orders, |replies|)
    ensures InstancesOf(names, replies + [reply]) == Gathered(ClusterOf(names, before), v.maps, v.orders, |replies| + 1)
  {
    hide Enumerates, InstancesRead, Renamed;
    var all := replies + [reply];
    assert all[..|all| - 1] == replies;
  }

  // ----- instantiate -----

  /** Where the placement loop stands after the exchanges. */
  ghost predicate Placing(names: seq<string>, before: seq<State>, next: nat, command: seq<string>, trail: seq<Exchange>)
    requires |before| == |names| && LegalCommand(names, command) && command[0] == "instantiate"
             && Indexed(|names|, trail)
  {
    var x := InstanceInfo.Deserialize(command[1..]).value;
    var offers := Offers(ClusterOf(names, before), x.templ);
    var l, nx, k := LocalAfter(command, trail), NextOf(next, command, trail), |trail|;
    && (names != [] ==> nx < |names|)
    && if l.granted then
         && k > 0 && nx < |names| && Place(next, offers, |offers|) == Placed(Some(nx), nx)
         && var v := trail[k - 1].service;
            && v.before == before[nx] && CanServe(v) && v.request == ["instantiate"] + Asked(x).Serialize()
            && After(before, trail) == before[nx := ServedBy(v).state]
       else
         && k <= |names| && After(before, trail) == before
         && if k > 0 && x.templ in TemplatesRead(l.replies[k - 1]) then nx < |names|
            && Place(next, offers, |offers|) == Placed(Some(nx), nx)
            else Place(next, offers, |offers|) == Place(nx, offers, |names| - k)
  }

  lemma {:induction false} InstantiateSession(
    names: seq<string>, before: seq<State>, next: nat, command: seq<string>, trail: seq<Exchange>)
    requires |before| == |names| && LegalCommand(names, command) && command[0] == "instantiate"
    requires (names != [] ==> next < |names|) && forall c :: 0 <= c < |names| ==> Servable(before[c])
    requires Played(names, before, next, command, trail)
    ensures Placing(names, before, next, command, trail)
    decreases |trail|
  {
    hide Servable, CanServe, ServedBy, InstanceInfo.Deserialize, InstanceInfo.Serialize, TemplatesRead, Decoded,
      Place, AdvanceModulo;
    if trail != [] {
      var n := |trail| - 1;
      InstantiateSession(names, before, next, command, trail[..n]);
      InstantiateStep(names, before, next, command, trail);
    }
  }

  lemma {:induction false} InstantiateStep(
    names: seq<string>, before: seq<State>, next: nat, command: seq<string>, trail: seq<Exchange>)
    requires |before| == |names| && LegalCommand(names, command) && command[0] == "instantiate" && trail != []
    requires (names != [] ==> next < |names|) && forall c :: 0 <= c < |names| ==> Servable(before[c])
    requires Played(names, before, next, command, trail) && Indexed(|names|, trail[..|trail| - 1])
    requires Placing(names, before, next, command, trail[..|trail| - 1])
    ensures Placing(names, before, next, command, trail)
  {
    hide Servable, CanServe, ServedBy, InstanceInfo.Deserialize, InstanceInfo.Serialize, TemplatesRead, Decoded,
      Place, AdvanceModulo, Played;
    var n := |trail| - 1;
    var v, c := trail[n].service, trail[n].c;
    PlayedLast(names, before, next, command, trail);
    var x := InstanceInfo.Deserialize(command[1..]).value;
    var offers := Offers(ClusterOf(names, before), x.templ);
    var l, nx := LocalAfter(command, trail[..n]), NextOf(next, command, trail[..n]);
    assert !l.granted;
    if n > 0 && x.templ in TemplatesRead(l.replies[n - 1]) {
      assert v.request[0] == "instantiate" && c == nx;
    } else {
      assert v.request == ["getTemplates"] && c == AdvanceModulo(nx, |names|);
      ReadsTemplates(v);
      TurnOfPlace(nx, offers, |names| - n);
      assert LocalAfter(command, trail).replies[n] == Decoded(ServedBy(v).lines);
    }
  }

  lemma {:induction false} TurnOfPlace(next: nat, offers: seq<bool>, tries: nat)
    requires next < |offers| && 0 < tries <= |offers|
    ensures var n := AdvanceModulo(next, |offers|);
            n < |offers| && Place(next, offers, tries) == if offers[n] then Placed(Some(n), n)
                else Place(n, offers, tries - 1)
  {
    AdvanceIs(next, |offers|);
  }

  /** After the last exchange the instance was granted as placement says, or nobody has the template. */
  lemma {:induction false} InstantiateEnds(
    names: seq<string>, before: seq<State>, next: nat, command: seq<string>, trail: seq<Exchange>)
    requires |before| == |names| && LegalCommand(names, command) && command[0] == "instantiate"
    requires (names != [] ==> next < |names|) && forall c :: 0 <= c < |names| ==> Servable(before[c])
    requires Indexed(|names|, trail) && Placing(names, before, next, command, trail)
    requires Plan(names, NextOf(next, command, trail), LocalAfter(command, trail)).Finished?
    ensures var x := InstanceInfo.Deserialize(command[1..]).value;
            var p := PlaceInstance(ClusterOf(names, before), next, x, EnvOf(trail));
            && p.cluster == ClusterOf(names, After(before, trail)) && p.next == NextOf(next, command, trail)
            && Plan(names, NextOf(next, command, trail), LocalAfter(command, trail)) == Finished(p.reply.Serialize())
  {
    hide Servable, CanServe, ServedBy, InstanceInfo.Deserialize, InstanceInfo.Serialize, TemplatesRead, Decoded,
      Place, AdvanceModulo, ServeInstantiate, Granted, MakeFullId;
    var x := InstanceInfo.Deserialize(command[1..]).value;
    var cluster := ClusterOf(names, before);
    var l, k := LocalAfter(command, trail), |trail|;
    if l.granted {
      var v, nx := trail[k - 1].service, NextOf(next, command, trail);
      EchoIsLegal(command);
      ReadsGrant(v, x);
      assert l.replies[k - 1] == Decoded(ServedBy(v).lines);
      assert ClusterOf(names, After(before, trail)) == cluster[nx := cluster[nx].(state := ServedBy(v).state)];
    } else {
      assert k == |names|;
      NoMoreTries(NextOf(next, command, trail), Offers(cluster, x.templ));
    }
  }

  lemma {:induction false} NoMoreTries(next: nat, offers: seq<bool>)
    ensures Place(next, offers, 0) == Placed(None, next)
  {
  }

  // ----- run and kill -----

  lemma {:induction false} ByIdSession(
    names: seq<string>, before: seq<State>, next: nat, command: seq<string>, trail: seq<Exchange>)
    requires |before| == |names| && LegalCommand(names, command) && (command[0] == "run" || command[0] == "kill")
    requires Played(names, before, next, command, trail)
    ensures |trail| <= 1 && NextOf(next, command, trail) == next
    ensures trail != [] ==>
              var parts := ExtractIdParts(command[1]);
              && |command| >= 2 && FindName(names, parts.0) == Some(trail[0].c) && trail[0].c < |names|
                 && CanServe(trail[0].service)
              && trail[0].service.request == [command[0], parts.1] && trail[0].service.before == before[trail[0].c]
              && After(before, trail) == before[trail[0].c := ServedBy(trail[0].service).state]
  {
    hide CanServe, ServedBy, FindName, ExtractIdParts, Decoded;
    if trail != [] {
      var n := |trail| - 1;
      ByIdSession(names, before, next, command, trail[..n]);
    }
  }

  lemma {:induction false} ByIdEnds(
    names: seq<string>, before: seq<State>, next: nat, command: seq<string>, trail: seq<Exchange>)
    requires |before| == |names| && LegalCommand(names, command) && (command[0] == "run" || command[0] == "kill")
    requires Played(names, before, next, command, trail)
    requires Plan(names, NextOf(next, command, trail), LocalAfter(command, trail)).Finished?
    ensures var cluster, env := ClusterOf(names, before), EnvOf(trail);
            var a := if |command| < 2 then Answered(cluster, [BoolText(false)])
                     else if command[0] == "run" then RunAnywhere(cluster, command[1], env)
                         else KillAnywhere(cluster, command[1], env);
            && a.cluster == ClusterOf(names, After(before, trail))
            && Plan(names, NextOf(next, command, trail), LocalAfter(command, trail)) == Finished(a.lines)
  {
    hide CanServe, ServedBy, FindName, ExtractIdParts, Decoded, ServeRun, ServeKill, ToString, Stoi, Played;
    ByIdSession(names, before, next, command, trail);
    var cluster := ClusterOf(names, before);
    if |command| >= 2 {
      var parts := ExtractIdParts(command[1]);
      FindNameIs(names, cluster, parts.0);
      if trail != [] {
        var c, v := trail[0].c, trail[0].service;
        ReadsResult(v, command[0], parts.1);
        KillKeeps(v.before, parts.1, v.env);
        assert trail[..0] == [];
        assert LocalAfter(command, trail).replies[0] == Decoded(ServedBy(v).lines);
        assert ClusterOf(names, After(before, trail)) == cluster[c := cluster[c].(state := ServedBy(v).state)];
        assert command[0] == "kill" ==> cluster[c := cluster[c].(state := ServedBy(v).state)] == cluster;
      }
    }
  }

  lemma {:induction false} KillKeeps(s: State, id: string, env: Env)
    ensures ServeKill(s, id, env).state == s
  {
  }

  // ----- the whole request -----

  /** A session that followed the handler's program to its end has done what `Handle` does, with the answer it gives. */
  lemma {:induction false} SessionIsHandle(
    names: seq<string>, before: seq<State>, next: nat, command: seq<string>, trail: seq<Exchange>)
    requires |before| == |names| && LegalCommand(names, command) && (names != [] ==> next < |names|)
    requires forall c :: 0 <= c < |names| ==> Servable(before[c])
    requires Played(names, before, next, command, trail) && Indexed(|names|, trail)
    requires Plan(names, NextOf(next, command, trail), LocalAfter(command, trail)).Finished?
    ensures var cluster := ClusterOf(names, before); var v := VisitOf(cluster, AliveOf(|names|, trail));
            && WellFormedCommand(cluster, command) && Visiting(cluster, v)
            && Handle(cluster, next, command, EnvOf(trail), v) ==
               Handled(ClusterOf(names, After(before, trail)), NextOf(next, command, trail),
                       Plan(names, NextOf(next, command, trail), LocalAfter(command, trail)).lines)
  {
    hide Servable, CanServe, Played, Placing, PlaceInstance, RunAnywhere, KillAnywhere, InstanceInfo.Deserialize,
      InstanceInfo.Serialize, GatheredTemplates, Gathered, SerializeTemplates, SerializeInstances, TemplatesOf,
      InstancesOf, PlanInstantiate, PlanById, After, LegalCommand, VisitOf, Visiting;
    var cluster := ClusterOf(names, before);
    var v := VisitOf(cluster, AliveOf(|names|, trail));
    LegalHasName(names, command);
    CommandIsWellFormed(names, before, command);
    VisitsAll(cluster, AliveOf(|names|, trail));
    if command[0] == "getTemplates" {
      ListingEnds(names, before, next, command, trail);
    } else if command[0] == "getInstances" {
      ListingEnds(names, before, next, command, trail);
    } else if command[0] == "instantiate" {
      InstantiateSession(names, before, next, command, trail);
      InstantiateEnds(names, before, next, command, trail);
    } else if command[0] == "run" || command[0] == "kill" {
      ByIdSession(names, before, next, command, trail);
      ByIdEnds(names, before, next, command, trail);
      KillStays(cluster, command, EnvOf(trail));
    } else {
      UnknownSession(names, before, next, command, trail);
    }
  }

  lemma {:induction false} LegalHasName(names: seq<string>, r: seq<string>)
    requires LegalCommand(names, r)
    ensures r != [] && WellFormed(r) && (r[0] == "instantiate" ==> InstantiateArgs(r))
  {
    hide InstanceInfo.Deserialize;
  }

  lemma {:induction false} KillStays(cluster: seq<Node>, command: seq<string>, env: Env)
    ensures |command| >= 2 ==> KillAnywhere(cluster, command[1], env).cluster == cluster
  {
    hide Route, ServeKill;
  }

  lemma {:induction false} ListingEnds(
    names: seq<string>, before: seq<State>, next: nat, command: seq<string>, trail: seq<Exchange>)
    requires |before| == |names| && LegalCommand(names, command) && forall c :: 0 <= c < |names| ==> Servable(before[c])
    requires command[0] == "getTemplates" || command[0] == "getInstances"
    requires Played(names, before, next, command, trail) && Indexed(|names|, trail)
    requires Plan(names, NextOf(next, command, trail), LocalAfter(command, trail)).Finished?
    ensures var cluster := ClusterOf(names, before); var v := VisitOf(cluster, AliveOf(|names|, trail));
            && Visiting(cluster, v) && |trail| == |names|
            && After(before, trail) == before && NextOf(next, command, trail) == next
            && Plan(names, next, LocalAfter(command, trail)) ==
               Finished(if command[0] == "getTemplates" then
                   SerializeTemplates(GatheredTemplates(cluster, v.names, |cluster|))
                        else SerializeInstances(Gathered(cluster, v.maps, v.orders, |cluster|)))
  {
    hide Servable, CanServe, Played, InstanceInfo.Deserialize, GatheredTemplates, Gathered, SerializeTemplates,
      SerializeInstances, TemplatesOf, InstancesOf, After, LegalCommand, ListingOf, NextOf;
    var cluster := ClusterOf(names, before);
    var v := VisitOf(cluster, AliveOf(|names|, trail));
    LegalHasName(names, command);
    VisitsAll(cluster, AliveOf(|names|, trail));
    if command[0] == "getTemplates" {
      TemplatesSession(names, before, next, command, trail, v.names);
    } else {
      VisitGathers(names, before, v);
      InstancesSession(names, before, next, command, trail, v);
    }
  }

  lemma {:induction false} UnknownSession(
    names: seq<string>, before: seq<State>, next: nat, command: seq<string>, trail: seq<Exchange>)
    requires |before| == |names| && LegalCommand(names, command) && Played(names, before, next, command, trail)
    requires command[0] !in ["getTemplates", "getInstances", "instantiate", "run", "kill"]
    ensures trail == [] && Indexed(|names|, trail) && After(before, trail) == before
            && NextOf(next, command, trail) == next
  {
    hide CanServe, LegalCommand, InstanceInfo.Deserialize;
    LegalHasName(names, command);
  }
}
