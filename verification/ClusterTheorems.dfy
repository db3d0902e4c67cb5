/** What a client of the manager sees: the union of its controllers. */
module ClusterTheorems {
  import opened Wrappers
  import opened Decimal
  import opened Framing
  import opened FramingTheorems
  import opened Records
  import opened ControllerModel
  import opened Sockets
  import opened Servers
  import opened ControllerProxies
  import opened Clusters

  /** An instance as the client sees it: its controller's record under its full id. */
  function FullInfo(cluster: seq<Node>, c: nat, id: int, alive: seq<set<int>>): InstanceInfo
    requires c < |cluster| == |alive| && id in cluster[c].state.table
  {
    var e := cluster[c].state.table[id];
    InstanceInfo(MakeFullId(cluster[c].name, ToString(id)), e.templ.name, e.memory, e.cpus, e.sshPort,
                 e.pid != 0 && e.pid in alive[c])
  }

  /** Controllers the manager can talk to; names are the words of the controllers file. */
  ghost predicate ClusterOk(cluster: seq<Node>) {
    && DistinctNames(cluster)
    && forall c :: 0 <= c < |cluster| ==> Servable(cluster[c].state) && Clean(cluster[c].name) && cluster[c].name != ""
  }

  /** An entry of one controller's listing comes from one instance. */
  lemma {:induction false} ListedEntry(cluster: seq<Node>, c: nat, m: map<string, InstanceInfo>, k: string,
      alive: seq<set<int>>)
    returns (id: int)
    requires c < |cluster| == |alive| && Servable(cluster[c].state) && IsListing(m, cluster[c].state.table, alive[c])
             && k in m
    ensures id in cluster[c].state.table && k == ToString(id) && m[k].id == k
    ensures m[k].SetId(MakeFullId(cluster[c].name, m[k].id)) == FullInfo(cluster, c, id, alive)
  {
    hide ToString;
    id :| id in cluster[c].state.table && k == ToString(id);
    assert cluster[c].state.table[id].id == id;
  }

  /** Instances of the first `n` controllers, each once: a controller's place and an id in its table. */
  ghost predicate AllInstances(cluster: seq<Node>, origins: seq<(nat, int)>, n: nat)
    requires n <= |cluster|
  {
    && NoDuplicates(origins)
    && (forall i :: 0 <= i < |origins| ==> origins[i].0 < n && origins[i].1 in cluster[origins[i].0].state.table)
    && (forall c: nat, id :: c < n && id in cluster[c].state.table ==> (c, id) in origins)
    && |origins| == TotalInstances(cluster[..n])
  }

  /** The infos are those instances under their full ids. */
  ghost predicate AreInfosOf(cluster: seq<Node>, infos: seq<InstanceInfo>, origins: seq<(nat, int)>,
      alive: seq<set<int>>) {
    && |infos| == |origins| && |alive| == |cluster|
    && forall i :: 0 <= i < |origins| ==>
         && origins[i].0 < |cluster| && origins[i].1 in cluster[origins[i].0].state.table
         && infos[i] == FullInfo(cluster, origins[i].0, origins[i].1, alive)
  }

  /** The ids behind one controller's listing, in the order it is visited. */
  lemma {:induction false} IdsOf(cluster: seq<Node>, c: nat, m: map<string, InstanceInfo>, order: seq<string>,
      alive: seq<set<int>>)
    returns (ids: seq<int>)
    requires c < |cluster| == |alive| && Servable(cluster[c].state) && IsListing(m, cluster[c].state.table, alive[c])
    requires Enumerates(order, m.Keys)
    ensures |ids| == |order| == |cluster[c].state.table|
    ensures forall i :: 0 <= i < |order| ==>
              order[i] in m && ids[i] in cluster[c].state.table && order[i] == ToString(ids[i])
              && m[order[i]].SetId(MakeFullId(cluster[c].name, m[order[i]].id)) == FullInfo(cluster, c, ids[i], alive)
  {
    hide ToString, Enumerates, Servable, IsListing, FullInfo;
    EnumeratesElements(order, m.Keys);
    ListingSize(m, cluster[c].state.table, alive[c]);
    ids := [];
    for i := 0 to |order|
      invariant |ids| == i
      invariant forall j :: 0 <= j < i ==>
                  order[j] in m && ids[j] in cluster[c].state.table && order[j] == ToString(ids[j])
                  && m[order[j]].SetId(MakeFullId(cluster[c].name, m[order[j]].id)) ==
                     FullInfo(cluster, c, ids[j], alive)
    {
      var id := ListedEntry(cluster, c, m, order[i], alive);
      ids := ids + [id];
    }
  }

  /** Instances of one controller, as places in the cluster. */
  function Places(c: nat, ids: seq<int>): (places: seq<(nat, int)>)
    ensures |places| == |ids| && forall i :: 0 <= i < |ids| ==> places[i] == (c, ids[i])
  {
    seq(|ids|, i requires 0 <= i < |ids| => (c, ids[i]))
  }

  /** One controller's listing is its table: every id once. */
  lemma {:induction false} OneController(cluster: seq<Node>, c: nat, m: map<string, InstanceInfo>, order: seq<string>,
      alive: seq<set<int>>)
    returns (origins: seq<(nat, int)>)
    requires c < |cluster| == |alive| && Servable(cluster[c].state) && IsListing(m, cluster[c].state.table, alive[c])
    requires Enumerates(order, m.Keys)
    ensures forall i :: 0 <= i < |order| ==> order[i] in m
    ensures AreInfosOf(cluster, Renamed(cluster[c].name, m, order), origins, alive)
    ensures NoDuplicates(origins) && |origins| == |cluster[c].state.table|
    ensures forall i :: 0 <= i < |origins| ==> origins[i].0 == c
    ensures forall id :: id in cluster[c].state.table ==> (c, id) in origins
  {
    hide ToString, Enumerates, Servable, IsListing, FullInfo, MakeFullId, AreInfosOf, Renamed;
    var ids := IdsOf(cluster, c, m, order, alive);
    origins := Places(c, ids);
    EnumeratesElements(order, m.Keys);
    RenamedAre(cluster, c, m, order, ids, alive);
    PlacesAreAll(cluster[c].state.table, c, m, order, ids, alive[c]);
  }

  lemma {:induction false} RenamedAre(
    cluster: seq<Node>, c: nat, m: map<string, InstanceInfo>, order: seq<string>, ids: seq<int>, alive: seq<set<int>>)
    requires c < |cluster| == |alive| && |ids| == |order|
    requires forall i :: 0 <= i < |order| ==>
              order[i] in m && ids[i] in cluster[c].state.table
              && m[order[i]].SetId(MakeFullId(cluster[c].name, m[order[i]].id)) == FullInfo(cluster, c, ids[i], alive)
    ensures AreInfosOf(cluster, Renamed(cluster[c].name, m, order), Places(c, ids), alive)
  {
    hide FullInfo, MakeFullId, ToString;
    var infos := Renamed(cluster[c].name, m, order);
    forall i | 0 <= i < |ids| ensures infos[i] == FullInfo(cluster, c, ids[i], alive) {}
  }

  lemma {:induction false} PlacesAreAll(
    table: map<int, Entry>, c: nat, m: map<string, InstanceInfo>, order: seq<string>, ids: seq<int>, alive: set<int>)
    requires IsListing(m, table, alive) && Enumerates(order, m.Keys) && |ids| == |order|
    requires forall i :: 0 <= i < |order| ==> order[i] == ToString(ids[i])
    ensures NoDuplicates(Places(c, ids))
    ensures forall id :: id in table ==> (c, id) in Places(c, ids)
  {
    hide ToString, Enumerates, IsListing;
    EnumeratesElements(order, m.Keys);
    OrderIsDistinct(order, m.Keys);
    var places := Places(c, ids);
    forall i, j | 0 <= i < j < |places| ensures places[i] != places[j] {
      assert order[i] != order[j];
    }
    forall id | id in table ensures (c, id) in places {
      ListingHas(m, table, alive, id);
      var i :| 0 <= i < |order| && order[i] == ToString(id);
      Injective(id, ids[i]);
      assert places[i] == (c, id);
    }
  }

  lemma {:induction false} ListingSize(m: map<string, InstanceInfo>, table: map<int, Entry>, alive: set<int>)
    requires IsListing(m, table, alive)
    ensures |m.Keys| == |m| == |table|
  {
  }

  lemma {:induction false} ListingHas(m: map<string, InstanceInfo>, table: map<int, Entry>, alive: set<int>, id: int)
    requires IsListing(m, table, alive) && id in table
    ensures ToString(id) in m && Shows(m[ToString(id)], ToString(id), table[id], alive)
  {
  }

  /** What the manager gathers is every instance of the cluster, each exactly once. */
  lemma {:induction false} GatheredIsAll(
    cluster: seq<Node>, maps: seq<map<string, InstanceInfo>>, orders: seq<seq<string>>, n: nat, alive: seq<set<int>>)
    returns (origins: seq<(nat, int)>)
    requires ClusterOk(cluster) && Listings(cluster, maps, orders, alive) && n <= |cluster|
    ensures AllInstances(cluster, origins, n) && AreInfosOf(cluster, Gathered(cluster, maps, orders, n), origins, alive)
    decreases n
  {
    hide ToString, Enumerates, Servable, IsListing, FullInfo, MakeFullId, Renamed, AllInstances, AreInfosOf,
      TotalInstances;
    if n == 0 {
      origins := [];
      NoInstances(cluster, alive);
    } else {
      var before := GatheredIsAll(cluster, maps, orders, n - 1, alive);
      var last := OneController(cluster, n - 1, maps[n - 1], orders[n - 1], alive);
      origins := before + last;
      var infos, more := Gathered(cluster, maps, orders, n - 1),
          Renamed(cluster[n - 1].name, maps[n - 1], orders[n - 1]);
      AreInfosOneMore(cluster, infos, before, more, last, alive);
      AllOneMore(cluster, before, last, n - 1);
    }
  }

  lemma {:induction false} NoInstances(cluster: seq<Node>, alive: seq<set<int>>)
    requires |alive| == |cluster|
    ensures AllInstances(cluster, [], 0) && AreInfosOf(cluster, [], [], alive)
  {
  }

  lemma {:induction false} AreInfosOneMore(
    cluster: seq<Node>, a: seq<InstanceInfo>, as': seq<(nat, int)>, b: seq<InstanceInfo>, bs: seq<(nat, int)>,
    alive: seq<set<int>>)
    requires AreInfosOf(cluster, a, as', alive) && AreInfosOf(cluster, b, bs, alive)
    ensures AreInfosOf(cluster, a + b, as' + bs, alive)
    ensures forall i :: 0 <= i < |bs| ==> bs[i].0 < |cluster| && bs[i].1 in cluster[bs[i].0].state.table
  {
    hide FullInfo;
  }

  lemma {:induction false} AllOneMore(cluster: seq<Node>, before: seq<(nat, int)>, last: seq<(nat, int)>, c: nat)
    requires c < |cluster| && AllInstances(cluster, before, c)
    requires NoDuplicates(last) && |last| == |cluster[c].state.table|
    requires forall i :: 0 <= i < |last| ==> last[i].0 == c && last[i].1 in cluster[c].state.table
    requires forall id :: id in cluster[c].state.table ==> (c, id) in last
    ensures AllInstances(cluster, before + last, c + 1)
  {
    var all := before + last;
    assert cluster[..c + 1][..c] == cluster[..c];
    forall i, j | 0 <= i < j < |all| ensures all[i] != all[j] {
      if i < |before| <= j { assert all[i].0 < c == all[j].0; }
    }
    forall d: nat, id | d < c + 1 && id in cluster[d].state.table ensures (d, id) in all {
      if d < c { assert (d, id) in before; } else { assert (c, id) in last; }
    }
  }

  lemma {:induction false} FullInfoPrintable(cluster: seq<Node>, c: nat, id: int, alive: seq<set<int>>)
    requires ClusterOk(cluster) && c < |cluster| == |alive| && id in cluster[c].state.table
    ensures FullInfo(cluster, c, id, alive).Printable()
    ensures IdOf(FullInfo(cluster, c, id, alive)) == MakeFullId(cluster[c].name, ToString(id))
  {
    hide ToString;
    TextIsPlain(id);
    InfoIsPrintable(cluster[c].state.table[id], alive[c]);
  }

  lemma {:induction false} FullInfoShows(cluster: seq<Node>, c: nat, id: int, alive: seq<set<int>>)
    requires c < |cluster| == |alive| && id in cluster[c].state.table
    ensures Shows(FullInfo(cluster, c, id, alive), MakeFullId(cluster[c].name, ToString(id)),
            cluster[c].state.table[id], alive[c])
  {
    hide ToString, MakeFullId;
  }

  /** Full ids of different instances differ, so the client's map loses none of them. */
  lemma {:induction false} InfosAreDistinct(cluster: seq<Node>, infos: seq<InstanceInfo>, origins: seq<(nat, int)>,
      alive: seq<set<int>>)
    requires ClusterOk(cluster) && AllInstances(cluster, origins, |cluster|)
             && AreInfosOf(cluster, infos, origins, alive)
    ensures DistinctKeys(infos, IdOf) && forall i :: 0 <= i < |infos| ==> infos[i].Printable()
  {
    hide ToString, FullInfo, MakeFullId, Servable;
    forall i | 0 <= i < |infos| ensures infos[i].Printable() {
      FullInfoPrintable(cluster, origins[i].0, origins[i].1, alive);
    }
    forall i, j | 0 <= i < j < |infos| ensures IdOf(infos[i]) != IdOf(infos[j]) {
      var (c, a) := origins[i];
      var (d, b) := origins[j];
      FullInfoPrintable(cluster, c, a, alive);
      FullInfoPrintable(cluster, d, b, alive);
      FullIdsDistinct(cluster[c].name, a, cluster[d].name, b);
      assert origins[i] != origins[j];
    }
  }

  /**
   The client's map of instances is the disjoint union of the controllers' tables under full ids: as many entries as
   all tables together, each with all fields of the original and the full id.
   */
  lemma {:induction false} Aggregation(
    cluster: seq<Node>, maps: seq<map<string, InstanceInfo>>, orders: seq<seq<string>>, alive: seq<set<int>>)
    requires ClusterOk(cluster) && Listings(cluster, maps, orders, alive)
    ensures var m := Index(Gathered(cluster, maps, orders, |cluster|), IdOf);
            && |m| == TotalInstances(cluster)
            && (forall c: nat, id :: c < |cluster| && id in cluster[c].state.table ==>
                  var k := MakeFullId(cluster[c].name, ToString(id));
                  k in m && Shows(m[k], k, cluster[c].state.table[id], alive[c]))
  {
    hide ToString, IsListing, Enumerates, Gathered, FullInfo, Index, MakeFullId, ClusterOk, DistinctKeys;
    var origins := GatheredIsAll(cluster, maps, orders, |cluster|, alive);
    var infos := Gathered(cluster, maps, orders, |cluster|);
    assert cluster[..|cluster|] == cluster;
    InfosAreDistinct(cluster, infos, origins, alive);
    IndexSize(infos, IdOf);
    forall c: nat, id | c < |cluster| && id in cluster[c].state.table
      ensures var k := MakeFullId(cluster[c].name, ToString(id));
              k in Index(infos, IdOf) && Shows(Index(infos, IdOf)[k], k, cluster[c].state.table[id], alive[c])
    {
      FullInfoShows(cluster, c, id, alive);
      assert (c, id) in origins;
      var i :| 0 <= i < |origins| && origins[i] == (c, id);
      FullInfoPrintable(cluster, c, id, alive);
      LastOfDistinct(infos, IdOf, i);
    }
  }

  lemma {:induction false} LastOfDistinct<R>(rs: seq<R>, key: R -> string, i: nat)
    requires i < |rs| && DistinctKeys(rs, key)
    ensures key(rs[i]) in Index(rs, key) && Index(rs, key)[key(rs[i])] == rs[i]
  {
    forall j | i < j < |rs| ensures key(rs[j]) != key(rs[i]) {}
    IndexLast(rs, key, i);
  }

  /** And every key of that map is the full id of some instance. */
  lemma {:induction false} AggregationOrigin(
    cluster: seq<Node>, maps: seq<map<string, InstanceInfo>>, orders: seq<seq<string>>, alive: seq<set<int>>, k: string)
    returns (c: nat, id: int)
    requires ClusterOk(cluster) && Listings(cluster, maps, orders, alive)
    requires k in Index(Gathered(cluster, maps, orders, |cluster|), IdOf)
    ensures c < |cluster| && id in cluster[c].state.table && k == MakeFullId(cluster[c].name, ToString(id))
  {
    hide ToString, IsListing, Enumerates, Gathered, FullInfo, Index, MakeFullId, ClusterOk, DistinctKeys;
    var origins := GatheredIsAll(cluster, maps, orders, |cluster|, alive);
    var infos := Gathered(cluster, maps, orders, |cluster|);
    IndexKeys(infos, IdOf, k);
    var i :| 0 <= i < |infos| && IdOf(infos[i]) == k;
    c, id := origins[i].0, origins[i].1;
    FullInfoPrintable(cluster, c, id, alive);
  }

  /**
   The client gets to see that map: the manager's answer is one frame exactly when there is an instance anywhere or
   nothing was written to this client before, and then it parses back to the gathered records.
   */
  lemma {:induction false} AggregationArrives(
    cluster: seq<Node>, maps: seq<map<string, InstanceInfo>>, orders: seq<seq<string>>, alive: seq<set<int>>,
    writeCount: int, rest: string)
    requires ClusterOk(cluster) && Listings(cluster, maps, orders, alive)
    ensures var infos := Gathered(cluster, maps, orders, |cluster|);
            IsOneFrame(ReplyBytes(writeCount, SerializeInstances(infos))) <==>
                TotalInstances(cluster) > 0 || writeCount == 0
    ensures var infos := Gathered(cluster, maps, orders, |cluster|);
            var bytes := ReplyBytes(writeCount, SerializeInstances(infos)) + rest;
            TotalInstances(cluster) > 0 ==>
              HasFrame(bytes) && AfterFrame(bytes) == rest && |FrameLines(bytes)| % INSTANCE_SIZE == 0
              && ParseInstances(FrameLines(bytes)) == Some(infos)
  {
    hide ToString, IsListing, Enumerates, Gathered, ParseInstances, SerializeInstances, FullInfo, ReplyBytes,
      MakeFullId, ClusterOk, DistinctKeys;
    var origins := GatheredIsAll(cluster, maps, orders, |cluster|, alive);
    var infos := Gathered(cluster, maps, orders, |cluster|);
    assert cluster[..|cluster|] == cluster;
    InfosAreDistinct(cluster, infos, origins, alive);
    FrameOfInfos(infos, writeCount, rest);
  }

  lemma {:induction false} FrameOfInfos(infos: seq<InstanceInfo>, writeCount: int, rest: string)
    requires forall i :: 0 <= i < |infos| ==> infos[i].Printable()
    ensures IsOneFrame(ReplyBytes(writeCount, SerializeInstances(infos))) <==> infos != [] || writeCount == 0
    ensures var bytes := ReplyBytes(writeCount, SerializeInstances(infos)) + rest;
            infos != [] ==>
              HasFrame(bytes) && AfterFrame(bytes) == rest && |FrameLines(bytes)| % INSTANCE_SIZE == 0
              && ParseInstances(FrameLines(bytes)) == Some(infos)
  {
    hide ToString, ParseInstances, SerializeInstances, ReplyBytes, Encode, InstanceInfo.Printable;
    InstanceLines(infos);
    InstancesRoundTrip(infos);
    var lines := SerializeInstances(infos);
    if infos == [] {
      BareSend(writeCount);
    } else {
      PrintableIsOneFrame(lines);
      ReplyIsEncode(writeCount, lines);
      MessageIsFrame(lines);
      FrameOfMessage(lines, rest);
    }
  }

  // ----- templates -----

  lemma {:induction false} IndexConcat<R>(a: seq<R>, b: seq<R>, key: R -> string)
    ensures Index(a + b, key) == Index(a, key) + Index(b, key)
    decreases |b|
  {
    if b == [] {
      assert a + b == a;
    } else {
      var n := |b| - 1;
      IndexConcat(a, b[..n], key);
      assert (a + b)[..|a + b| - 1] == a + b[..n];
    }
  }

  /** The client's map of templates is the union of the controllers' maps, the later controller winning. */
  lemma {:induction false} TemplatesUnion(cluster: seq<Node>, orders: seq<seq<string>>, n: nat)
    requires n <= |cluster| == |orders| && forall c :: 0 <= c < |cluster| ==> Servable(cluster[c].state)
    requires forall c :: 0 <= c < |cluster| ==> Enumerates(orders[c], cluster[c].state.templates.Keys)
    ensures Index(GatheredTemplates(cluster, orders, n), NameOf) == AllTemplates(cluster[..n])
    decreases n
  {
    hide Index, Enumerates, Servable;
    if n == 0 {
      assert Index(GatheredTemplates(cluster, orders, 0), NameOf) == map[] by { EmptyIndex(NameOf); }
    } else {
      var s := cluster[n - 1].state;
      TemplatesUnion(cluster, orders, n - 1);
      EnumeratesElements(orders[n - 1], s.templates.Keys);
      ServableNames(s);
      IndexIsTemplates(s.templates, orders[n - 1]);
      IndexConcat(GatheredTemplates(cluster, orders, n - 1), TemplatesIn(s.templates, orders[n - 1]), NameOf);
      assert cluster[..n][..n - 1] == cluster[..n - 1];
    }
  }

  lemma {:induction false} EmptyIndex<R>(key: R -> string)
    ensures Index([], key) == map[]
  {
  }
}
