/** The constructor's directory scan: what it restores, and that the order of the names does not matter. */
module ScanTheorems {
  import opened Decimal
  import opened ControllerModel
  import opened ControllerTheorems

  /** The ids that the names of a listing parse to. */
  function Named(names: seq<string>): set<int> {
    if names == [] then {}
    else
      var n := |names| - 1;
      Named(names[..n]) + (match Stoi(names[n]) case Number(id) => {id} case _ => {})
  }

  lemma {:induction false} NamedHas(names: seq<string>, id: int)
    ensures id in Named(names) <==> exists i :: 0 <= i < |names| && Stoi(names[i]) == Number(id)
  {
    hide Stoi;
    if names != [] {
      var n := |names| - 1;
      NamedHas(names[..n], id);
      assert forall i :: 0 <= i < n ==> names[..n][i] == names[i];
    }
  }

  /** The entry restored for `id` when the scan began on the disk of `s0` with the ports `busy` taken. */
  ghost predicate RestoredFrom(s0: State, id: int, e: Entry, busy: set<int>, ports: seq<int>)
    requires Restorable(s0, id)
  {
    var m := Load(s0.dirs[id]).value;
    && e == Entry(id, m.memory, m.cpus, e.sshPort, s0.templates[m.templ], e.sshPort, 0)
    && e.sshPort !in busy
    && (m.sshPort !in busy ==> e.sshPort == m.sshPort)
    && (m.sshPort in busy ==> e.sshPort in ports)
  }

  ghost predicate Reassigned(s0: State, id: int, busy: set<int>)
    requires Restorable(s0, id)
  {
    Load(s0.dirs[id]).value.sshPort in busy
  }

  /** The disk after scanning names that parse to the ids of `seen`: replaced ports, and nothing else. */
  ghost predicate ScannedDisk(s0: State, r: Scanning, seen: set<int>, busy: set<int>) {
    var s := r.state;
    && s.templates == s0.templates && s.nextId == s0.nextId
    && SameButPort(s0.dirs, s.dirs) && s.dirs == Final(s0.dirs, r.writes)
    && (forall w :: w in r.writes ==> SameButPort(s0.dirs, w))
    && IssuedBetween(r.ports, s0.nextPort, s.nextPort)
    && (forall id :: id in s0.dirs && id !in seen ==> s.dirs[id] == s0.dirs[id])
    && (forall id :: id in s0.dirs && Restorable(s0, id) && !Reassigned(s0, id, busy) ==> s.dirs[id] == s0.dirs[id])
  }

  /** The table after scanning them: the restorable ids, each with its recorded fields. */
  ghost predicate ScannedTable(s0: State, r: Scanning, seen: set<int>, busy: set<int>) {
    var s := r.state;
    && s.table.Keys == (set id | id in seen && Restorable(s0, id))
    && (forall id :: id in s.table ==> RestoredFrom(s0, id, s.table[id], busy, r.ports))
    && (forall i, j :: i in s.table && j in s.table && i != j && Reassigned(s0, i, busy) && Reassigned(s0, j, busy)
          ==> s.table[i].sshPort != s.table[j].sshPort)
    && (Int32(s0.nextPort) && Int32(s.nextPort) ==> Agreement(s))
  }

  ghost predicate Scanned(s0: State, r: Scanning, seen: set<int>, busy: set<int>) {
    ScannedDisk(s0, r, seen, busy) && ScannedTable(s0, r, seen, busy)
  }

  lemma {:induction false} SameButPortTrans(a: Dirs, b: Dirs, c: Dirs)
    requires SameButPort(a, b) && SameButPort(b, c)
    ensures SameButPort(a, c)
  {
    forall id | id in a ensures SameDirButPort(a[id], c[id]) {
      assert SameDirButPort(a[id], b[id]) && SameDirButPort(b[id], c[id]);
    }
  }

  lemma {:induction false} RestorableSameButPort(s0: State, s: State, id: int)
    requires SameButPort(s0.dirs, s.dirs) && s.templates == s0.templates
    ensures Restorable(s0, id) <==> Restorable(s, id)
    ensures Restorable(s, id) ==>
              Load(s.dirs[id]).value == Load(s0.dirs[id]).value.(sshPort := Load(s.dirs[id]).value.sshPort)
  {
    hide Load;
    if id in s0.dirs {
      assert SameDirButPort(s0.dirs[id], s.dirs[id]);
      LoadSameButPort(s0.dirs[id], s.dirs[id]);
    }
  }

  function Restored(before: Scanning, id: int, busy: set<int>): Scanning {
    var r := Restore(before.state, id, busy);
    AndThen(before, Scanning(r.state, true, r.writes, r.ports))
  }

  lemma {:induction false} ScanOneMoreDisk(s0: State, before: Scanning, seen: set<int>, id: int, busy: set<int>)
    requires TemplatesNamed(s0.templates) && Scanned(s0, before, seen, busy)
    ensures ScannedDisk(s0, Restored(before, id, busy), seen + {id}, busy)
  {
    hide Load, Restore, SameDirButPort;
    var b := before.state;
    var r := Restore(b, id, busy);
    var s := r.state;
    RestoreFacts(b, id, busy);
    SameButPortTrans(s0.dirs, b.dirs, s.dirs);
    IssuedConcat(before.ports, r.ports, s0.nextPort, b.nextPort, s.nextPort);
    RestorableSameButPort(s0, b, id);
    forall w | w in before.writes + r.writes ensures SameButPort(s0.dirs, w) {
      if w in r.writes { assert w == s.dirs; }
    }
    forall j | j in s0.dirs && Restorable(s0, j) && !Reassigned(s0, j, busy) ensures s.dirs[j] == s0.dirs[j] {
      assert b.dirs[j] == s0.dirs[j];
    }
  }

  lemma {:induction false} ScanOneMoreTable(s0: State, before: Scanning, seen: set<int>, id: int, busy: set<int>)
    requires TemplatesNamed(s0.templates) && Scanned(s0, before, seen, busy)
    ensures ScannedTable(s0, Restored(before, id, busy), seen + {id}, busy)
  {
    hide Load, Restore, SameButPort, Matches;
    var b := before.state;
    var r := Restore(b, id, busy);
    var s := r.state;
    var ports := before.ports + r.ports;
    RestoreFacts(b, id, busy);
    RestorableSameButPort(s0, b, id);
    assert s.table.Keys == (set j | j in seen + {id} && Restorable(s0, j));
    assert id in s.table && id !in b.table ==> id !in seen && b.dirs[id] == s0.dirs[id];
    forall j | j in s.table ensures RestoredFrom(s0, j, s.table[j], busy, ports) {
      assert j in b.table ==> RestoredFrom(s0, j, b.table[j], busy, before.ports);
    }
    forall i, j | i in s.table && j in s.table && i != j && Reassigned(s0, i, busy) && Reassigned(s0, j, busy)
      ensures s.table[i].sshPort != s.table[j].sshPort
    {
      assert i in b.table ==> b.table[i].sshPort in before.ports;
      assert j in b.table ==> b.table[j].sshPort in before.ports;
    }
    if Int32(s0.nextPort) && Int32(s.nextPort) {
      RestoreKeepsAgreement(b, id, busy);
    }
  }

  /** One more name keeps the scan invariant. */
  lemma {:induction false} ScanOneMore(s0: State, before: Scanning, seen: set<int>, id: int, busy: set<int>)
    requires TemplatesNamed(s0.templates) && Scanned(s0, before, seen, busy)
    ensures Scanned(s0, Restored(before, id, busy), seen + {id}, busy)
  {
    ScanOneMoreDisk(s0, before, seen, id, busy);
    ScanOneMoreTable(s0, before, seen, id, busy);
  }

  lemma {:induction false} ScanFacts(s0: State, names: seq<string>, busy: set<int>)
    requires TemplatesNamed(s0.templates) && s0.table == map[]
    ensures Scan(s0, names, busy).finished ==> Scanned(s0, Scan(s0, names, busy), Named(names), busy)
    ensures exists seen :: seen <= Named(names) && Scanned(s0, Scan(s0, names, busy), seen, busy)
    ensures Scan(s0, names, busy).finished <==> forall i :: 0 <= i < |names| ==> Stoi(names[i]) != OutOfRange
  {
    hide Load, Restore, Stoi, Scanned;
    var sc := Scan(s0, names, busy);
    if names == [] {
      assert Scanned(s0, sc, {}, busy) by { NothingScanned(s0, busy); }
    } else {
      var n := |names| - 1;
      ScanFacts(s0, names[..n], busy);
      assert forall i :: 0 <= i < n ==> names[..n][i] == names[i];
      var before := Scan(s0, names[..n], busy);
      if before.finished {
        match Stoi(names[n])
        case NoConversion =>
          assert Named(names) == Named(names[..n]) && sc == before;
        case OutOfRange =>
          assert sc == before.(finished := false);
           FinishedIrrelevant(s0, before, Named(names[..n]), busy);
        case Number(id) =>
          ScanOneMore(s0, before, Named(names[..n]), id, busy);
      }
    }
  }

  lemma {:induction false} NothingScanned(s0: State, busy: set<int>)
    requires s0.table == map[]
    ensures Scanned(s0, Scanning(s0, true, [], []), {}, busy)
  {
    var seen: set<int> := {};
    assert s0.table.Keys == (set id | id in seen && Restorable(s0, id));
    forall id | id in s0.dirs ensures SameDirButPort(s0.dirs[id], s0.dirs[id]) {}
  }

  lemma {:induction false} FinishedIrrelevant(s0: State, r: Scanning, seen: set<int>, busy: set<int>)
    requires Scanned(s0, r, seen, busy)
    ensures Scanned(s0, r.(finished := false), seen, busy)
  {
  }

  // ----- the ports issued -----

  /** The next `n` ports to issue after `port`. */
  function PortChain(port: int, busy: set<int>, n: nat): (ports: seq<int>)
    ensures |ports| == n
  {
    if n == 0 then []
    else
      var before := PortChain(port, busy, n - 1);
      before + [LeastFree((if before == [] then port else before[n - 2]) + 1, busy)]
  }

  /** The directories with all cookies that record a taken port: each of them gets a new one when it is looked at. */
  function Claimants(dirs: Dirs, seen: set<int>, busy: set<int>): set<int> {
    set id | id in seen && id in dirs && Load(dirs[id]).Some? && Load(dirs[id]).value.sshPort in busy
  }

  /** One port was issued for every claimant seen. */
  ghost predicate PortsMet(s0: State, r: Scanning, seen: set<int>, busy: set<int>) {
    && r.ports == PortChain(s0.nextPort, busy, |Claimants(s0.dirs, seen, busy)|)
    && r.state.nextPort == (if r.ports == [] then s0.nextPort else r.ports[|r.ports| - 1])
  }

  /** No directory seen records a taken port any more, and those not seen are as they were. */
  ghost predicate CookiesMet(s0: State, r: Scanning, seen: set<int>, busy: set<int>) {
    && r.state.dirs.Keys == s0.dirs.Keys && r.state.table.Keys <= seen
    && (forall id :: id in seen && id in r.state.dirs && Load(r.state.dirs[id]).Some? ==>
          Load(r.state.dirs[id]).value.sshPort !in busy)
    && (forall id :: id in s0.dirs && id !in seen ==> r.state.dirs[id] == s0.dirs[id])
  }

  ghost predicate ClaimsMet(s0: State, r: Scanning, seen: set<int>, busy: set<int>) {
    PortsMet(s0, r, seen, busy) && CookiesMet(s0, r, seen, busy)
  }

  /** `restore` claims a port for a directory with all cookies, whether or not its template is known. */
  lemma {:induction false} RestoreClaims(s: State, id: int, busy: set<int>)
    ensures var r := Restore(s, id, busy);
            if id in s.dirs && id !in s.table && Load(s.dirs[id]).Some? then
              var (s1, _, _, ports) := ClaimPort(s, id, Load(s.dirs[id]).value.sshPort, busy);
              r.ports == ports && r.state.nextPort == s1.nextPort && r.state.dirs == s1.dirs
            else r.ports == [] && r.state == s
    ensures Restore(s, id, busy).state.table.Keys <= s.table.Keys + {id}
  {
    hide Load, LeastFree, ToString;
  }

  /** What the scan does with one more directory that has a taken port, or with anything else. */
  ghost predicate Claims(s: State, id: int, busy: set<int>) {
    id in s.dirs && id !in s.table && Load(s.dirs[id]).Some? && Load(s.dirs[id]).value.sshPort in busy
  }

  lemma {:induction false} ClaimantsOneMore(s0: State, before: Scanning, seen: set<int>, id: int, busy: set<int>)
    requires CookiesMet(s0, before, seen, busy)
    ensures var had, has := Claimants(s0.dirs, seen, busy), Claimants(s0.dirs, seen + {id}, busy);
            if Claims(before.state, id, busy) then |has| == |had| + 1 else has == had
  {
    hide Load;
    var had, has := Claimants(s0.dirs, seen, busy), Claimants(s0.dirs, seen + {id}, busy);
    if Claims(before.state, id, busy) {
      assert id !in seen;
      assert has == had + {id};
    } else if id !in seen {
      assert has == had;
    } else {
      assert seen + {id} == seen;
    }
  }

  lemma {:induction false} OneMoreCookie(s0: State, before: Scanning, seen: set<int>, id: int, busy: set<int>)
    requires CookiesMet(s0, before, seen, busy)
    requires Int32(before.state.nextPort) && Int32(Restored(before, id, busy).state.nextPort)
    ensures CookiesMet(s0, Restored(before, id, busy), seen + {id}, busy)
  {
    hide Load, Restore, ClaimPort, LeastFree;
    var b := before.state;
    RestoreClaims(b, id, busy);
    if id in b.dirs && id !in b.table && Load(b.dirs[id]).Some? { ClaimPortFacts(b, id, busy); }
  }

  lemma {:induction false} OneMoreClaim(s0: State, before: Scanning, seen: set<int>, id: int, busy: set<int>)
    requires ClaimsMet(s0, before, seen, busy)
    requires Int32(before.state.nextPort) && Int32(Restored(before, id, busy).state.nextPort)
    ensures ClaimsMet(s0, Restored(before, id, busy), seen + {id}, busy)
  {
    hide Load, Restore, ClaimPort, LeastFree, PortChain, CookiesMet, Claimants;
    var b := before.state;
    OneMoreCookie(s0, before, seen, id, busy);
    ClaimantsOneMore(s0, before, seen, id, busy);
    RestoreClaims(b, id, busy);
    if Claims(b, id, busy) {
      ChainOneMore(s0.nextPort, busy, |Claimants(s0.dirs, seen, busy)|);
      ClaimIsNext(b, id, busy);
    } else {
      NoClaim(b, id, busy);
      assert before.ports + [] == before.ports;
    }
  }

  lemma {:induction false} NoClaim(s: State, id: int, busy: set<int>)
    requires !Claims(s, id, busy)
    ensures Restore(s, id, busy).ports == [] && Restore(s, id, busy).state.nextPort == s.nextPort
  {
    hide Load, LeastFree, ToString;
  }

  lemma {:induction false} ClaimIsNext(s: State, id: int, busy: set<int>)
    requires id in s.dirs && Load(s.dirs[id]).Some? && Load(s.dirs[id]).value.sshPort in busy
    ensures var p := LeastFree(s.nextPort + 1, busy);
            var r := ClaimPort(s, id, Load(s.dirs[id]).value.sshPort, busy); r.3 == [p] && r.0.nextPort == p
  {
    hide Load, LeastFree, ToString;
  }

  lemma {:induction false} ChainOneMore(port: int, busy: set<int>, n: nat)
    ensures var before := PortChain(port, busy, n);
            PortChain(port, busy, n + 1) == before + [LeastFree((if before == [] then port else before[n - 1]) + 1,
                busy)]
  {
    hide LeastFree;
  }

  lemma {:induction false} ScanClaims(s0: State, names: seq<string>, busy: set<int>)
    requires TemplatesNamed(s0.templates) && s0.table == map[] && Scan(s0, names, busy).finished
    requires Int32(s0.nextPort) && Int32(Scan(s0, names, busy).state.nextPort)
    ensures ClaimsMet(s0, Scan(s0, names, busy), Named(names), busy)
  {
    hide Load, Restore, Stoi, ClaimsMet, LeastFree;
    if names == [] {
      NothingClaimed(s0, busy);
    } else {
      var n := |names| - 1;
      var before := Scan(s0, names[..n], busy);
      NextPortGrows(before.state, names[n], busy);
      ScanNextPort(s0, names[..n], busy);
      ScanClaims(s0, names[..n], busy);
      match Stoi(names[n])
      case Number(id) => OneMoreClaim(s0, before, Named(names[..n]), id, busy);
      case NoConversion => assert Named(names) == Named(names[..n]) && Scan(s0, names, busy) == before;
      case OutOfRange =>
    }
  }

  lemma {:induction false} NothingClaimed(s0: State, busy: set<int>)
    requires s0.table == map[]
    ensures ClaimsMet(s0, Scanning(s0, true, [], []), {}, busy)
  {
    hide Load;
    var seen: set<int> := {};
    assert Claimants(s0.dirs, seen, busy) == {};
  }

  lemma {:induction false} NextPortGrows(s: State, name: string, busy: set<int>)
    ensures ScanName(s, name, busy).state.nextPort >= s.nextPort
  {
    hide Load, Stoi, ToString;
  }

  lemma {:induction false} ScanNextPort(s0: State, names: seq<string>, busy: set<int>)
    ensures Scan(s0, names, busy).state.nextPort >= s0.nextPort
  {
    hide ScanName;
    if names != [] {
      var n := |names| - 1;
      ScanNextPort(s0, names[..n], busy);
      NextPortGrows(Scan(s0, names[..n], busy).state, names[n], busy);
    }
  }

  /** `readdir` over the working directory: every instance directory is there; other names may be too. */
  ghost predicate Lists(names: seq<string>, dirs: Dirs) {
    forall id :: id in dirs ==> ToString(id) in names
  }

  predicate AllInt32(ids: set<int>) { forall id :: id in ids ==> Int32(id) }

  /**
   Two listings of the same disk, in any order and with any other names between, restore the same instances,
   equal in every field but the ports that had to be replaced, and leave the same cookies but for those ports. The
   ports issued, and so `nextPort`, are the same too; the order only decides which instance gets which of them.
   */
  lemma {:induction false} ScanOrderIndependence(s0: State, names1: seq<string>, names2: seq<string>, busy: set<int>)
    requires TemplatesNamed(s0.templates) && s0.table == map[]
    requires Lists(names1, s0.dirs) && Lists(names2, s0.dirs)
    requires Scan(s0, names1, busy).finished && Scan(s0, names2, busy).finished
    ensures var a, b := Scan(s0, names1, busy).state, Scan(s0, names2, busy).state;
            && a.table.Keys == b.table.Keys == (set id | id in s0.dirs && Restorable(s0, id))
            && a.dirs.Keys == b.dirs.Keys == s0.dirs.Keys && SameButPort(a.dirs, b.dirs)
            && (forall id :: id in a.table ==>
                  a.table[id] == b.table[id].(sshPort := a.table[id].sshPort, optPort := a.table[id].optPort))
            && (forall id :: id in s0.dirs && Restorable(s0, id) && !Reassigned(s0, id, busy) ==>
                  a.table[id] == b.table[id] && a.dirs[id] == b.dirs[id] == s0.dirs[id])
    ensures var a, b := Scan(s0, names1, busy), Scan(s0, names2, busy);
            Int32(s0.nextPort) && Int32(a.state.nextPort) && Int32(b.state.nextPort) ==>
              a.ports == b.ports && a.state.nextPort == b.state.nextPort
  {
    hide Load, Stoi, Scan, PortChain;
    ScanFacts(s0, names1, busy);
    ScanFacts(s0, names2, busy);
    ListedInRange(s0, names1, busy);
    SamePorts(s0, names1, names2, busy);
    var a, b := Scan(s0, names1, busy).state, Scan(s0, names2, busy).state;
    ListsNamesAll(names1, s0.dirs);
    ListsNamesAll(names2, s0.dirs);
    assert a.table.Keys == (set id | id in s0.dirs && Restorable(s0, id));
    forall id | id in s0.dirs ensures SameDirButPort(a.dirs[id], b.dirs[id]) {
      assert SameDirButPort(s0.dirs[id], a.dirs[id]) && SameDirButPort(s0.dirs[id], b.dirs[id]);
    }
  }

  lemma {:induction false} ListsNamesAll(names: seq<string>, dirs: Dirs)
    requires Lists(names, dirs) && AllInt32(dirs.Keys)
    ensures dirs.Keys <= Named(names)
  {
    hide Stoi, ToString;
    forall id | id in dirs ensures id in Named(names) {
      DecimalRoundTrip(id);
      var i :| 0 <= i < |names| && names[i] == ToString(id);
      NamedHas(names, id);
    }
  }

  /** A listed directory whose number is out of range would have ended the scan. */
  lemma {:induction false} ListedInRange(s0: State, names: seq<string>, busy: set<int>)
    requires TemplatesNamed(s0.templates) && s0.table == map[] && Lists(names, s0.dirs)
             && Scan(s0, names, busy).finished
    ensures AllInt32(s0.dirs.Keys)
  {
    hide Stoi, ToString, Scan, Scanned;
    ScanFacts(s0, names, busy);
    forall id | id in s0.dirs ensures Int32(id) {
      var i :| 0 <= i < |names| && names[i] == ToString(id);
      StoiOfToString(id, "");
      assert ToString(id) + "" == ToString(id);
    }
  }

  lemma {:induction false} SamePorts(s0: State, names1: seq<string>, names2: seq<string>, busy: set<int>)
    requires TemplatesNamed(s0.templates) && s0.table == map[] && AllInt32(s0.dirs.Keys)
    requires Lists(names1, s0.dirs) && Lists(names2, s0.dirs)
    requires Scan(s0, names1, busy).finished && Scan(s0, names2, busy).finished
    ensures var a, b := Scan(s0, names1, busy), Scan(s0, names2, busy);
            Int32(s0.nextPort) && Int32(a.state.nextPort) && Int32(b.state.nextPort) ==>
              a.ports == b.ports && a.state.nextPort == b.state.nextPort
  {
    hide Load, Stoi, Scan, PortChain;
    var a, b := Scan(s0, names1, busy), Scan(s0, names2, busy);
    if Int32(s0.nextPort) && Int32(a.state.nextPort) && Int32(b.state.nextPort) {
      ScanClaims(s0, names1, busy);
      ScanClaims(s0, names2, busy);
      ListsNamesAll(names1, s0.dirs);
      ListsNamesAll(names2, s0.dirs);
      assert Claimants(s0.dirs, Named(names1), busy) == Claimants(s0.dirs, Named(names2), busy);
    }
  }
}
