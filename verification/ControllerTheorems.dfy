/** What single operations of the controller keep: cookies, table, ports, and the directory scan as a whole. */
module ControllerTheorems {
  import opened Wrappers
  import opened Decimal
  import opened Framing
  import opened Records
  import opened ControllerModel

  // ----- cookies -----

  lemma {:induction false} LoadAfterSsh(d: Dir, port: int)
    requires Load(d).Some?
    ensures Load(d[SshCookie := ToString(port)]) == Some(Load(d).value.(sshPort := ExtractInt(ToString(port))))
  {
  }

  lemma {:induction false} LoadAfterPid(d: Dir, text: string)
    requires Load(d).Some?
    ensures Load(d[PidCookie := text]) == Load(d)
  {
  }

  /** The part of a file before its first newline, or all of it. */
  predicate IsFirstLine(line: string, text: string) {
    '\n' !in line && line <= text && (|line| < |text| ==> text[|line|] == '\n')
  }

  /** A directory can be restored from exactly if all five files are there; only the first line names the template. */
  lemma {:induction false} LoadFacts(d: Dir)
    ensures Load(d).Some? <==>
            TemplateCookie in d && MemoryCookie in d && CpusCookie in d && SshCookie in d && PidCookie in d
    ensures Load(d).Some? ==>
              var m := Load(d).value;
              && IsFirstLine(m.templ, d[TemplateCookie]) && m.memory == ExtractInt(d[MemoryCookie])
              && m.cpus == ExtractInt(d[CpusCookie]) && m.sshPort == ExtractInt(d[SshCookie])
  {
    hide ExtractInt;
    if TemplateCookie in d {
      var text := d[TemplateCookie];
      assert text[0..LineEnd(text, 0)] == text[..LineEnd(text, 0)];
    }
  }

  /** Writing a cookie makes no directory, changes that file alone, and text without newline is read back. */
  lemma {:induction false} WriteFacts(dirs: Dirs, id: int, cookie: Cookie, text: string)
    ensures var after := WriteCookie(dirs, id, cookie, text);
            && after.Keys == dirs.Keys && (forall j :: j in dirs && j != id ==> after[j] == dirs[j])
            && (id in dirs ==>
                  && (forall c :: c in dirs[id] && c != cookie ==> c in after[id] && after[id][c] == dirs[id][c])
                  && after[id].Keys == dirs[id].Keys + {cookie}
                  && ReadInt(after[id], cookie) == Some(ExtractInt(text))
                  && ('\n' !in text ==> ReadText(after[id], cookie) == Some(text)))
  {
    hide ExtractInt;
    if '\n' !in text {
      CleanLine(text, 0);
      assert text[..|text|] == text;
    }
  }

  /** A line without newline is its own first line. */
  lemma {:induction false} CleanLine(t: string, from: nat)
    requires from <= |t| && '\n' !in t
    ensures LineEnd(t, from) == |t|
    decreases |t| - from
  {
    if from < |t| { CleanLine(t, from + 1); }
  }

  // ----- states -----

  ghost predicate TemplatesNamed(templates: map<string, Template>) {
    forall n :: n in templates ==> templates[n].name == n && Clean(n)
  }

  /** The entry under `id` is what its cookies say. */
  ghost predicate Matches(s: State, id: int)
    requires id in s.table
  {
    var e := s.table[id];
    && id in s.dirs
    && e.id == id
    && e.templ.name in s.templates && s.templates[e.templ.name] == e.templ
    && Load(s.dirs[id]) == Some(Metadata(e.templ.name, e.memory, e.cpus, e.sshPort))
  }

  /** Disk and table agree. */
  ghost predicate Agreement(s: State) {
    forall id :: id in s.table ==> Matches(s, id)
  }

  /** The disks differ in `.ssh` cookies at most. */
  ghost predicate SameButPort(a: Dirs, b: Dirs) {
    && a.Keys == b.Keys
    && forall id :: id in a ==> SameDirButPort(a[id], b[id])
  }

  ghost predicate SameDirButPort(a: Dir, b: Dir) {
    a.Keys == b.Keys && forall c :: c in a && c != SshCookie ==> a[c] == b[c]
  }

  lemma {:induction false} LoadSameButPort(a: Dir, b: Dir)
    requires SameDirButPort(a, b)
    ensures Load(a).Some? <==> Load(b).Some?
    ensures Load(a).Some? ==> Load(b).value == Load(a).value.(sshPort := Load(b).value.sshPort)
  {
  }

  predicate Increasing(s: seq<int>) {
    forall i, j :: 0 <= i < j < |s| ==> s[i] < s[j]
  }

  /** Ports issued while `nextPort` went from `low` to `high`, which is always the last one issued. */
  ghost predicate IssuedBetween(ports: seq<int>, low: int, high: int) {
    && low <= high && Increasing(ports)
    && (forall p :: p in ports ==> low < p <= high)
    && high == (if ports == [] then low else ports[|ports| - 1])
  }

  lemma {:induction false} IssuedConcat(a: seq<int>, b: seq<int>, low: int, mid: int, high: int)
    requires IssuedBetween(a, low, mid) && IssuedBetween(b, mid, high)
    ensures IssuedBetween(a + b, low, high)
  {
    forall i, j | 0 <= i < j < |a + b| ensures (a + b)[i] < (a + b)[j] {
      if i < |a| <= j {
        assert a[i] in a && b[j - |a|] in b;
      }
    }
    assert b == [] ==> a + b == a;
  }

  /** The last disk of a list of writes, or the one before them. */
  function Final(dirs: Dirs, writes: seq<Dirs>): Dirs {
    if writes == [] then dirs else writes[|writes| - 1]
  }

  // ----- ports -----

  /**
   A port is replaced exactly when it is taken. The new one is the least free port above all ports issued
   before, the cookie records it, and nothing else on the disk changes.
   */
  lemma {:induction false} ClaimPortFacts(s: State, id: int, busy: set<int>)
    requires id in s.dirs && Load(s.dirs[id]).Some?
    ensures var m := Load(s.dirs[id]).value;
            var (s1, port, writes, ports) := ClaimPort(s, id, m.sshPort, busy);
            && s1 == s.(nextPort := s1.nextPort, dirs := s1.dirs)
            && SameButPort(s.dirs, s1.dirs) && s1.dirs == Final(s.dirs, writes) && |writes| == |ports| <= 1
            && (forall j :: j in s.dirs && j != id ==> s1.dirs[j] == s.dirs[j])
            && IssuedBetween(ports, s.nextPort, s1.nextPort)
            && port !in busy
            && (m.sshPort !in busy ==> port == m.sshPort && s1 == s && ports == [])
            && (m.sshPort in busy ==> ports == [port] && s1.nextPort == port && port > s.nextPort
                                      && forall q :: s.nextPort < q < port ==> q in busy)
            && Load(s1.dirs[id]).Some?
            && (Int32(s.nextPort) && Int32(s1.nextPort) ==> Load(s1.dirs[id]).value == m.(sshPort := port))
  {
    hide LeastFree, ToString, ExtractInt;
    var m := Load(s.dirs[id]).value;
    var (s1, port, writes, ports) := ClaimPort(s, id, m.sshPort, busy);
    if m.sshPort in busy {
      LoadAfterSsh(s.dirs[id], port);
      DecimalRoundTrip(port);
      assert SshCookie in s.dirs[id];
      forall j | j in s.dirs ensures SameDirButPort(s.dirs[j], s1.dirs[j]) {}
      assert s1.dirs.Keys == s.dirs.Keys;
    }
  }

  // ----- restore -----

  ghost predicate Restorable(s: State, id: int) {
    id in s.dirs && Load(s.dirs[id]).Some? && Load(s.dirs[id]).value.templ in s.templates
  }

  /** `restore` adds an entry exactly for a restorable directory that has none, and writes at most its `.ssh`. */
  lemma {:induction false} RestoreFacts(s: State, id: int, busy: set<int>)
    requires TemplatesNamed(s.templates)
    ensures var r := Restore(s, id, busy);
            && r.state.templates == s.templates && r.state.nextId == s.nextId
            && SameButPort(s.dirs, r.state.dirs) && r.state.dirs == Final(s.dirs, r.writes) && |r.writes| <= 1
            && (forall j :: j in s.dirs && j != id ==> r.state.dirs[j] == s.dirs[j])
            && IssuedBetween(r.ports, s.nextPort, r.state.nextPort)
            && (id in r.state.table <==> id in s.table || Restorable(s, id))
            && r.state.table == (if Restorable(s, id) && id !in s.table then s.table[id := r.state.table[id]]
               else s.table)
            && (r.outcome == Restored <==> id in s.dirs && (id in s.table || Restorable(s, id)))
            && (r.outcome == NoDirectory <==> id !in s.dirs)
            && (r.outcome == Corrupted <==> id in s.dirs && id !in s.table && Load(s.dirs[id]).None?)
            && (r.outcome == NoDirectory || r.outcome == Corrupted || id in s.table ==>
                  r.state == s && r.writes == [] && r.ports == [])
            && (id in s.dirs && id !in s.table && Load(s.dirs[id]).Some? ==>
                  var busyPort := Load(s.dirs[id]).value.sshPort in busy;
                  && |r.writes| == |r.ports| == (if busyPort then 1 else 0)
                  && (busyPort ==> r.ports == [r.state.nextPort] && s.nextPort < r.state.nextPort
                                   && r.state.nextPort !in busy
                                   && forall q :: s.nextPort < q < r.state.nextPort ==> q in busy)
                  && (!busyPort ==> r.state.dirs == s.dirs && r.state.nextPort == s.nextPort))
            && (Restorable(s, id) && id !in s.table ==>
                  var m := Load(s.dirs[id]).value;
                  var e := r.state.table[id];
                  && e == Entry(id, m.memory, m.cpus, e.sshPort, s.templates[m.templ], e.sshPort, 0)
                  && e.sshPort !in busy
                  && (m.sshPort !in busy ==> e.sshPort == m.sshPort && r.state.dirs == s.dirs && r.ports == [])
                  && (m.sshPort in busy ==> r.ports == [e.sshPort] && r.state.nextPort == e.sshPort > s.nextPort)
                  && (Int32(s.nextPort) && Int32(r.state.nextPort) ==> Matches(r.state, id)))
  {
    hide LeastFree, ToString, ExtractInt, Load;
    if id in s.dirs && id !in s.table && Load(s.dirs[id]).Some? {
      ClaimPortFacts(s, id, busy);
    }
  }

  lemma {:induction false} RestoreKeepsAgreement(s: State, id: int, busy: set<int>)
    requires TemplatesNamed(s.templates) && Agreement(s)
    requires Int32(s.nextPort) && Int32(Restore(s, id, busy).state.nextPort)
    ensures Agreement(Restore(s, id, busy).state)
  {
    hide Load, Restore, SameDirButPort;
    var s1 := Restore(s, id, busy).state;
    RestoreFacts(s, id, busy);
    forall j | j in s1.table ensures Matches(s1, j) {
      assert j in s.table ==> Matches(s, j);
    }
  }

  // ----- instantiate and run -----

  /** What a disk must keep for its complete directories to stay complete: everything but ports and pids. */
  ghost predicate SameDirMetadata(a: Dir, b: Dir) {
    && (PidCookie in a <==> PidCookie in b)
    && (Load(a).Some? <==> Load(b).Some?)
    && (Load(a).Some? ==> Load(b).value == Load(a).value.(sshPort := Load(b).value.sshPort))
  }

  ghost predicate SameMetadata(a: Dirs, b: Dirs) {
    a.Keys == b.Keys && forall id :: id in a ==> SameDirMetadata(a[id], b[id])
  }

  lemma {:induction false} SameButPortIsSameMetadata(a: Dirs, b: Dirs)
    requires SameButPort(a, b)
    ensures SameMetadata(a, b)
  {
    forall id | id in a ensures SameDirMetadata(a[id], b[id]) {
      assert SameDirButPort(a[id], b[id]);
      LoadSameButPort(a[id], b[id]);
    }
  }

  /** The disk `d` extends `dirs` by the directory `id` alone. */
  ghost predicate AddsDir(dirs: Dirs, d: Dirs, id: int) {
    d.Keys == dirs.Keys + {id} && forall j :: j in dirs && j != id ==> d[j] == dirs[j]
  }

  /** A directory is committed by its `.pid` cookie; then all five cookies are the requested ones. */
  lemma {:induction false} CreateWritesFacts(dirs: Dirs, id: int, templ: string, memory: int, cpus: int, port: int,
      k: nat)
    requires k < COMMIT && id !in dirs
    ensures var d := CreateWrites(dirs, id, templ, memory, cpus, port)[k];
            && AddsDir(dirs, d, id)
            && (PidCookie in d[id] <==> k == COMMIT - 1)
            && (Load(d[id]).Some? <==> k == COMMIT - 1)
            && (k == COMMIT - 1 ==> d[id][PidCookie] == "0")
            && (k == COMMIT - 1 && Clean(templ) && Int32(memory) && Int32(cpus) ==>
                  Load(d[id]).value == Metadata(templ, memory, cpus, ExtractInt(ToString(port))))
  {
    hide ToString, ExtractInt;
    ZeroText();
    DecimalRoundTrip(memory);
    DecimalRoundTrip(cpus);
    if '\n' !in templ {
      CleanLine(templ, 0);
      assert templ[..|templ|] == templ;
    }
  }

  lemma {:induction false} ZeroText()
    ensures ToString(0) == "0"
  {
  }

  lemma {:induction false} BeforeRestoreFacts(s: State, templ: string, memory: int, cpus: int, busy: set<int>)
    requires TemplatesNamed(s.templates) && Agreement(s) && templ in s.templates && Int32(memory) && Int32(cpus)
    requires Int32(s.nextPort) && Int32(NextPort(s, busy))
    ensures var s1 := BeforeRestore(s, templ, memory, cpus, busy);
            && Agreement(s1) && AddsDir(s.dirs, s1.dirs, s1.nextId) && Restorable(s1, s1.nextId)
            && Load(s1.dirs[s1.nextId]).value == Metadata(templ, memory, cpus, s1.nextPort)
  {
    hide Load, ToString, ExtractInt, LeastFree, CreateWrites;
    var port, id := NextPort(s, busy), NextId(s);
    CreateWritesFacts(s.dirs, id, templ, memory, cpus, port, COMMIT - 1);
    DecimalRoundTrip(port);
    assert s.templates[templ].name == templ && Clean(templ);
    var s1 := BeforeRestore(s, templ, memory, cpus, busy);
    forall j | j in s1.table ensures Matches(s1, j) { assert Matches(s, j); }
  }

  /** `instantiate` hands out a new id and port, and the new table entry is the request. */
  lemma {:induction false} InstantiateFacts(s: State, templ: string, memory: int, cpus: int, busy: set<int>,
      busyLater: set<int>)
    requires TemplatesNamed(s.templates) && Agreement(s) && templ in s.templates
    requires Int32(memory) && Int32(cpus) && Int32(s.nextPort)
    requires Int32(Instantiate(s, templ, memory, cpus, busy, busyLater).state.nextPort)
    ensures var c := Instantiate(s, templ, memory, cpus, busy, busyLater);
            && c.outcome == Restored && c.state.templates == s.templates
            && c.state.nextId == c.id >= s.nextId && c.id !in s.dirs && c.id !in s.table
            && (forall i :: s.nextId <= i < c.id ==> i in s.dirs || i in s.table)
            && c.id in c.state.table && c.state.table == s.table[c.id := c.state.table[c.id]]
            && (var e := c.state.table[c.id];
                && e == Entry(c.id, memory, cpus, e.sshPort, s.templates[templ], e.sshPort, 0)
                && e.sshPort !in busyLater && e.sshPort == c.state.nextPort && e.sshPort in c.ports)
            && (var p := c.ports[0];
                && p > s.nextPort && p !in busy && (forall q :: s.nextPort < q < p ==> q in busy)
                && (p !in busyLater ==> c.ports == [p])
                && (p in busyLater ==> |c.ports| == 2 && forall q :: p < q < c.ports[1] ==> q in busyLater))
            && IssuedBetween(c.ports, s.nextPort, c.state.nextPort)
            && Agreement(c.state)
            && c.state.dirs == Final(s.dirs, c.writes) && |c.writes| >= COMMIT
  {
    hide Load, ToString, ExtractInt, LeastFree, CreateWrites, Restore, Matches, SameDirButPort;
    var s1 := BeforeRestore(s, templ, memory, cpus, busy);
    var id, port := s1.nextId, s1.nextPort;
    var r := Restore(s1, id, busyLater);
    RestoreFacts(s1, id, busyLater);
    BeforeRestoreFacts(s, templ, memory, cpus, busy);
    RestoreKeepsAgreement(s1, id, busyLater);
    IssuedConcat([port], r.ports, s.nextPort, port, r.state.nextPort);
    forall i | s.nextId <= i < id ensures i in s.dirs || i in s.table {
      assert i in s.dirs.Keys + s.table.Keys;
    }
  }

  /** Every disk `instantiate` goes through adds one directory, complete from its sixth write on. */
  lemma {:induction false} InstantiateWrites(s: State, templ: string, memory: int, cpus: int, busy: set<int>,
      busyLater: set<int>, k: nat)
    requires TemplatesNamed(s.templates) && templ in s.templates && Int32(memory) && Int32(cpus)
    requires k < |Instantiate(s, templ, memory, cpus, busy, busyLater).writes|
    ensures var c := Instantiate(s, templ, memory, cpus, busy, busyLater);
            && c.id !in s.dirs && AddsDir(s.dirs, c.writes[k], c.id)
            && (PidCookie in c.writes[k][c.id] <==> k >= COMMIT - 1)
            && (Load(c.writes[k][c.id]).Some? <==> k >= COMMIT - 1)
            && (k >= COMMIT - 1 ==> Load(c.writes[k][c.id]).value.(sshPort := 0) == Metadata(templ, memory, cpus, 0))
  {
    hide Load, ToString, ExtractInt, LeastFree, CreateWrites, Restore;
    var port, id := NextPort(s, busy), NextId(s);
    var w := CreateWrites(s.dirs, id, templ, memory, cpus, port);
    CreateWritesFacts(s.dirs, id, templ, memory, cpus, port, if k < COMMIT then k else COMMIT - 1);
    var s1 := s.(nextPort := port, nextId := id, dirs := w[COMMIT - 1]);
    RestoreFacts(s1, id, busyLater);
    var r := Restore(s1, id, busyLater);
    assert s.templates[templ].name == templ && Clean(templ);
    if k >= COMMIT {
      SameButPortIsSameMetadata(w[COMMIT - 1], r.state.dirs);
      assert SameDirMetadata(w[COMMIT - 1][id], r.state.dirs[id]);
      assert SameDirButPort(w[COMMIT - 1][id], r.state.dirs[id]);
    }
  }

  /** `run` starts a stopped instance, under a new port exactly when its own is taken. */
  lemma {:induction false} RunFacts(s: State, id: int, busy: set<int>, alive: set<int>, child: int)
    requires Agreement(s) && Int32(s.nextPort) && Int32(Run(s, id, busy, alive, child).state.nextPort)
    ensures var r := Run(s, id, busy, alive, child);
            && (r.ok <==> id in s.table && !(s.table[id].pid != 0 && s.table[id].pid in alive))
            && (!r.ok ==> r.state == s && r.writes == [] && r.ports == [])
            && (r.ok ==>
                  var p := r.state.table[id].sshPort;
                  && r.state == s.(nextPort := r.state.nextPort, dirs := r.state.dirs,
                                   table := s.table[id := s.table[id].(sshPort := p, pid := child)])
                  && p !in busy
                  && (s.table[id].sshPort !in busy ==> p == s.table[id].sshPort && r.ports == [])
                  && (s.table[id].sshPort in busy ==> r.ports == [p] && r.state.nextPort == p > s.nextPort
                                                      && forall q :: s.nextPort < q < p ==> q in busy)
                  && (id in r.state.dirs && PidCookie in r.state.dirs[id]
                      && r.state.dirs[id][PidCookie] == ToString(child)))
            && IssuedBetween(r.ports, s.nextPort, r.state.nextPort)
            && Agreement(r.state) && r.state.dirs == Final(s.dirs, r.writes)
            && (forall w :: w in r.writes ==> SameMetadata(s.dirs, w))
  {
    hide Load, ToString, ExtractInt, LeastFree, ClaimPort;
    var r := Run(s, id, busy, alive, child);
    if r.ok {
      assert Matches(s, id);
      ClaimPortFacts(s, id, busy);
      var (s1, port, writes, ports) := ClaimPort(s, id, s.table[id].sshPort, busy);
      LoadAfterPid(s1.dirs[id], ToString(child));
      SameButPortIsSameMetadata(s.dirs, s1.dirs);
      assert SameDirMetadata(s.dirs[id], s1.dirs[id]);
      HasAllCookies(s.dirs[id]);
      forall j | j in s.dirs ensures SameDirMetadata(s.dirs[j], r.state.dirs[j]) {}
      forall j | j in r.state.table ensures Matches(r.state, j) {
        assert Matches(s, j);
      }
    }
  }

  /**
   A started instance is not started again while its process lives: after a successful `run`, the next one fails, and
   changes nothing, exactly if the child of the first is still alive. Nor does the next `kill` signal anything else.
   */
  lemma {:induction false} RunTwice(s: State, id: int, busy: set<int>, alive: set<int>, child: int, busy': set<int>,
      alive': set<int>, child': int)
    requires Run(s, id, busy, alive, child).ok && child != 0
    ensures var s1 := Run(s, id, busy, alive, child).state; var r := Run(s1, id, busy', alive', child');
            && (r.ok <==> child !in alive') && (child in alive' ==> r.state == s1)
            && Kill(s1, id, alive') == (true, if child in alive' then Some(child) else None)
  {
    hide ToString, ClaimPort, WriteCookie;
  }

  /**
   `kill` is answered true exactly for a known instance, running or not; what it signals is that instance's process,
   and only if that is alive.
   */
  lemma {:induction false} KillFacts(s: State, id: int, alive: set<int>)
    ensures Kill(s, id, alive).0 <==> id in s.table
    ensures forall p :: Kill(s, id, alive).1 == Some(p) <==>
              id in s.table && s.table[id].pid == p && p != 0 && p in alive
  {
  }

  lemma {:induction false} HasAllCookies(d: Dir)
    requires Load(d).Some?
    ensures PidCookie in d && SshCookie in d
  {
  }

  /**
   The port in the options after `run`, exactly: a free port is kept, and a taken one is replaced by the port of the
   options just when that is the next free one.
   */
  lemma {:induction false} RunOptionPort(s: State, id: int, busy: set<int>, alive: set<int>, child: int)
    requires id in s.table && !(s.table[id].pid != 0 && s.table[id].pid in alive)
    ensures var e, e' := s.table[id], Run(s, id, busy, alive, child).state.table[id];
            && e'.optPort == e.optPort
            && (e'.optPort == e'.sshPort <==>
                  if e.sshPort in busy then
                    s.nextPort < e.optPort && e.optPort !in busy && forall q :: s.nextPort < q < e.optPort ==> q in busy
                  else e.optPort == e.sshPort)
  {
    hide ToString, Load;
    var e := s.table[id];
    if e.sshPort in busy && s.nextPort < e.optPort && e.optPort !in busy
        && forall q :: s.nextPort < q < e.optPort ==> q in busy {
      LeastFreeIs(s.nextPort + 1, busy, e.optPort);
    }
  }
}
