/** The controller with its mutable state: the disk, the process and instance objects, and the table. */
module Controllers {
  import opened Wrappers
  import opened Decimal
  import opened Records
  import opened ControllerModel

  /** The working directory. Every write is recorded, so that the order of writes is part of each contract. */
  class Disk {
    var dirs: Dirs
    ghost var trace: seq<Dirs>

    constructor (dirs: Dirs)
      ensures this.dirs == dirs && trace == []
    {
      this.dirs := dirs;
      trace := [];
    }

    predicate DirExists(id: int)
      reads this
    { id in dirs }

    /** `/bin/mkdir`, which leaves an existing directory as it is. */
    method Mkdir(id: int)
      modifies this
      ensures dirs == if id in old(dirs) then old(dirs) else old(dirs)[id := map[]]
      ensures trace == old(trace) + [dirs]
    {
      if id !in dirs { dirs := dirs[id := map[]]; }
      trace := trace + [dirs];
    }

    method Write(id: int, cookie: Cookie, text: string)
      modifies this
      ensures dirs == WriteCookie(old(dirs), id, cookie, text)
      ensures trace == old(trace) + [dirs]
    {
      if id in dirs { dirs := dirs[id := dirs[id][cookie := text]]; }
      trace := trace + [dirs];
    }
  }

  class Process {
    const optPort: int
    var pid: int

    constructor (optPort: int)
      ensures this.optPort == optPort && pid == 0
    {
      this.optPort := optPort;
      pid := 0;
    }

    /** `kill(pid, 0) == 0`: `alive` are the pids that exist. */
    predicate IsRunning(alive: set<int>)
      reads this
    { pid != 0 && pid in alive }

    /** Forks; `child` is the pid the parent sees. A running process throws. */
    method Run(alive: set<int>, child: int)
      requires !IsRunning(alive)
      modifies this
      ensures pid == child
    {
      pid := child;
    }
  }

  class Instance {
    const id: int
    const memory: int
    const cpus: int
    const templ: Template
    const process: Process
    var sshPort: int

    constructor (id: int, memory: int, cpus: int, sshPort: int, templ: Template, process: Process)
      ensures this.process == process
      ensures Value() == Entry(id, memory, cpus, sshPort, templ, process.optPort, process.pid)
    {
      this.id, this.memory, this.cpus, this.sshPort := id, memory, cpus, sshPort;
      this.templ, this.process := templ, process;
    }

    function Value(): Entry
      reads this, process
    { Entry(id, memory, cpus, sshPort, templ, process.optPort, process.pid) }

    method SetSshPort(port: int)
      modifies this
      ensures sshPort == port
    {
      sshPort := port;
    }

    method GetInstanceInfo(alive: set<int>) returns (info: InstanceInfo)
      ensures info == Value().Info(alive) && Shows(info, ToString(id), Value(), alive)
    {
      info := InstanceInfo(ToString(id), templ.name, memory, cpus, sshPort, process.IsRunning(alive));
    }
  }

  const CIRROS := Template("cirros", "CirrOS is a Tiny OS that specializes in running on a cloud.",
    "templates/cirros/cirros-0.3.3-x86_64-kernel", "templates/cirros/cirros-0.3.3-x86_64-rootfs-non_ec2.img")
  const WHEEZY := Template("wheezy", "Debian Wheezy AMD64.", "-none-",
    "templates/wheezy/debian_wheezy_amd64_standard.qcow2")
  const BUILTIN: map<string, Template> := map["cirros" := CIRROS, "wheezy" := WHEEZY]

  class Controller {
    const disk: Disk
    const templates: map<string, Template>
    var nextId: int
    var nextPort: int
    var instances: map<int, Instance>

    /** False when the constructor threw, at a directory entry whose number is out of range. */
    var started: bool

    ghost function Insts(): set<Instance>
      reads `instances
    { set id | id in instances :: instances[id] }

    ghost function Procs(): set<Process>
      reads `instances
    { set id | id in instances :: instances[id].process }

    /** Different entries are different objects. */
    ghost predicate Valid()
      reads `instances
    {
      forall i, j :: i in instances && j in instances && i != j ==>
        instances[i] != instances[j] && instances[i].process != instances[j].process
    }

    ghost function Table(): map<int, Entry>
      reads `instances, Insts(), Procs()
    { map id | id in instances :: instances[id].Value() }

    ghost function View(): State
      reads this, disk, Insts(), Procs()
    { State(templates, nextId, nextPort, Table(), disk.dirs) }

    lemma {:induction false} Shows()
      ensures View().templates == templates && View().table.Keys == instances.Keys && View().dirs == disk.dirs
      ensures forall id :: id in instances ==> View().table[id] == instances[id].Value()
    {
    }

    twostate lemma SameTable()
      requires instances == old(instances)
      requires forall j :: j in instances ==> unchanged(instances[j]) && unchanged(instances[j].process)
      ensures Table() == old(Table())
    {
      forall j | j in instances ensures Table()[j] == old(Table())[j] {
        assert instances[j].Value() == old(instances[j].Value());
      }
    }

    /** The table changes by one entry when no other instance or process object does. */
    twostate lemma OneEntry(id: int)
      requires id in instances && instances == old(instances)[id := instances[id]]
      requires forall j :: j in old(instances) && j != id ==>
                 unchanged(old(instances)[j]) && unchanged(old(instances)[j].process)
      ensures Table() == old(Table())[id := instances[id].Value()]
    {
      var expected := old(Table())[id := instances[id].Value()];
      assert Table().Keys == expected.Keys;
      forall j | j in instances ensures Table()[j] == expected[j] {
        if j != id { assert instances[j].Value() == old(instances[j].Value()); }
      }
    }

    constructor (disk: Disk, initialId: int, initialPort: int, names: seq<string>, busy: set<int>)
      modifies disk
      ensures Valid() && this.disk == disk && templates == BUILTIN
      ensures fresh(Insts()) && fresh(Procs())
      ensures var r := Scan(State(BUILTIN, initialId, initialPort, map[], old(disk.dirs)), names, busy);
              View() == r.state && started == r.finished && disk.trace == old(disk.trace) + r.writes
    {
      this.disk := disk;
      templates := BUILTIN;
      nextId, nextPort := initialId, initialPort;
      instances := map[];
      started := true;
      new;
      LoadInstances(names, busy);
    }

    /** The directory scan of the constructor; it stops where `stoi` throws `out_of_range`. */
    method LoadInstances(names: seq<string>, busy: set<int>)
      requires Valid() && started
      modifies this, disk
      ensures Valid() && fresh(Insts() - old(Insts())) && fresh(Procs() - old(Procs()))
      ensures var r := Scan(old(View()), names, busy);
              View() == r.state && started == r.finished && disk.trace == old(disk.trace) + r.writes
    {
      hide Scan, ScanName, View, Table, Valid;
      NothingScanned(View(), names, busy);
      var i := 0;
      while i < |names| && started
        invariant i <= |names| && Valid() && fresh(Insts() - old(Insts())) && fresh(Procs() - old(Procs()))
        invariant var r := Scan(old(View()), names[..i], busy);
                  View() == r.state && started == r.finished && disk.trace == old(disk.trace) + r.writes
        decreases |names| - i
      {
        ScanNext(old(View()), names, i, busy);
        LoadInstance(names[i], busy);
        i := i + 1;
      }
      assert names[..|names|] == names;
      if !started { ScanStops(old(View()), names, i, busy); }
    }

    method LoadInstance(name: string, busy: set<int>)
      requires Valid() && started
      modifies this, disk
      ensures Valid() && fresh(Insts() - old(Insts())) && fresh(Procs() - old(Procs()))
      ensures var r := ScanName(old(View()), name, busy);
              View() == r.state && started == r.finished && disk.trace == old(disk.trace) + r.writes
    {
      hide Restore, Stoi;
      match Stoi(name) {
        case Number(id) => var _, _ := RestoreInstance(id, busy);
        case NoConversion =>
        case OutOfRange => started := false;
      }
    }

    method FindNextId(baseId: int) returns (id: int)
      ensures id == LeastFree(baseId, disk.dirs.Keys + instances.Keys)
    {
      ghost var taken := disk.dirs.Keys + instances.Keys;
      id := baseId;
      while disk.DirExists(id) || id in instances
        invariant baseId <= id && forall m :: baseId <= m < id ==> m in taken
        decreases |set m | m in taken && m >= id|
      {
        TakenShrinks(id, taken);
        id := id + 1;
      }
      LeastFreeIs(baseId, taken, id);
    }

    /** `busy` are the ports on which a connection to localhost succeeds. */
    method FindNextPort(basePort: int, busy: set<int>) returns (port: int)
      ensures port == LeastFree(basePort + 1, busy)
    {
      port := basePort + 1;
      while port in busy
        invariant basePort < port && forall m :: basePort + 1 <= m < port ==> m in busy
        decreases |set m | m in busy && m >= port|
      {
        TakenShrinks(port, busy);
        port := port + 1;
      }
      LeastFreeIs(basePort + 1, busy, port);
    }

    /** What `restore` and `run` do about a port: one that is taken is replaced, and its cookie rewritten. */
    method ClaimSshPort(id: int, sshPort: int, busy: set<int>) returns (port: int)
      modifies `nextPort, disk
      ensures var (s, p, writes, _) := ClaimPort(old(View()), id, sshPort, busy);
              View() == s && port == p && disk.trace == old(disk.trace) + writes
    {
      hide LeastFree, ToString;
      port := sshPort;
      if sshPort in busy {
        nextPort := FindNextPort(nextPort, busy);
        disk.Write(id, SshCookie, ToString(nextPort));
        port := nextPort;
      }
    }

    /** A new entry in the table, with a process object made for its port. */
    method AddInstance(id: int, memory: int, cpus: int, sshPort: int, templ: Template) returns (inst: Instance)
      requires Valid() && id !in instances
      modifies `instances
      ensures Valid() && fresh(Insts() - old(Insts())) && fresh(Procs() - old(Procs()))
      ensures View() == old(View()).(table := old(View()).table[id :=
              Entry(id, memory, cpus, sshPort, templ, sshPort, 0)])
      ensures id in instances && inst == instances[id]
    {
      var process := new Process(sshPort);
      inst := new Instance(id, memory, cpus, sshPort, templ, process);
      instances := instances[id := inst];
      OneEntry(id);
    }

    method RestoreInstance(id: int, busy: set<int>) returns (inst: Instance?, outcome: Outcome)
      requires Valid()
      modifies this, disk
      ensures Valid() && fresh(Insts() - old(Insts())) && fresh(Procs() - old(Procs())) && started == old(started)
      ensures var r := Restore(old(View()), id, busy);
              && View() == r.state && outcome == r.outcome && disk.trace == old(disk.trace) + r.writes
              && (outcome == Restored <==> inst != null)
      ensures inst != null ==> id in instances && inst == instances[id]
    {
      hide LeastFree, ToString, ReadText, ReadInt, ClaimPort, View, Table, Valid, Load, Restore;
      Shows();
      RestoreCases(View(), id, busy);
      if !disk.DirExists(id) { return null, NoDirectory; }
      if id in instances { return instances[id], Restored; }
      var dir := disk.dirs[id];
      var templ, memory, cpus := ReadText(dir, TemplateCookie), ReadInt(dir, MemoryCookie), ReadInt(dir, CpusCookie);
      var ssh, pid := ReadInt(dir, SshCookie), ReadInt(dir, PidCookie);
      LoadReads(dir);
      if templ.None? || memory.None? || cpus.None? || ssh.None? || pid.None? { return null, Corrupted; }
      var sshPort := ClaimSshPort(id, ssh.value, busy);
      Shows();
      if templ.value !in templates { return null, TemplateMissing; }
      inst := AddInstance(id, memory.value, cpus.value, sshPort, templates[templ.value]);
      outcome := Restored;
    }

    /** mkdir and the five cookies of a new instance; `.pid` comes last. */
    method CreateDirectory(id: int, templ: string, memory: int, cpus: int, port: int)
      requires id !in disk.dirs
      modifies disk
      ensures disk.dirs == CreateWrites(old(disk.dirs), id, templ, memory, cpus, port)[COMMIT - 1]
      ensures disk.trace == old(disk.trace) + CreateWrites(old(disk.dirs), id, templ, memory, cpus, port)
    {
      hide ToString, WriteCookie, CreateWrites;
      CreateWritesInOrder(disk.dirs, id, templ, memory, cpus, port);
      disk.Mkdir(id);
      disk.Write(id, TemplateCookie, templ);
      disk.Write(id, MemoryCookie, ToString(memory));
      disk.Write(id, CpusCookie, ToString(cpus));
      disk.Write(id, SshCookie, ToString(port));
      disk.Write(id, PidCookie, ToString(0));
    }

    /** The first half of `instantiate`: a port, an id, and a directory with its cookies. */
    method Allocate(templ: string, memory: int, cpus: int, busy: set<int>)
      modifies `nextPort, `nextId, disk
      ensures View() == BeforeRestore(old(View()), templ, memory, cpus, busy)
      ensures disk.trace == old(disk.trace) + CreateWrites(old(disk.dirs), nextId, templ, memory, cpus, nextPort)
    {
      hide LeastFree, CreateWrites, Table;
      Shows();
      nextPort := FindNextPort(nextPort, busy);
      nextId := FindNextId(nextId);
      assert instances.Keys == old(View()).table.Keys;
      CreateDirectory(nextId, templ, memory, cpus, nextPort);
      SameTable();
    }

    method InstantiateInstance(templ: Template, memory: int, cpus: int, busy: set<int>, busyLater: set<int>)
      returns (inst: Instance?, outcome: Outcome)
      requires Valid()
      modifies this, disk
      ensures Valid() && fresh(Insts() - old(Insts())) && fresh(Procs() - old(Procs())) && started == old(started)
      ensures var c := Instantiate(old(View()), templ.name, memory, cpus, busy, busyLater);
              && View() == c.state && outcome == c.outcome && disk.trace == old(disk.trace) + c.writes
              && (outcome == Restored <==> inst != null)
              && (inst != null ==> c.id in instances && inst == instances[c.id])
    {
      hide BeforeRestore, Restore, CreateWrites;
      Allocate(templ.name, memory, cpus, busy);
      inst, outcome := RestoreInstance(nextId, busyLater);
    }

    method RunInstance(id: int, busy: set<int>, alive: set<int>, child: int) returns (ok: bool)
      requires Valid()
      modifies this, disk, Insts(), Procs()
      ensures Valid() && Insts() == old(Insts()) && Procs() == old(Procs()) && started == old(started)
      ensures var r := Run(old(View()), id, busy, alive, child);
              View() == r.state && ok == r.ok && disk.trace == old(disk.trace) + r.writes
      ensures ok <==> id in old(View()).table && var e := old(View()).table[id]; !(e.pid != 0 && e.pid in alive)
      ensures ok ==>
                && id in View().table && View().table[id].pid == child
                && (id in disk.dirs ==> PidCookie in disk.dirs[id] && disk.dirs[id][PidCookie] == ToString(child))
    {
      hide LeastFree, ToString, ClaimPort;
      if id !in instances { return false; }
      var inst := instances[id];
      if inst.process.IsRunning(alive) { return false; }
      var sshPort := ClaimSshPort(id, inst.sshPort, busy);
      if sshPort != inst.sshPort { inst.SetSshPort(sshPort); }
      inst.process.Run(alive, child);
      disk.Write(id, PidCookie, ToString(inst.process.pid));
      OneEntry(id);
      return true;
    }

    /** `signalled` is the process that gets SIGINT, if any. */
    method KillInstance(id: int, alive: set<int>) returns (ok: bool, signalled: Option<int>)
      ensures (ok, signalled) == Kill(old(View()), id, alive)
      ensures ok <==> id in View().table
      ensures forall p :: signalled == Some(p) <==>
                id in View().table && View().table[id].pid == p && p != 0 && p in alive
    {
      if id !in instances { return false, None; }
      var process := instances[id].process;
      if !process.IsRunning(alive) { return true, None; }
      return true, Some(process.pid);
    }
  }

  lemma {:induction false} CreateWritesInOrder(dirs: Dirs, id: int, templ: string, memory: int, cpus: int, port: int)
    requires id !in dirs
    ensures var d0 := dirs[id := map[]];
            var d1 := WriteCookie(d0, id, TemplateCookie, templ);
            var d2 := WriteCookie(d1, id, MemoryCookie, ToString(memory));
            var d3 := WriteCookie(d2, id, CpusCookie, ToString(cpus));
            var d4 := WriteCookie(d3, id, SshCookie, ToString(port));
            var d5 := WriteCookie(d4, id, PidCookie, ToString(0));
            CreateWrites(dirs, id, templ, memory, cpus, port) == [d0, d1, d2, d3, d4, d5]
  {
    hide ToString;
    var d0: Dir := map[];
    var d1 := d0[TemplateCookie := templ];
    var d2 := d1[MemoryCookie := ToString(memory)];
    var d3 := d2[CpusCookie := ToString(cpus)];
    var d4 := d3[SshCookie := ToString(port)];
    WriteOver(dirs, id, d0, TemplateCookie, templ);
    WriteOver(dirs, id, d1, MemoryCookie, ToString(memory));
    WriteOver(dirs, id, d2, CpusCookie, ToString(cpus));
    WriteOver(dirs, id, d3, SshCookie, ToString(port));
    WriteOver(dirs, id, d4, PidCookie, ToString(0));
  }

  /** Reading five cookies. */
  lemma {:induction false} LoadReads(d: Dir)
    ensures var t, m, c := ReadText(d, TemplateCookie), ReadInt(d, MemoryCookie), ReadInt(d, CpusCookie);
            var p, q := ReadInt(d, SshCookie), ReadInt(d, PidCookie);
            Load(d) == if t.None? || m.None? || c.None? || p.None? || q.None? then None
                       else Some(Metadata(t.value, m.value, c.value, p.value))
  {
    hide ReadText, ReadInt;
  }

  /** The cases of `restore`, each with what it leaves. */
  lemma {:induction false} RestoreCases(s: State, id: int, busy: set<int>)
    ensures var r := Restore(s, id, busy);
            if id !in s.dirs then r == Restoring(s, NoDirectory, [], [])
            else if id in s.table then r == Restoring(s, Outcome.Restored, [], [])
            else if Load(s.dirs[id]).None? then r == Restoring(s, Corrupted, [], [])
            else
              var m := Load(s.dirs[id]).value;
              var (s1, port, writes, ports) := ClaimPort(s, id, m.sshPort, busy);
              && s1.templates == s.templates && s1.table == s.table
              && if m.templ !in s.templates then r == Restoring(s1, TemplateMissing, writes, ports)
                 else r == Restoring(s1.(table := s1.table[id :=
                     Entry(id, m.memory, m.cpus, port, s.templates[m.templ], port, 0)]),
                                     Outcome.Restored, writes, ports)
  {
    hide Load, LeastFree, ToString;
  }

  lemma {:induction false} WriteOver(dirs: Dirs, id: int, d: Dir, cookie: Cookie, text: string)
    ensures WriteCookie(dirs[id := d], id, cookie, text) == dirs[id := d[cookie := text]]
  {
  }

  lemma {:induction false} ScanNext(s0: State, names: seq<string>, i: nat, busy: set<int>)
    requires i < |names| && Scan(s0, names[..i], busy).finished
    ensures Scan(s0, names[..i + 1], busy) ==
            AndThen(Scan(s0, names[..i], busy), ScanName(Scan(s0, names[..i], busy).state, names[i], busy))
  {
    hide ScanName;
    assert names[..i + 1][..i] == names[..i];
  }

  lemma {:induction false} NothingScanned(s0: State, names: seq<string>, busy: set<int>)
    ensures Scan(s0, names[..0], busy) == Scanning(s0, true, [], [])
  {
  }

  lemma {:induction false} ScanStops(s0: State, names: seq<string>, i: nat, busy: set<int>)
    requires i <= |names| && !Scan(s0, names[..i], busy).finished
    ensures Scan(s0, names, busy) == Scan(s0, names[..i], busy)
    decreases |names|
  {
    if i == |names| {
      assert names[..i] == names;
    } else {
      var n := |names| - 1;
      assert names[..n][..i] == names[..i];
      ScanStops(s0, names[..n], i, busy);
    }
  }
}
