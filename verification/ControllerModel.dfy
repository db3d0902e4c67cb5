/**
 The controller as a state and its operations as functions. Every operation also lists the successive
 contents of the disk it goes through, one per cookie write, so that a crash is a choice of one of them,
 and the ports it issues.
 */
module ControllerModel {
  import opened Wrappers
  import opened Decimal
  import opened Framing
  import opened Records

  /** The cookie files of an instance directory. */
  datatype Cookie = TemplateCookie | MemoryCookie | CpusCookie | SshCookie | PidCookie

  type Dir = map<Cookie, string>

  /** The working directory: `dirs[id]` is the directory whose name is the decimal text of `id`. */
  type Dirs = map<int, Dir>

  /** `Cookie::write`: replaces the file; in a directory that does not exist nothing is written. */
  function WriteCookie(dirs: Dirs, id: int, cookie: Cookie, text: string): Dirs {
    if id in dirs then dirs[id := dirs[id][cookie := text]] else dirs
  }

  /** `Cookie::read<string>`: the first line of the file. */
  function ReadText(d: Dir, cookie: Cookie): Option<string> {
    if cookie in d then Some(d[cookie][..LineEnd(d[cookie], 0)]) else None
  }

  /** `Cookie::read<int>`. */
  function ReadInt(d: Dir, cookie: Cookie): Option<int> {
    if cookie in d then Some(ExtractInt(d[cookie])) else None
  }

  /** What `restore` reads from a directory; None when one of the five files is missing. */
  datatype Metadata = Metadata(templ: string, memory: int, cpus: int, sshPort: int)

  function Load(d: Dir): Option<Metadata> {
    match (ReadText(d, TemplateCookie), ReadInt(d, MemoryCookie), ReadInt(d, CpusCookie),
           ReadInt(d, SshCookie), ReadInt(d, PidCookie))
    case (Some(t), Some(m), Some(c), Some(p), Some(_)) => Some(Metadata(t, m, c, p))
    case _ => None
  }

  /** An `Instance` with its `Process`: `optPort` is the port in the options fixed at construction. */
  datatype Entry = Entry(
    id: int, memory: int, cpus: int, sshPort: int, templ: Template, optPort: int, pid: int)
  {
    predicate IsRunning(alive: set<int>) { pid != 0 && pid in alive }

    function Info(alive: set<int>): InstanceInfo {
      InstanceInfo(ToString(id), templ.name, memory, cpus, sshPort, IsRunning(alive))
    }
  }

  /** A record tells a client of an entry: every field of it, and whether its process is among those alive. */
  predicate Shows(x: InstanceInfo, id: string, e: Entry, alive: set<int>) {
    && x.id == id && x.templ == e.templ.name && x.memory == e.memory && x.cpus == e.cpus && x.sshPort == e.sshPort
    && (x.running <==> e.pid != 0 && e.pid in alive)
  }

  datatype State = State(
    templates: map<string, Template>, nextId: int, nextPort: int, table: map<int, Entry>, dirs: Dirs)

  /** The least number at or above `base` that is not taken. */
  function LeastFree(base: int, taken: set<int>): (n: int)
    ensures n >= base && n !in taken && forall m :: base <= m < n ==> m in taken
    decreases |set m | m in taken && m >= base|
  {
    if base in taken then
      TakenShrinks(base, taken);
      LeastFree(base + 1, taken)
    else base
  }

  lemma {:induction false} LeastFreeIs(base: int, taken: set<int>, n: int)
    requires n >= base && n !in taken && forall m :: base <= m < n ==> m in taken
    ensures LeastFree(base, taken) == n
  {
    var k := LeastFree(base, taken);
    assert k < n ==> k in taken;
    assert n < k ==> n in taken;
  }

  lemma {:induction false} TakenShrinks(base: int, taken: set<int>)
    requires base in taken
    ensures |set m | m in taken && m >= base + 1| < |set m | m in taken && m >= base|
  {
    var a, b := set m | m in taken && m >= base + 1, set m | m in taken && m >= base;
    assert b == a + {base};
  }

  function NextPort(s: State, busy: set<int>): int { LeastFree(s.nextPort + 1, busy) }

  function NextId(s: State): int { LeastFree(s.nextId, s.dirs.Keys + s.table.Keys) }

  // ----- operations -----

  datatype Outcome = Restored | NoDirectory | Corrupted | TemplateMissing

  datatype Restoring = Restoring(state: State, outcome: Outcome, writes: seq<Dirs>, ports: seq<int>)

  /** The port part of `restore`: a recorded port that is taken is replaced, in the cookie too. */
  function ClaimPort(s: State, id: int, sshPort: int, busy: set<int>): (State, int, seq<Dirs>, seq<int>) {
    if sshPort in busy then
      var p := NextPort(s, busy);
      var dirs := WriteCookie(s.dirs, id, SshCookie, ToString(p));
      (s.(nextPort := p, dirs := dirs), p, [dirs], [p])
    else (s, sshPort, [], [])
  }

  function Restore(s: State, id: int, busy: set<int>): Restoring {
    if id !in s.dirs then Restoring(s, NoDirectory, [], [])
    else if id in s.table then Restoring(s, Restored, [], [])
    else
      match Load(s.dirs[id])
      case None => Restoring(s, Corrupted, [], [])
      case Some(m) =>
        var (s1, port, writes, ports) := ClaimPort(s, id, m.sshPort, busy);
        if m.templ !in s.templates then Restoring(s1, TemplateMissing, writes, ports)
        else
          var e := Entry(id, m.memory, m.cpus, port, s.templates[m.templ], port, 0);
          Restoring(s1.(table := s1.table[id := e]), Restored, writes, ports)
  }

  /** `finished` is false when a name out of the range of `int` ended the constructor. */
  datatype Scanning = Scanning(state: State, finished: bool, writes: seq<Dirs>, ports: seq<int>)

  /** One directory entry: a name that is no number is skipped, one out of range throws. */
  function ScanName(s: State, name: string, busy: set<int>): Scanning {
    match Stoi(name)
    case NoConversion => Scanning(s, true, [], [])
    case OutOfRange => Scanning(s, false, [], [])
    case Number(id) =>
      var r := Restore(s, id, busy);
      Scanning(r.state, true, r.writes, r.ports)
  }

  /** The constructor's directory scan over the names `readdir` returns. */
  function Scan(s: State, names: seq<string>, busy: set<int>): Scanning {
    if names == [] then Scanning(s, true, [], [])
    else
      var n := |names| - 1;
      var before := Scan(s, names[..n], busy);
      if !before.finished then before else AndThen(before, ScanName(before.state, names[n], busy))
  }

  function AndThen(before: Scanning, r: Scanning): Scanning {
    Scanning(r.state, r.finished, before.writes + r.writes, before.ports + r.ports)
  }

  datatype Creating = Creating(state: State, id: int, outcome: Outcome, writes: seq<Dirs>, ports: seq<int>)

  /** How many disk writes make a directory complete: `.pid` is the last one. */
  const COMMIT: nat := 6

  /** The disk after mkdir and after each of the five cookie writes of `instantiate`. */
  function CreateWrites(dirs: Dirs, id: int, templ: string, memory: int, cpus: int, port: int): (w: seq<Dirs>)
    ensures |w| == COMMIT
  {
    var d0: Dir := map[];
    var d1 := d0[TemplateCookie := templ];
    var d2 := d1[MemoryCookie := ToString(memory)];
    var d3 := d2[CpusCookie := ToString(cpus)];
    var d4 := d3[SshCookie := ToString(port)];
    var d5 := d4[PidCookie := ToString(0)];
    [dirs[id := d0], dirs[id := d1], dirs[id := d2], dirs[id := d3], dirs[id := d4], dirs[id := d5]]
  }

  /** The state in which `instantiate` calls `restore`. */
  function BeforeRestore(s: State, templ: string, memory: int, cpus: int, busy: set<int>): State {
    var port, id := NextPort(s, busy), NextId(s);
    s.(nextPort := port, nextId := id, dirs := CreateWrites(s.dirs, id, templ, memory, cpus, port)[COMMIT - 1])
  }

  /** `busy` are the ports taken when the port is chosen, `busyLater` those taken when `restore` looks again. */
  function Instantiate(s: State, templ: string, memory: int, cpus: int, busy: set<int>, busyLater: set<int>): Creating {
    var s1 := BeforeRestore(s, templ, memory, cpus, busy);
    var w := CreateWrites(s.dirs, s1.nextId, templ, memory, cpus, s1.nextPort);
    var r := Restore(s1, s1.nextId, busyLater);
    Creating(r.state, s1.nextId, r.outcome, w + r.writes, [s1.nextPort] + r.ports)
  }

  datatype Starting = Starting(state: State, ok: bool, writes: seq<Dirs>, ports: seq<int>)

  /** `child` is the pid that `fork` returns. */
  function Run(s: State, id: int, busy: set<int>, alive: set<int>, child: int): Starting {
    if id !in s.table || s.table[id].IsRunning(alive) then Starting(s, false, [], [])
    else
      var (s1, port, writes, ports) := ClaimPort(s, id, s.table[id].sshPort, busy);
      var dirs := WriteCookie(s1.dirs, id, PidCookie, ToString(child));
      var e := s.table[id].(sshPort := port, pid := child);
      Starting(s1.(table := s.table[id := e], dirs := dirs), true, writes + [dirs], ports)
  }

  /** The answer of `kill`, and the process that is sent SIGINT. */
  function Kill(s: State, id: int, alive: set<int>): (bool, Option<int>) {
    if id !in s.table then (false, None)
    else (true, if s.table[id].IsRunning(alive) then Some(s.table[id].pid) else None)
  }
}
