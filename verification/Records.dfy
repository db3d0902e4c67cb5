/** The fixed-size records that travel in a frame, and the maps they are chunked back into. */
module Records {
  import opened Wrappers
  import opened Decimal
  import opened Framing

  datatype Template = Template(name: string, description: string, kernelPath: string, rootfsPath: string) {
    function Serialize(): seq<string> { [name, description, kernelPath, rootfsPath] }

    static function Deserialize(data: seq<string>): Template
      requires |data| >= TEMPLATE_SIZE
    { Template(data[0], data[1], data[2], data[3]) }

    /** Every field can be a line of a frame. */
    predicate Printable() {
      forall i :: 0 <= i < TEMPLATE_SIZE ==> Clean(Serialize()[i]) && Serialize()[i] != ""
    }
  }

  const TEMPLATE_SIZE: nat := 4
  const INSTANCE_SIZE: nat := 6

  datatype InstanceInfo = InstanceInfo(
    id: string, templ: string, memory: int, cpus: int, sshPort: int, running: bool)
  {
    function SetId(newId: string): InstanceInfo { this.(id := newId) }

    function Serialize(): seq<string> {
      [id, templ, ToString(memory), ToString(cpus), ToString(sshPort), ToString(if running then 1 else 0)]
    }

    /** None stands for the exception of a `stoi` that meets no number or one out of range. */
    static function Deserialize(data: seq<string>): Option<InstanceInfo>
      requires |data| >= INSTANCE_SIZE
    {
      match (Stoi(data[2]), Stoi(data[3]), Stoi(data[4]), Stoi(data[5]))
      case (Number(m), Number(c), Number(p), Number(r)) => Some(InstanceInfo(data[0], data[1], m, c, p, r != 0))
      case _ => None
    }

    /** The numbers are 32-bit ints and the texts can be lines of a frame. */
    predicate Printable() {
      && Int32(memory) && Int32(cpus) && Int32(sshPort)
      && Clean(id) && id != "" && Clean(templ) && templ != ""
    }
  }

  /** Lines of several records, one after the other. */
  function SerializeTemplates(ts: seq<Template>): seq<string> {
    if ts == [] then [] else SerializeTemplates(ts[..|ts| - 1]) + ts[|ts| - 1].Serialize()
  }

  function SerializeInstances(infos: seq<InstanceInfo>): seq<string> {
    if infos == [] then [] else SerializeInstances(infos[..|infos| - 1]) + infos[|infos| - 1].Serialize()
  }

  /** The records of `data`, cut into pieces of four lines from the front. */
  function ParseTemplates(data: seq<string>): (ts: seq<Template>)
    requires |data| % TEMPLATE_SIZE == 0
    ensures |ts| * TEMPLATE_SIZE == |data|
  {
    if data == [] then []
    else
      var n := |data| - TEMPLATE_SIZE;
      ParseTemplates(data[..n]) + [Template.Deserialize(data[n..])]
  }

  function ParseInstances(data: seq<string>): (r: Option<seq<InstanceInfo>>)
    requires |data| % INSTANCE_SIZE == 0
    ensures r.Some? ==> |r.value| * INSTANCE_SIZE == |data|
  {
    if data == [] then Some([])
    else
      var n := |data| - INSTANCE_SIZE;
      match (ParseInstances(data[..n]), InstanceInfo.Deserialize(data[n..]))
      case (Some(infos), Some(info)) => Some(infos + [info])
      case _ => None
  }

  function NameOf(t: Template): string { t.name }

  function IdOf(x: InstanceInfo): string { x.id }

  /** `result[key(record)] = record` for every record in turn: a later one wins over an earlier one. */
  function Index<R>(rs: seq<R>, key: R -> string): map<string, R> {
    if rs == [] then map[] else Index(rs[..|rs| - 1], key)[key(rs[|rs| - 1]) := rs[|rs| - 1]]
  }

  // ----- properties -----

  /** A record reads back as itself exactly when its numbers are 32-bit ints. */
  lemma {:induction false} InstanceRoundTrip(x: InstanceInfo)
    ensures InstanceInfo.Deserialize(x.Serialize()) == Some(x)
      <==> Int32(x.memory) && Int32(x.cpus) && Int32(x.sshPort)
  {
    DecimalRoundTrip(x.memory);
    DecimalRoundTrip(x.cpus);
    DecimalRoundTrip(x.sshPort);
    DecimalRoundTrip(if x.running then 1 else 0);
  }

  lemma {:induction false} LastPiece(a: seq<string>, b: seq<string>)
    ensures (a + b)[..|a + b| - |b|] == a && (a + b)[|a + b| - |b|..] == b
  {
  }

  lemma {:induction false} TemplatesRoundTrip(ts: seq<Template>)
    ensures |SerializeTemplates(ts)| == TEMPLATE_SIZE * |ts|
    ensures ParseTemplates(SerializeTemplates(ts)) == ts
  {
    if ts != [] {
      var n := |ts| - 1;
      TemplatesRoundTrip(ts[..n]);
      LastPiece(SerializeTemplates(ts[..n]), ts[n].Serialize());
      assert ts == ts[..n] + [ts[n]];
    }
  }

  lemma {:induction false} ParseOneMore(data: seq<string>, infos: seq<InstanceInfo>, record: seq<string>,
      x: InstanceInfo)
    requires |data| % INSTANCE_SIZE == 0 && |record| == INSTANCE_SIZE
    requires ParseInstances(data) == Some(infos) && InstanceInfo.Deserialize(record) == Some(x)
    ensures |data + record| % INSTANCE_SIZE == 0
    ensures ParseInstances(data + record) == Some(infos + [x])
  {
    hide InstanceInfo.Deserialize;
    LastPiece(data, record);
    assert data + record != [];
  }

  lemma {:induction false} RecordLength(x: InstanceInfo)
    ensures |x.Serialize()| == INSTANCE_SIZE
  {
  }

  lemma {:induction false} NothingParses()
    ensures ParseInstances([]) == Some([])
  {
  }

  lemma {:induction false} InstancesRoundTrip(infos: seq<InstanceInfo>)
    requires forall i :: 0 <= i < |infos| ==> infos[i].Printable()
    ensures |SerializeInstances(infos)| == INSTANCE_SIZE * |infos|
    ensures ParseInstances(SerializeInstances(infos)) == Some(infos)
  {
    hide ToString, InstanceInfo.Deserialize, InstanceInfo.Serialize, ParseInstances;
    if infos == [] {
      NothingParses();
    } else {
      var front, x := infos[..|infos| - 1], infos[|infos| - 1];
      InstancesRoundTrip(front);
      assert x.Printable();
      InstanceRoundTrip(x);
      RecordLength(x);
      ParseOneMore(SerializeInstances(front), front, x.Serialize(), x);
      assert infos == front + [x];
    }
  }

  /** Lines that may stand anywhere in a frame. */
  predicate AllPrintable(lines: seq<string>) {
    forall i :: 0 <= i < |lines| ==> Clean(lines[i]) && lines[i] != ""
  }

  lemma {:induction false} TemplateLines(ts: seq<Template>)
    requires forall i :: 0 <= i < |ts| ==> ts[i].Printable()
    ensures AllPrintable(SerializeTemplates(ts)) && |SerializeTemplates(ts)| == TEMPLATE_SIZE * |ts|
  {
    if ts != [] {
      TemplateLines(ts[..|ts| - 1]);
      assert ts[|ts| - 1].Printable();
    }
  }

  lemma {:induction false} InstanceLines(infos: seq<InstanceInfo>)
    requires forall i :: 0 <= i < |infos| ==> infos[i].Printable()
    ensures AllPrintable(SerializeInstances(infos)) && |SerializeInstances(infos)| == INSTANCE_SIZE * |infos|
  {
    if infos != [] {
      InstanceLines(infos[..|infos| - 1]);
      PrintableLines(infos[|infos| - 1]);
    }
  }

  lemma {:induction false} PrintableLines(x: InstanceInfo)
    requires x.Printable()
    ensures AllPrintable(x.Serialize())
  {
    TextIsPlain(x.memory);
    TextIsPlain(x.cpus);
    TextIsPlain(x.sshPort);
    TextIsPlain(if x.running then 1 else 0);
  }

  /** The map has exactly the keys of the records. */
  lemma {:induction false} IndexKeys<R>(rs: seq<R>, key: R -> string, k: string)
    ensures k in Index(rs, key) <==> exists i :: 0 <= i < |rs| && key(rs[i]) == k
  {
    if rs != [] {
      var n := |rs| - 1;
      IndexKeys(rs[..n], key, k);
      assert forall i :: 0 <= i < n ==> rs[..n][i] == rs[i];
    }
  }

  /** A record is found under its key unless a later one has the same key. */
  lemma {:induction false} IndexLast<R>(rs: seq<R>, key: R -> string, i: nat)
    requires i < |rs| && forall j :: i < j < |rs| ==> key(rs[j]) != key(rs[i])
    ensures key(rs[i]) in Index(rs, key) && Index(rs, key)[key(rs[i])] == rs[i]
  {
    var n := |rs| - 1;
    if i < n {
      assert key(rs[n]) != key(rs[i]);
      IndexLast(rs[..n], key, i);
    }
  }

  predicate DistinctKeys<R>(rs: seq<R>, key: R -> string) {
    forall i, j :: 0 <= i < j < |rs| ==> key(rs[i]) != key(rs[j])
  }

  /** Records with distinct keys all survive. */
  lemma {:induction false} IndexSize<R>(rs: seq<R>, key: R -> string)
    requires DistinctKeys(rs, key)
    ensures |Index(rs, key)| == |rs|
  {
    if rs != [] {
      var n := |rs| - 1;
      var m := Index(rs[..n], key);
      assert DistinctKeys(rs[..n], key);
      IndexSize(rs[..n], key);
      IndexKeys(rs[..n], key, key(rs[n]));
      assert Index(rs, key).Keys == m.Keys + {key(rs[n])};
    }
  }
}
