/** Every state that a controller can get into, through any restarts and crashes, can be served over the wire. */
module Reachability {
  import opened Decimal
  import opened Framing
  import opened Records
  import opened ControllerModel
  import opened ControllerTheorems
  import opened Controllers
  import opened ScanTheorems
  import opened Lifetimes
  import opened LifetimeTheorems
  import opened Servers

  /** Templates whose fields can be lines of a frame. */
  ghost predicate TemplatesPrintable(templates: map<string, Template>) {
    TemplatesNamed(templates) && templates != map[] && forall n :: n in templates ==> templates[n].Printable()
  }

  // ----- the two templates that the constructor installs -----

  lemma {:induction false} ShortClean(s: string)
    requires |s| <= 20 && forall i :: 0 <= i < |s| ==> s[i] != '\r' && s[i] != '\n'
    ensures Clean(s)
  {
  }

  lemma {:induction false} ThreeClean(a: string, b: string, c: string)
    requires Clean(a) && Clean(b) && Clean(c)
    ensures Clean(a + b + c)
  {
  }

  lemma {:induction false} CirrosDescriptionPieces()
    ensures Clean("CirrOS is a Tiny OS ") && Clean("that specializes in ") && Clean("running on a cloud.")
  {
    hide Clean;
    ShortClean("CirrOS is a Tiny OS ");
    ShortClean("that specializes in ");
    ShortClean("running on a cloud.");
  }

  lemma {:induction false} CirrosDescriptionIs()
    ensures "CirrOS is a Tiny OS that specializes in running on a cloud." ==
            "CirrOS is a Tiny OS " + "that specializes in " + "running on a cloud."
  {
  }

  lemma {:induction false} CirrosDescription()
    ensures Clean("CirrOS is a Tiny OS that specializes in running on a cloud.")
  {
    hide Clean;
    CirrosDescriptionIs();
    CirrosDescriptionPieces();
    ThreeClean("CirrOS is a Tiny OS ", "that specializes in ", "running on a cloud.");
  }

  lemma {:induction false} CirrosKernelPieces()
    ensures Clean("templates/cirros/cir") && Clean("ros-0.3.3-x86_64-ker") && Clean("nel")
  {
    hide Clean;
    ShortClean("templates/cirros/cir");
    ShortClean("ros-0.3.3-x86_64-ker");
    ShortClean("nel");
  }

  lemma {:induction false} CirrosKernelIs()
    ensures "templates/cirros/cirros-0.3.3-x86_64-kernel" ==
            "templates/cirros/cir" + "ros-0.3.3-x86_64-ker" + "nel"
  {
  }

  lemma {:induction false} CirrosKernel()
    ensures Clean("templates/cirros/cirros-0.3.3-x86_64-kernel")
  {
    hide Clean;
    CirrosKernelIs();
    CirrosKernelPieces();
    ThreeClean("templates/cirros/cir", "ros-0.3.3-x86_64-ker", "nel");
  }

  lemma {:induction false} CirrosRootfsPieces()
    ensures Clean("templates/cirros/cir") && Clean("ros-0.3.3-x86_64-roo") && Clean("tfs-non_ec2.img")
  {
    hide Clean;
    ShortClean("templates/cirros/cir");
    ShortClean("ros-0.3.3-x86_64-roo");
    ShortClean("tfs-non_ec2.img");
  }

  lemma {:induction false} CirrosRootfsIs()
    ensures "templates/cirros/cirros-0.3.3-x86_64-rootfs-non_ec2.img" ==
            "templates/cirros/cir" + "ros-0.3.3-x86_64-roo" + "tfs-non_ec2.img"
  {
  }

  lemma {:induction false} CirrosRootfs()
    ensures Clean("templates/cirros/cirros-0.3.3-x86_64-rootfs-non_ec2.img")
  {
    hide Clean;
    CirrosRootfsIs();
    CirrosRootfsPieces();
    ThreeClean("templates/cirros/cir", "ros-0.3.3-x86_64-roo", "tfs-non_ec2.img");
  }

  lemma {:induction false} WheezyRootfsPieces()
    ensures Clean("templates/wheezy/deb") && Clean("ian_wheezy_amd64_sta") && Clean("ndard.qcow2")
  {
    hide Clean;
    ShortClean("templates/wheezy/deb");
    ShortClean("ian_wheezy_amd64_sta");
    ShortClean("ndard.qcow2");
  }

  lemma {:induction false} WheezyRootfsIs()
    ensures "templates/wheezy/debian_wheezy_amd64_standard.qcow2" ==
            "templates/wheezy/deb" + "ian_wheezy_amd64_sta" + "ndard.qcow2"
  {
  }

  lemma {:induction false} WheezyRootfs()
    ensures Clean("templates/wheezy/debian_wheezy_amd64_standard.qcow2")
  {
    hide Clean;
    WheezyRootfsIs();
    WheezyRootfsPieces();
    ThreeClean("templates/wheezy/deb", "ian_wheezy_amd64_sta", "ndard.qcow2");
  }

  lemma {:induction false} FieldsArePrintable(t: Template)
    requires Clean(t.name) && Clean(t.description) && Clean(t.kernelPath) && Clean(t.rootfsPath)
    requires t.name != "" && t.description != "" && t.kernelPath != "" && t.rootfsPath != ""
    ensures t.Printable()
  {
    hide Clean;
  }

  lemma {:induction false} CirrosIsPrintable()
    ensures CIRROS.Printable() && CIRROS.name == "cirros" && Clean("cirros")
  {
    hide Clean, Template.Printable;
    ShortClean("cirros");
    CirrosDescription();
    CirrosKernel();
    CirrosRootfs();
    FieldsArePrintable(CIRROS);
  }

  lemma {:induction false} WheezyIsPrintable()
    ensures WHEEZY.Printable() && WHEEZY.name == "wheezy" && Clean("wheezy")
  {
    hide Clean, Template.Printable;
    ShortClean("wheezy");
    ShortClean("Debian Wheezy AMD64.");
    ShortClean("-none-");
    WheezyRootfs();
    FieldsArePrintable(WHEEZY);
  }

  lemma {:induction false} TwoTemplates(c: Template, w: Template)
    requires c.Printable() && c.name == "cirros" && Clean("cirros") && w.Printable() && w.name == "wheezy"
             && Clean("wheezy")
    ensures TemplatesPrintable(map["cirros" := c, "wheezy" := w])
  {
    hide Clean, Template.Printable;
    assert "cirros" in map["cirros" := c, "wheezy" := w];
  }

  lemma {:induction false} BuiltinIsPrintable()
    ensures TemplatesPrintable(BUILTIN)
  {
    hide Clean, Template.Printable, TemplatesPrintable;
    CirrosIsPrintable();
    WheezyIsPrintable();
    TwoTemplates(CIRROS, WHEEZY);
  }

  // ----- reachable states -----

  lemma {:induction false} LiveIsServable(w: World, s: State)
    requires TemplatesPrintable(w.templates) && LiveOk(w, s)
    ensures Servable(s) && Agreement(s)
  {
    hide Template.Printable, Load;
    forall id | id in s.table ensures s.table[id].id == id && ServableEntry(s.table[id]) {
      assert Matches(s, id);
      LoadInRange(s.dirs[id]);
    }
  }

  /** So whatever happened on the host, the controller can answer every request, and its disk agrees with its table. */
  lemma {:induction false} ReachableIsServable(templates: map<string, Template>, ws: seq<World>, events: seq<Event>)
    requires TemplatesPrintable(templates) && IsHistory(templates, ws, events)
    ensures var w := ws[|events|];
            w.live.Some? ==> Servable(w.live.value) && Agreement(w.live.value)
  {
    hide Step, Enabled, LiveOk, Servable, Agreement;
    RunKeepsInv(templates, ws, events, |events|);
    var w := ws[|events|];
    if w.live.Some? { LiveIsServable(w, w.live.value); }
  }

  /** The state that the constructor ends in can be served, whatever it found on the disk. */
  lemma {:induction false} ScanIsServable(s0: State, names: seq<string>, busy: set<int>)
    requires TemplatesPrintable(s0.templates) && s0.table == map[] && Int32(s0.nextPort)
    requires Int32(Scan(s0, names, busy).state.nextPort)
    ensures Servable(Scan(s0, names, busy).state)
  {
    hide Load, Scan, Template.Printable, SameButPort, Agreement;
    ScanFacts(s0, names, busy);
    var r := Scan(s0, names, busy);
    var seen :| Scanned(s0, r, seen, busy);
    var s := r.state;
    forall id | id in s.table ensures s.table[id].id == id && ServableEntry(s.table[id]) {
      assert RestoredFrom(s0, id, s.table[id], busy, r.ports);
      LoadInRange(s0.dirs[id]);
    }
  }
}
