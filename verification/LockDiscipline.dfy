/**
 Many manager handlers share one socket per controller. Handlers, controllers and the bytes between them are a state
 machine; every step is taken by one thread and looks only at that thread's own position, at the mutex when it takes
 it, and at the bytes it reads. A byte is read at a time, and written bytes arrive in pieces of any size.
 */
module LockDiscipline {
  import opened Framing
  import opened ControllerModel
  import opened Sockets
  import opened Servers

  /** Where a handler stands: outside a locked branch, in the constructor of `ScopedLock`, or inside the branch. */
  datatype Phase =
    | Outside
    | Waiting
    | Holding
    | Sending(to: nat, request: seq<string>, left: string)
    | Awaiting(from: nat, request: seq<string>, got: string)
  {
    predicate Inside() { Holding? || Sending? || Awaiting? }
  }

  /** A recursive mutex. */
  datatype Mutex = Free | Held(who: nat, depth: nat)

  /** A controller's single thread: reading a request, or writing out a reply. */
  datatype ServerPhase = Reading(got: string) | Replying(left: string)

  /** Histories: requests as handlers issued them, as the controller served them, and replies as handlers read them. */
  datatype Issue = Issue(who: nat, request: seq<string>)

  datatype Service = Service(before: State, request: seq<string>, env: Env, names: seq<string>, ids: seq<int>)

  datatype Call = Call(who: nat, request: seq<string>, reply: seq<string>)

  /** One controller and its connection: bytes on the way up to it and down from it. */
  datatype Link = Link(
    up: string, down: string, server: ServerPhase, state: State,
    first: State, issued: seq<Issue>, served: seq<Service>, calls: seq<Call>)

  datatype System = System(mutex: Mutex, threads: seq<Phase>, links: seq<Link>)

  datatype Act =
    | Accept                                        // a client connects: one more handler
    | Arrive(t: nat)                                // a handler reaches the lock
    | Lock(t: nat)
    | Unlock(t: nat)
    | Ask(t: nat, c: nat, request: seq<string>)     // a proxy operation begins
    | Write(t: nat, n: nat)                         // some bytes of the request go out
    | Read(t: nat)                                  // one byte of the reply comes in
    | Finish(t: nat)                                // the reply is complete
    | ServerRead(c: nat)
    | ServerAnswer(c: nat, env: Env, names: seq<string>, ids: seq<int>, writeCount: int)
    | ServerWrite(c: nat, n: nat)

  ghost predicate Enabled(w: System, a: Act) {
    match a
    case Accept => true
    case Arrive(t) => t < |w.threads| && w.threads[t].Outside?
    case Lock(t) => t < |w.threads| && w.threads[t].Waiting? && (w.mutex.Free? || w.mutex.who == t)
    case Unlock(t) => t < |w.threads| && w.threads[t].Holding? && w.mutex.Held? && w.mutex.depth > 0
    case Ask(t, c, request) =>
      t < |w.threads| && w.threads[t].Holding? && c < |w.links| && Sendable(request)
    case Write(t, n) =>
      && t < |w.threads| && w.threads[t].Sending? && w.threads[t].to < |w.links|
      && 0 < n <= |w.threads[t].left|
    case Read(t) =>
      && t < |w.threads| && w.threads[t].Awaiting? && w.threads[t].from < |w.links|
      && !HasFrame(w.threads[t].got) && w.links[w.threads[t].from].down != ""
    case Finish(t) =>
      && t < |w.threads| && w.threads[t].Awaiting? && w.threads[t].from < |w.links|
      && HasFrame(w.threads[t].got)
    case ServerRead(c) =>
      && c < |w.links| && w.links[c].server.Reading? && !HasFrame(w.links[c].server.got) && w.links[c].up != ""
    case ServerAnswer(c, env, names, ids, _) =>
      && c < |w.links| && w.links[c].server.Reading? && HasFrame(w.links[c].server.got)
      && CanServe(Service(w.links[c].state, FrameLines(w.links[c].server.got), env, names, ids))
    case ServerWrite(c, n) =>
      && c < |w.links| && w.links[c].server.Replying? && 0 < n <= |w.links[c].server.left|
  }

  /** What a proxy may write: lines as they come out of a frame, at least one. */
  predicate Sendable(request: seq<string>) {
    request != [] && forall i :: 0 <= i < |request| ==> Clean(request[i])
  }

  /** The request does not kill the controller, its maps are visited in full, and its ports stay in range. */
  predicate CanServe(v: Service) {
    && WellFormedRequest(v.request) && Visits(v.before, v.request, v.names, v.ids)
    && Decimal.Int32(Serve(v.before, v.request, v.env, v.names, v.ids).state.nextPort)
  }

  function ServedBy(v: Service): Served
    requires CanServe(v)
  { Serve(v.before, v.request, v.env, v.names, v.ids) }

  function SetThread(w: System, t: nat, p: Phase): System
    requires t < |w.threads|
  { w.(threads := w.threads[t := p]) }

  function SetLink(w: System, c: nat, l: Link): System
    requires c < |w.links|
  { w.(links := w.links[c := l]) }

  ghost function Step(w: System, a: Act): System
    requires Enabled(w, a)
  {
    match a
    case Accept => w.(threads := w.threads + [Outside])
    case Arrive(t) => SetThread(w, t, Waiting)
    case Lock(t) =>
      SetThread(w, t, Holding).(mutex := if w.mutex.Free? then Held(t, 1) else Held(t, w.mutex.depth + 1))
    case Unlock(t) =>
      SetThread(w, t, Outside).(mutex := if w.mutex.depth == 1 then Free else Held(w.mutex.who, w.mutex.depth - 1))
    case Ask(t, c, request) =>
      var l := w.links[c];
      SetLink(SetThread(w, t, Sending(c, request, Encode(request))), c, l.(issued := l.issued + [Issue(t, request)]))
    case Write(t, n) =>
      var p := w.threads[t];
      var l := w.links[p.to];
      SetLink(SetThread(w, t, if n == |p.left| then Awaiting(p.to, p.request, "") else p.(left := p.left[n..])),
              p.to, l.(up := l.up + p.left[..n]))
    case Read(t) =>
      var p := w.threads[t];
      var l := w.links[p.from];
      SetLink(SetThread(w, t, p.(got := p.got + [l.down[0]])), p.from, l.(down := l.down[1..]))
    case Finish(t) =>
      var p := w.threads[t];
      var l := w.links[p.from];
      SetLink(SetThread(w, t, Holding), p.from, l.(calls := l.calls + [Call(t, p.request, FrameLines(p.got))]))
    case ServerRead(c) =>
      var l := w.links[c];
      SetLink(w, c, l.(server := Reading(l.server.got + [l.up[0]]), up := l.up[1..]))
    case ServerAnswer(c, env, names, ids, writeCount) =>
      var l := w.links[c];
      var v := Service(l.state, FrameLines(l.server.got), env, names, ids);
      SetLink(w, c, l.(server := Replying(ReplyBytes(writeCount, ServedBy(v).lines)),
                       state := ServedBy(v).state, served := l.served + [v]))
    case ServerWrite(c, n) =>
      var l := w.links[c];
      SetLink(w, c, l.(server := if n == |l.server.left| then Reading("") else Replying(l.server.left[n..]),
                       down := l.down + l.server.left[..n]))
  }

  /** The manager has just connected to its controllers. */
  function Start(states: seq<State>): System {
    var links := seq(|states|, c requires 0 <= c < |states| =>
      Link("", "", Reading(""), states[c], states[c], [], [], []));
    System(Free, [], links)
  }

  /** The `i`-th act takes one system to the next. */
  ghost predicate Follows(ws: seq<System>, acts: seq<Act>, i: nat)
    requires |ws| == |acts| + 1 && i < |acts|
  {
    Enabled(ws[i], acts[i]) && ws[i + 1] == Step(ws[i], acts[i])
  }

  /** One interleaving of handlers and controllers: the systems that a list of acts passes through. */
  ghost predicate IsInterleaving(states: seq<State>, ws: seq<System>, acts: seq<Act>) {
    && (forall c :: 0 <= c < |states| ==> Servable(states[c]))
    && |ws| == |acts| + 1 && ws[0] == Start(states)
    && forall i: nat :: i < |acts| ==> Follows(ws, acts, i)
  }

  /** Every request reads back as it was written: no line after the first is empty, and it is not one empty line. */
  predicate LegalAsks(acts: seq<Act>) {
    forall i :: 0 <= i < |acts| && acts[i].Ask? ==> WellFormed(acts[i].request)
  }

  // ----- the invariant -----

  /**
   The controller served the requests in the order in which they were issued, and the i-th reply that a handler read
   is the controller's answer to the i-th request, which that same handler wrote.
   */
  ghost predicate Matched(l: Link) {
    && |l.calls| <= |l.served| <= |l.issued|
    && (forall i :: 0 <= i < |l.served| ==>
          CanServe(l.served[i]) && Servable(l.served[i].before) && l.served[i].request == l.issued[i].request)
    && (forall i :: 0 <= i < |l.calls| ==>
          l.calls[i] == Call(l.issued[i].who, l.issued[i].request, Decoded(ServedBy(l.served[i]).lines)))
  }

  /** The controller's state is the first one after all services so far, one after the other. */
  ghost predicate Chained(l: Link)
    requires Matched(l)
  {
    && (l.served == [] ==> l.state == l.first)
    && (l.served != [] ==> l.served[0].before == l.first && l.state == ServedBy(l.served[|l.served| - 1]).state)
    && (forall i, j :: 0 <= i && j == i + 1 < |l.served| ==> l.served[j].before == ServedBy(l.served[i]).state)
  }

  /** What the holder of the mutex is doing on one link. */
  datatype Use =
    | Unused
    | Requesting(who: nat, request: seq<string>, left: string)
    | Expecting(who: nat, request: seq<string>, got: string)

  /** Nothing in flight: the controller waits for a request. */
  predicate Quiet(l: Link) {
    && l.up == "" && l.down == "" && l.server == Reading("")
    && |l.calls| == |l.served| == |l.issued|
  }

  /** A request is on its way: part of it read, part in flight, part still to be written. */
  ghost predicate Upward(l: Link, who: nat, request: seq<string>, left: string) {
    && l.server.Reading? && l.down == "" && WellFormed(request)
    && l.server.got + (l.up + left) == Encode(request)
    && |l.issued| == |l.served| + 1 == |l.calls| + 1 && l.issued[|l.served|] == Issue(who, request)
  }

  /** A reply is on its way. */
  ghost predicate Downward(l: Link, who: nat, request: seq<string>, got: string)
    requires Matched(l)
  {
    && l.up == "" && |l.issued| == |l.served| == |l.calls| + 1 && l.issued[|l.calls|] == Issue(who, request)
    && (match l.server case Reading(s) => s == "" case Replying(left) => left != "")
    && var lines := ServedBy(l.served[|l.calls|]).lines;
       OneFrame(lines) && got + (l.down + (if l.server.Replying? then l.server.left else "")) == Encode(lines)
  }

  ghost predicate LinkOk(l: Link, use: Use) {
    && Servable(l.state) && Matched(l) && Chained(l)
    && match use
       case Unused => Quiet(l)
       case Requesting(t, r, left) => left != "" && Upward(l, t, r, left)
       case Expecting(t, r, got) => (got == "" && Upward(l, t, r, "")) || Downward(l, t, r, got)
  }

  function UseOf(w: System, c: nat): Use {
    if w.mutex.Free? || w.mutex.who >= |w.threads| then Unused
    else
      match w.threads[w.mutex.who]
      case Sending(d, r, left) => if c == d then Requesting(w.mutex.who, r, left) else Unused
      case Awaiting(d, r, got) => if c == d then Expecting(w.mutex.who, r, got) else Unused
      case _ => Unused
  }

  /** A handler is inside its locked branch exactly while it owns the mutex. */
  predicate MutexOk(w: System) {
    && (w.mutex.Held? ==> w.mutex.who < |w.threads| && w.mutex.depth == 1)
    && (forall t :: 0 <= t < |w.threads| ==> (w.threads[t].Inside() <==> w.mutex.Held? && w.mutex.who == t))
  }

  /** Handlers talk to controllers that exist. */
  predicate PlacesOk(w: System) {
    forall t :: 0 <= t < |w.threads| ==>
      && (w.threads[t].Sending? ==> w.threads[t].to < |w.links|)
      && (w.threads[t].Awaiting? ==> w.threads[t].from < |w.links|)
  }

  ghost predicate Inv(w: System) {
    && MutexOk(w) && PlacesOk(w)
    && (forall c :: 0 <= c < |w.links| ==> LinkOk(w.links[c], UseOf(w, c)))
  }
}
