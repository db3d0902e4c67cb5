# A small virtual-machine cloud, verified

Clients talk to a manager, the manager talks to controllers, and every controller keeps virtual machines in a table
and in a working directory. This project models the three connected parts in which that can go wrong, and proves what
they promise. `dafny verify dfyconfig.toml` checks all of it.

**The wire.** `Framing` says what a byte stream means as a whole: drop every carriage return, cut at the first blank
line, split at newlines. `SocketIstreams` is the machine that reads it one character at a time with one character of
lookahead, driven by `std::getline` as sections 21.4.8.9, 27.6.3.2.3 and 27.6.3.4.3 of ISO/IEC 14882:2014 describe it;
`Sockets` reads and writes frames with it. `Decimal` is `to_string`, `stoi` and `istream >> int` on 32-bit ints,
`Records` the fixed-size records that travel in a frame and the maps they are cut back into.

**The controller.** `ControllerModel` gives each operation as a function from a state to a state, together with every
content the disk goes through on the way and the ports it issues; `Controllers` is the class with its loops, table
objects, processes and cookies, proved against those functions. `ScanTheorems` is about the directory scan at start,
`Lifetimes` about whole runs of a host on which the controller may be killed between any two disk writes.
`OptionPorts` is about the one port that is fixed when an instance's process object is made. `Servers` and
`ControllerServers` answer requests, `ControllerProxies` is the caller's side of the same connection, and
`Reachability` shows that every state a run can reach is one the server side can answer for.

**The manager.** `Placement` is the round-robin loop and its fairness, `Clusters` and `ClusterTheorems` full ids,
routing and the union of the listings. `Managers` is the handler with its loops and its -100 sentinel, calling proxy
objects whose connections lead to controller objects, so that one turn of it runs the whole stack down to bytes and
cookies; `ManagerTheorems` is what one request, and any number of them, do to the cluster, `Answers` what stands in
each line of every answer, and `TemplateShares` how the instances of one template spread. `LockDiscipline` and
`LockTheorems` let any number of handlers share the controllers' sockets byte by byte under the mutex, sending what
they like, and `Progress` shows that their replies arrive; in `Sessions` and `Serial` the handlers run the manager's
own branches there, `SessionTheorems` and `SerialTheorems` show that together they do what they would do one after the
other, and `SerialGrowth` that placement then is as fair as it is for one client; `SerialProgress` rules out deadlock.
`EmptyIds` is the one client request that breaks this, and `Stacks` puts a whole cloud of objects together.

The parts meet in a few results: a proxy's map of instances is the controller's real table
(`ControllerProxies.ControllerProxy.GetInstances`), also when other handlers compete for the socket
(`LockTheorems.ConcurrentListing`); the client's map is the disjoint union of all tables
(`ManagerTheorems.ClientListing`); a full id that came out of either leads back to its instance
(`ManagerTheorems.Placed`, `ManagerTheorems.RunThroughManager`).

Five things the code does not do for every input are stated exactly, each with an input on which it fails:

- A message reads back as it was written if and only if no line after the first is empty and it is not a single empty
  line (`FramingTheorems.RoundTrip`); what is read instead, and what stays in the stream, is
  `FramingTheorems.ReadBack`.
- `send()` without a line is a frame only as the very first output of a connection (`Sockets.BareSend`), so the
  manager's listing of nothing reaches a client if and only if nothing was sent to that client before
  (`ManagerTheorems.ManagerAnswers`). The controller avoids this with an explicit empty line (`Servers.ServeTotal`).
- `run` and `kill` with a full id that ends in its slash make the manager write something that is no request: what it
  forwards reads back as written if and only if there is text after the slash (`EmptyIds.ForwardedId`). For the empty
  id the controller reads the command alone and two bytes stay in the stream; `EmptyIds.EmptyIdBlocks` is a run that
  ends so, and `EmptyIds.BlockedForEver` shows that if the controller does not survive that, the mutex is never
  released. Every other request of the manager is legal (`SerialTheorems.HandlersAskLegally`).
- After `run` has replaced a port, QEMU is still started on the old one, which was fixed when the process object was
  made. `ControllerTheorems.RunOptionPort` says exactly when the two agree after one call. An entry never comes back
  to its first port if and only if that port is not above `nextPort + 1` while the entry stands there, or not above
  `nextPort` once it stands elsewhere: for repeated calls in any state (`OptionPorts.StaysApart`) and for every entry
  and every continuation of a run (`OptionPorts.MayReturn`). `OptionPorts.OptionPortCanReturn` is a run from an empty
  directory in which an entry comes back.
- Placement is fair in total among controllers that have the same templates (`ManagerTheorems.FairGrowth`, and
  `SerialGrowth.FairInEveryRun` for concurrent clients), but not for each template by itself. Where every controller
  has each template asked for, or none has, turns go round with every granted request, and what a controller gains of
  a template is the number of its requests that come at that controller's turns (`TemplateShares.GrowthIsShare`). So
  placement is fair for one template if and only if those numbers differ by at most one
  (`TemplateShares.FairPerTemplate`), which the list of requests and `nextController` decide. When as many templates
  as there are controllers are asked for in turn, all new instances of each go to one controller
  (`TemplateShares.InTurnIsUnfair`), which is unfair from the second round on.

What the operating system decides is a parameter of an operation: the busy ports, the pids that are alive, the pid
that `fork` returns, the order in which a directory is listed, and the order in which a map is visited (any order that
visits every key once). Premises about 32-bit range speak of the state after the operation: no counter has left it.

## Model

| member | source | states |
|---|---|---|
| Decimal.ConvertToString | src/Vm/InstanceInfo.hpp:59-79 | converting the text of any integer gives it back and stops at the first non-digit, whatever follows |
| Decimal.StoiOfToString | src/Vm/InstanceInfo.hpp:59-79 | `stoi` of `to_string` is the number on every 32-bit int including the minimum, and `out_of_range` on every other integer |
| Decimal.DecimalRoundTrip | src/Util/Cookie.hpp:21-33 | both `stoi` and a numeric cookie read give a number back exactly when it is a 32-bit int; a cookie read gives the nearer limit for any other |
| Decimal.ConvertsExactly | src/Vm/InstanceInfo.hpp:70-79 | a text is a number exactly if it has blanks, an optional sign and at least one digit in front, and then it is the base-ten value of the longest run of digits, whatever follows |
| Decimal.NoDigitNoNumber | src/controller.cpp:109-127 | a text without a digit converts to nothing: `stoi` throws, and a numeric cookie reads as 0 |
| Decimal.ToStringIsNumeral | src/Vm/InstanceInfo.hpp:59-68 | `to_string` writes a sign only for a negative number, then its base-ten digits without leading zeros |
| Decimal.Injective | src/Vm/InstanceInfo.hpp:63-66 | distinct ints have distinct text, so decimal keys never collide |
| Decimal.TextIsPlain | src/Vm/InstanceInfo.hpp:63-66 | the text of a number is a legal non-empty frame line and holds no slash |
| FramingTheorems.FrameShape | src/Net/SocketIstream.hpp:41-62 | a frame is its text and one blank line, ends on the second newline of that line, and no earlier blank line exists in it |
| FramingTheorems.FrameExtend | src/Net/SocketIstream.hpp:41-62 | bytes after a complete frame change neither its text nor its length; they are what is left after reading it |
| FramingTheorems.FrameOfMessage | src/Net/Socket.hpp:77-106 | a legal message followed by anything is read as that message, and the bytes left are exactly what followed |
| FramingTheorems.ReadBack | src/Net/Socket.hpp:77-106 | for any clean lines: the reader gets those before the first inner empty line, and the lines after it stay in the stream as a message of their own |
| FramingTheorems.RoundTrip | src/Net/Socket.hpp:88-106 | clean lines read back as themselves if and only if every line after the first is non-empty and they are not one empty line; then nothing is left over |
| FramingTheorems.ParsedIsWellFormed | src/Net/Socket.hpp:77-86 | whatever `read` returns from any byte stream is empty or is a message that reads back as itself, so it may be echoed |
| FramingTheorems.FrameStream | src/Net/Socket.hpp:77-106 | any sequence of well-formed messages on one stream comes out one per `read`, in order, with the rest untouched |
| FramingTheorems.LinesEndInCrLf | src/Net/Socket.hpp:95-106 | on the wire every line of a message ends in CR LF, there is no CR or LF outside such a pair, and the message ends in two pairs |
| FramingTheorems.NoEarlyFrame | src/Net/SocketIstream.hpp:41-62 | no proper prefix of a message is a frame: a reader waits for its last byte and never stops short |
| SocketIstreams.SocketStreambuf.constructor | src/Net/SocketIstream.hpp:32-39 | after construction the buffer shows the first two characters of the stripped stream and has read exactly the bytes for them |
| SocketIstreams.SocketStreambuf.Peek | src/Net/SocketIstream.hpp:41-54 | the loop returns the first character that is no carriage return and consumes exactly the bytes through it |
| SocketIstreams.SocketStreambuf.Next | src/Net/SocketIstream.hpp:56-62 | the lookahead moves by one, and the end-of-stream flag is set exactly on the first blank line |
| SocketIstreams.SocketStreambuf.Underflow | src/Net/SocketIstream.hpp:64-68 | shows the next character of the frame text, or end of file exactly when none is left |
| SocketIstreams.SocketStreambuf.Uflow | src/Net/SocketIstream.hpp:70-79 | takes one character but reports the last one of the text as end of file although it was shown before |
| SocketIstreams.SocketStreambuf.Snextc | src/Net/SocketIstream.hpp:64-79 | takes one character and shows the one after it, or end of file when that was the last |
| SocketIstreams.SocketIstream.GetLine | src/Net/Socket.hpp:82-83 | `std::getline` returns the next line of the newline split, or fails exactly when none is left |
| Sockets.Socket.Read | src/Net/Socket.hpp:77-86 | on any stream that holds a frame: the lines are the newline split of the text before the first blank line (none for empty text), and exactly the bytes through its second newline are consumed |
| Sockets.Socket.WriteLine | src/Net/Socket.hpp:95-100 | appends the line and CRLF, counts it, and keeps "the counter is zero exactly when nothing was ever written" |
| Sockets.Socket.WriteLines | src/Net/Socket.hpp:88-93 | appends all lines in order and counts each one twice |
| Sockets.Socket.Send | src/Net/Socket.hpp:102-106 | closes with one blank line, or with two on a connection that never wrote anything |
| Sockets.BareSend | src/Net/Socket.hpp:102-106 | `send()` alone is one (empty) frame if and only if nothing was ever written |
| Sockets.LateBareSend | src/Net/Socket.hpp:102-106 | later it delivers no frame: it becomes a leading empty line of the next message, or cuts off that message's own leading empty line |
| Sockets.ReplyIsEncode | src/Net/Socket.hpp:88-106 | the bytes of a reply that has a line do not depend on earlier traffic |
| Records.InstanceRoundTrip | src/Vm/InstanceInfo.hpp:59-79 | a six-line record reads back as itself exactly when its three numbers are 32-bit ints |
| Records.InstancesRoundTrip | src/Vm/ControllerProxy.hpp:63-66 | records printed one after the other and cut into pieces of six lines come back, all of them and in order |
| Records.TemplatesRoundTrip | src/Vm/ControllerProxy.hpp:48-51 | the same for templates and pieces of four lines |
| Records.IndexKeys | src/Vm/ControllerProxy.hpp:61-66 | the map built from records has exactly their keys |
| Records.IndexLast | src/Vm/ControllerProxy.hpp:61-66 | under a key it holds the last record with that key |
| Records.IndexSize | src/Vm/ControllerProxy.hpp:61-66 | records with distinct keys all survive |
| ControllerModel.LeastFree | src/Vm/Controller.hpp:73-81 | the least number at or above the base that is not taken; the search ends because the taken numbers above it shrink |
| ControllerTheorems.ClaimPortFacts | src/Vm/Controller.hpp:257-263 | a port is replaced exactly when it is taken, by the least free one strictly above every port issued before; its cookie follows and nothing else on the disk changes |
| ControllerTheorems.LoadFacts | src/Util/Cookie.hpp:25-44 | any directory can be restored from exactly if it has all five files; the template is the first line of its file and the numbers are read from theirs |
| ControllerTheorems.WriteFacts | src/Util/Cookie.hpp:20-23 | a cookie write makes no directory, replaces that one file, and is read back |
| ControllerTheorems.RestoreFacts | src/Vm/Controller.hpp:216-303 | an entry appears exactly for a directory with five cookies and a known template; its fields are the cookies', the port is kept if free, else the least free one above all issued, also for an unknown template; only its own port cookie may change, and each outcome has its exact cause |
| ControllerTheorems.CreateWritesFacts | src/Vm/Controller.hpp:197-211 | of the six successive disks of `instantiate` only the last can be restored: `.pid` commits, with the text 0, and then the cookies are the request |
| ControllerTheorems.InstantiateFacts | src/Vm/Controller.hpp:191-214 | succeeds for a known template, hands out the least new id without directory or entry and the least free port above all issued (twice if that is taken meanwhile), adds exactly one entry that is the request, and keeps disk and table in agreement |
| ControllerTheorems.RunFacts | src/Vm/Controller.hpp:144-172 | succeeds exactly for a known instance without a live process, moves its port exactly when it is taken, to the least free one above all issued, changes only that entry, records the new pid, keeps agreement and all recorded metadata |
| ControllerTheorems.RunTwice | src/Vm/Controller.hpp:144-189 | after a successful `run` the next one fails, and changes nothing, exactly if the first one's child is still alive; the next `kill` signals that child and nobody else |
| ControllerTheorems.KillFacts | src/Vm/Controller.hpp:174-189 | `kill` succeeds exactly for a known instance, running or not, and signals exactly that instance's process, if it is alive |
| ControllerTheorems.RunOptionPort | src/Vm/Controller.hpp:159-169 | after any `run` the port given to QEMU equals the entry's if and only if a free port already did, or a taken one is replaced by exactly the option's port as the next free one |
| ScanTheorems.ScanFacts | src/Vm/Controller.hpp:119-131 | a scan ends early exactly at a name out of range; otherwise the table is every restorable directory named, with its recorded fields, new ports distinct, and the disk changed in replaced port cookies only |
| ScanTheorems.ScanOrderIndependence | src/Vm/Controller.hpp:119-131 | two listings in any order, with any repeated or foreign names between, restore the same ids with the same fields and cookies except for ports that had to be reassigned, and issue the same ports, so that `nextPort` ends the same |
| LifetimeTheorems.StepKeepsInv | src/Vm/Controller.hpp:90-303 | start, instantiate, run and kill, each possibly cut off after any number of its disk writes, keep the invariant of disk, table, ids and ports |
| LifetimeTheorems.IdsNeverReused | src/Vm/Controller.hpp:191-214 | over every run with restarts and crashes no directory id is created twice; within a lifetime ids strictly increase |
| LifetimeTheorems.PortsOverARun | src/Vm/Controller.hpp:78-81 | over every run a lifetime issues strictly increasing ports, and two entries share a port only if one of them still has the port it kept at restart |
| LifetimeTheorems.DiskAndTableAgree | src/Vm/Controller.hpp:207-213 | over every run the live table is exactly the completed instances, each equal to its cookies and to the request that made it |
| LifetimeTheorems.OptionPortsOverARun | src/Vm/Controller.hpp:159-169 | over every run QEMU's port is the entry's unless `run` moved it since the last start, and below it for good if the first port was not above the next one to issue when it was moved, as for every entry that did not keep a recorded port |
| OptionPorts.StaysApart | src/Vm/Controller.hpp:159-169 | in any state, however often an instance is started and with whatever ports taken, a move never ends on its first port if and only if that is not above the next port to issue (at most `nextPort` once it stands elsewhere) |
| OptionPorts.MayReturn | src/Vm/Controller.hpp:159-169 | for any entry of the live controller in any run, some continuation of that lifetime finds it elsewhere and then back on its first port if and only if that port is above `nextPort`, or above `nextPort + 1` if the entry stands there now |
| OptionPorts.OptionPortCanReturn | src/Vm/Controller.hpp:113-171 | a run from an empty directory (start, create, crash, start, run, run) after which a moved entry stands on its first port again |
| LifetimeTheorems.CrashRecovery | src/Vm/Controller.hpp:113-131 | after any run cut off anywhere, the next start restores exactly the instances whose `.pid` was written, with the fields of their requests and the recorded port wherever it is free; half-made directories are skipped; it fails exactly on a name out of range |
| Controllers.Controller.constructor | src/Vm/Controller.hpp:90-132 | the constructor's state, success and sequence of disk contents are those of the scan from the empty table |
| Controllers.Controller.LoadInstances | src/Vm/Controller.hpp:119-131 | the directory loop, skipping names that are no numbers and stopping where `stoi` throws out of range, is the scan |
| Controllers.Controller.FindNextId | src/Vm/Controller.hpp:73-76 | the loop returns the least id at or above its base with neither a directory nor an entry |
| Controllers.Controller.FindNextPort | src/Vm/Controller.hpp:78-81 | the loop returns the least free port strictly above its base |
| Controllers.Controller.ClaimSshPort | src/Vm/Controller.hpp:257-263 | the port step that `restore` and `run` share: the state, the port and the disk writes are those of the specification |
| Controllers.Controller.RestoreInstance | src/Vm/Controller.hpp:216-303 | every outcome of `restore` with its state and writes; the object returned is the one in the table, and an old entry is returned as it is |
| Controllers.Controller.CreateDirectory | src/Vm/Controller.hpp:197-211 | the directory and its five cookies are written in the order whose last step is `.pid` |
| Controllers.Controller.InstantiateInstance | src/Vm/Controller.hpp:191-214 | `instantiate` ends in the specified state after exactly the specified disk contents |
| Controllers.Controller.RunInstance | src/Vm/Controller.hpp:144-172 | `run` changes table, process, cookies and `nextPort` as specified and touches no other object; it succeeds exactly for a known instance without a live process, and then holds and records the pid of the child |
| Controllers.Controller.KillInstance | src/Vm/Controller.hpp:174-189 | false exactly for an unknown id; the signal goes to the instance's own process, and only if that is alive |
| Controllers.Instance.GetInstanceInfo | src/Vm/Instance.hpp:67-76 | the record has the id in decimal, the name of the template, memory, cpus and port of the instance, and says that it runs exactly if its process is alive |
| Servers.EchoIsLegal | src/controller.cpp:92-106 | a record parsed from a request that `read` returned can be sent back as lines of a frame |
| Servers.ServeInstantiateFacts | src/controller.cpp:83-107 | for a known template it never fails: one more entry with the requested template, memory and cpus, and the answer is its record in all fields; otherwise the answer is the request and nothing changes |
| Servers.ServeTotal | src/controller.cpp:63-134 | for every well-formed request, state and earlier traffic the answer is exactly one frame, which reads back as the lines written, and the next request finds a servable state |
| ControllerServers.ControllerServer.WriteTemplates | src/controller.cpp:70-73 | the loop writes every template's record once, in the order of the map |
| ControllerServers.ControllerServer.WriteInstances | src/controller.cpp:79-80 | the loop writes every instance's record once, in the order of the table |
| ControllerServers.ControllerServer.Answer | src/controller.cpp:70-131 | each branch changes the controller and writes the lines that the specification of the server says |
| ControllerServers.ControllerServer.HandleRequest | src/controller.cpp:63-134 | one turn of the loop consumes one request frame and appends one reply to the stream, with the specified new state |
| Reachability.ReachableIsServable | src/controller.cpp:156-169 | after any restarts and crashes a running controller is in a state from which every request can be answered, with disk and table in agreement |
| Reachability.BuiltinIsPrintable | src/Vm/Controller.hpp:96-108 | the two templates that the constructor installs are named as their keys and every field of them can be a line of a frame |
| Reachability.ScanIsServable | src/Vm/Controller.hpp:113-131 | whatever the constructor found on the disk, the state it ends in can be served |
| Stacks.Connect | src/controller.cpp:155-164 | a started controller, its server and a proxy connected to it make a proxy with nothing under way, on the state that the scan left |
| Stacks.ConnectAll | src/manager.cpp:247-263 | any number of them, each on its own disk, make a manager of exactly that cluster that can handle requests |
| ControllerProxies.IndexIsListing | src/Vm/ControllerProxy.hpp:56-69 | the map built from a table's records, in any order, has one record per instance under the decimal of its id, with its template name, memory, cpus, port and whether its process is alive |
| ControllerProxies.IndexIsTemplates | src/Vm/ControllerProxy.hpp:41-54 | the map built from the templates' records, in any order, is the controller's own map |
| ControllerProxies.InstantiateReply | src/Vm/ControllerProxy.hpp:71-78 | the answer to `instantiate` is one record that reads back as what the controller granted |
| ControllerProxies.BoolReply | src/Vm/ControllerProxy.hpp:80-96 | the answer to `run` reads back as true exactly for the number of an instance without a live process, that to `kill` exactly for the number of any instance |
| ControllerProxies.ControllerProxy.Exchange | src/Vm/ControllerProxy.hpp:43-44 | one request over two byte queues is served once, its reply is read in full, and both queues are empty again |
| ControllerProxies.ControllerProxy.GetTemplates | src/Vm/ControllerProxy.hpp:41-54 | the loop over pieces of four lines returns the controller's map of templates |
| ControllerProxies.ControllerProxy.GetInstances | src/Vm/ControllerProxy.hpp:56-69 | the loop over pieces of six lines returns exactly one record per instance of the controller, keyed by the decimal of its id, with its template name, memory, cpus, port and whether its process is alive |
| ControllerProxies.ControllerProxy.Instantiate | src/Vm/ControllerProxy.hpp:71-78 | the controller carries out the request once; the record returned is that of the one new instance, with the template, memory and cpus asked for, or the request if the template is unknown |
| ControllerProxies.ControllerProxy.Run | src/Vm/ControllerProxy.hpp:80-87 | the controller runs the instance once; the result is true exactly for the number of an instance without a live process |
| ControllerProxies.ControllerProxy.Kill | src/Vm/ControllerProxy.hpp:89-96 | the result is true exactly for the number of an instance the controller has; its state does not change |
| Placement.PlaceVisits | src/manager.cpp:135-160 | so many turns look at exactly so many controllers after `nextController`, each once and nearest first, and stop at the first that offers the template |
| Placement.FullLap | src/manager.cpp:135-165 | a lap succeeds exactly when someone offers the template, then picks the nearest; an unsuccessful lap leaves `nextController` at its old value, for every number of controllers including zero |
| Placement.FairPlacement | src/manager.cpp:129-166 | over any requests for one template mixed with any that nobody can serve, two controllers that offer it are chosen equally often up to one |
| Placement.EachOncePerBlock | src/manager.cpp:129-166 | from any starting point, a block of as many successes as there are offering controllers hits each of them exactly once |
| Placement.RequestsSplit | src/manager.cpp:129-166 | a run of requests may be cut anywhere: the rest goes on from the `nextController` that the first part left |
| Placement.EachOnceInAnyBlock | src/manager.cpp:129-166 | so any such block in the middle of a run hits each offering controller exactly once |
| Clusters.ExtractUndoesMake | src/manager.cpp:75-83 | splitting a full id at the first slash undoes `makeFullId` if and only if the server name has no slash |
| Clusters.FullIdsDistinct | src/manager.cpp:75-77 | full ids of instances are equal only for the same server name and the same id |
| Clusters.RouteIsExact | src/manager.cpp:177-185 | a full id reaches the controller it was made for, with the id text intact, if and only if that name has no slash and no earlier controller shares it |
| Clusters.RoutingReachesOrigin | src/manager.cpp:177-185 | with distinct slash-free names every full id leads back to its controller, and the text there parses to its id |
| Clusters.RouteIs | src/manager.cpp:79-83 | any text goes to the controller and id it names, cut at its first slash, a text without slash naming both with all of it, and to no controller if it names none |
| Clusters.RunAnswers | src/manager.cpp:168-193 | `run` on any text is answered 1, and that instance is run, exactly if it names a controller and there the number of an instance without live process; else 0, and nothing changes |
| Clusters.KillAnswers | src/manager.cpp:195-220 | `kill` on any text is answered 1 exactly if it names a controller and there the number of an instance, else 0 |
| Clusters.NoSlash | src/manager.cpp:79-83 | a text without slash is name and id at once; if it is no number, `run` and `kill` answer 0 and change nothing |
| Clusters.RunReachesInstance | src/manager.cpp:168-220 | `run` and `kill` on a full id act on that instance of that controller, answer 1 exactly if it has no live process or, for `kill`, exists, and leave all other controllers alone |
| ClusterTheorems.GatheredIsAll | src/manager.cpp:116-127 | the records the manager gathers are those of every instance of every controller, each exactly once |
| ClusterTheorems.Aggregation | src/manager.cpp:116-127 | the client's map has as many entries as all tables together, and under each full id the record has that id and template name, memory, cpus, port and liveness of the original |
| ClusterTheorems.AggregationOrigin | src/manager.cpp:116-127 | and every key of it is the full id of some instance |
| ClusterTheorems.AggregationArrives | src/manager.cpp:116-127 | that answer is one frame if and only if there is an instance or nothing was sent to the client before, and then parses back to the gathered records |
| ClusterTheorems.TemplatesUnion | src/manager.cpp:106-114 | the client's map of templates is the union of the controllers' maps, the later controller winning on a shared name |
| Managers.CommandHandler.WriteTemplates | src/manager.cpp:106-114 | the nested loops write the templates of all controllers in order |
| Managers.CommandHandler.WriteInstances | src/manager.cpp:116-127 | the nested loops write every instance of all controllers in order, under full ids |
| Managers.CommandHandler.TryNext | src/manager.cpp:139-158 | one turn asks exactly the next controller: if that has the template it gets the request, and one record under its full id is written; otherwise nothing changes and nothing is written |
| Managers.CommandHandler.AnswerInstantiate | src/manager.cpp:129-166 | the loop with its sentinel writes exactly one record, either the granted instance under its full id or the request, and leaves the cluster and `nextController` as placement says |
| Managers.CommandHandler.FindController | src/manager.cpp:179-185 | the search loop finds the first controller of a name, or runs off the end exactly when there is none |
| Managers.CommandHandler.AnswerRun | src/manager.cpp:168-193 | for a full id with text after its slash, or none, or an unknown name: the first controller of the name before the slash is asked, at most one, and the answer is 0 for an unknown one or a missing id |
| Managers.CommandHandler.AnswerKill | src/manager.cpp:195-220 | the same for `kill`, with no change to any controller |
| Managers.CommandHandler.HandleRequest | src/manager.cpp:99-228 | one turn of the loop consumes one request frame, changes cluster and `nextController` as specified, and appends one reply |
| ManagerTheorems.NotPlaced | src/manager.cpp:161-165 | the request comes back, with nothing changed, if and only if no controller has the template |
| ManagerTheorems.Placed | src/manager.cpp:137-160 | otherwise the nearest controller that has it gains exactly one instance with the requested memory and cpus under an id it never had, all others keep their state, the answer has every field of it and its full id, and that id routes back to it |
| ManagerTheorems.FairGrowth | src/manager.cpp:129-166 | over any real requests for templates that the same controllers have, in any mix, and any that nobody can serve, the numbers of new table entries on two of those controllers differ by at most one |
| TemplateShares.TakeTurns | src/manager.cpp:129-166 | any number of controllers take strict turns, whatever templates are asked for, as long as all have each of them or none has: `nextController` advances once per granted request |
| TemplateShares.GrowthIsShare | src/manager.cpp:129-166 | over such requests, the entries of one template in a controller's table grow by exactly the number of its requests that come at that controller's turns |
| TemplateShares.FairPerTemplate | src/manager.cpp:129-166 | so two controllers gain as many instances of a template up to one if and only if as many of its requests, up to one, come at their turns |
| TemplateShares.InTurnIsUnfair | src/manager.cpp:129-166 | when as many templates as there are controllers are asked for in turn, one controller's table gains every instance of a template and the others' tables none |
| ManagerTheorems.ManagerAnswers | src/manager.cpp:99-228 | every request keeps the cluster sound, and is answered by exactly one frame if and only if the answer has a line or nothing was written to this client before |
| ManagerTheorems.ClientListing | src/manager.cpp:116-127 | from the tables to the client's map: the reply bytes hold one frame that decodes to exactly one record per instance of any controller, under its full id, with that id and all fields of the instance |
| ManagerTheorems.ClientTemplates | src/manager.cpp:106-114 | the reply bytes decode to the union of the controllers' maps of templates |
| ManagerTheorems.ClientInstantiate | src/manager.cpp:129-166 | the client reads back one record: its own request with nothing changed exactly when no controller has the template, else the one instance that was added, in all its fields, under a full id that routes to it |
| ManagerTheorems.RunThroughManager | src/manager.cpp:168-220 | a `run` or `kill` request with an instance's full id has, on the cluster, exactly the effect of that operation on that controller; it is answered 1 exactly if the instance has no live process or, for `kill`, exists |
| Answers.ListingText | src/controller.cpp:75-81 | the lines of a controller's listing: six for each instance, each field in its place, or one empty line |
| Answers.TemplatesText | src/controller.cpp:70-73 | four lines for each template, each field in its place |
| Answers.InstantiateText | src/controller.cpp:83-107 | by the lines of the request: its texts again, the numbers as they were read, exactly if the template is unknown; else the six lines of the one new instance, which has the memory and cpus of the fourth and fifth line |
| Answers.OtherText | src/controller.cpp:109-131 | `run` and `kill` are answered by the character 1 or 0, any other command by `unknown command`, with no change |
| Answers.RequestText | src/Vm/ControllerProxy.hpp:71-78 | the seven lines a proxy sends for `instantiate`, whatever id, port and flag the client had sent |
| Answers.ClusterListingText | src/manager.cpp:116-127 | the lines of the manager's listing: six for each instance of any controller, headed by server name, slash and id, and no others |
| Answers.ClusterTemplatesText | src/manager.cpp:106-114 | four lines for each template of each controller, each field in its place, and no others |
| Answers.ClusterInstantiateText | src/manager.cpp:129-166 | by the lines of the request: its texts again exactly if no controller has the template; else the six lines of the new instance, headed by its full id |
| Answers.ClusterOtherText | src/manager.cpp:168-225 | for every `run` and `kill`, with or without an id, the one character of the answer; any other command is answered by `unknown command`; nothing but a successful `run` changes a controller |
| LockTheorems.FrameIsWhole | src/Net/Socket.hpp:77-86 | a reader that has part of a message and sees a frame has all of it, and nothing more is under way |
| LockTheorems.StepKeepsInv | src/manager.cpp:106-220 | each step of any handler or controller, down to one byte, keeps the invariant of mutex, bytes under way and histories; a request that begins must be one that reads back as written |
| LockTheorems.MutualExclusion | src/Thread/ScopedLock.hpp:18-24 | in every interleaving, whatever is asked, at most one handler is inside a locked branch, and it owns the mutex |
| LockTheorems.QuietWhenFree | src/manager.cpp:106-220 | in every interleaving in which all requests read back as written, whenever the mutex is free no byte is under way to or from any controller, every controller waits for a request, and every request has been answered and the answer read |
| LockTheorems.RepliesMatch | src/Vm/ControllerProxy.hpp:41-96 | in every such interleaving each reply a handler reads is the controller's answer to the request that same handler wrote, served in the state the earlier requests left |
| LockTheorems.ConcurrentListing | src/Vm/ControllerProxy.hpp:56-69 | in every such interleaving a handler that asked for instances decodes the controller's table, field by field, as it was when the request was served |
| LockTheorems.ServerReadsTheRequest | src/controller.cpp:65-66 | in every such interleaving a complete frame at a controller is the whole request of the handler that holds the mutex and waits for the reply, with nothing behind it |
| Progress.NeverStuck | src/Vm/ControllerProxy.hpp:41-96 | in every such interleaving a handler that waits for a reply can take a step itself, or the controller it waits for can, provided that controller can answer the request if it has not yet |
| Progress.WaitIsBounded | src/Vm/ControllerProxy.hpp:41-96 | in every such interleaving the next step of anybody ends the wait with the reply read, or brings the reply nearer by a measure that cannot fall for ever, or touches neither that handler nor its connection |
| Progress.ReplyArrives | src/Vm/ControllerProxy.hpp:41-96 | every such interleaving can be continued by steps of that handler and that controller alone until the handler has read its reply |
| EmptyIds.EmptyIdIsCut | src/Vm/ControllerProxy.hpp:80-96 | `run` or `kill` with an id reads back as written, and is a request the controller survives, if and only if the id is not empty; at the empty id the command alone is read and two bytes stay |
| EmptyIds.ForwardedId | src/manager.cpp:177-181 | what the manager forwards for a full id is a request if and only if there is text after the slash, which fails exactly for an empty full id and for one whose only slash, or first one, is its last character |
| EmptyIds.EmptyIdBlocks | src/manager.cpp:168-220 | a run in which a handler forwards an empty id: it ends holding the mutex and waiting, with its controller at a frame it cannot answer and two bytes under way |
| EmptyIds.BlockedForEver | src/manager.cpp:168-220 | from there, the controller not surviving its request, every interleaving stays so: the mutex is never released |
| SessionTheorems.SessionIsHandle | src/manager.cpp:106-220 | the branch of any request, run as a program of calls and replies, ends with the cluster, `nextController` and lines of `Handle` |
| SerialTheorems.MoveKeeps | src/manager.cpp:106-220 | each step of handlers that run the manager's branches, and of controllers, keeps the session under the lock in agreement with its program and all earlier ones in sequence |
| SerialTheorems.Serialisable | src/manager.cpp:97-228 | every interleaving of any number of handlers amounts to `Handle` for one request after the other in lock order, each beginning where the one before ended, down to the controllers' states and `nextController` |
| SerialGrowth.FairInEveryRun | src/manager.cpp:97-228 | in every interleaving of any number of handlers whose `instantiate` requests are for templates that the same controllers have, or nobody, two of those controllers gain as many instances up to one, whatever is listed, started and killed in between |
| SerialGrowth.SharesInEveryRun | src/manager.cpp:97-228 | and what a controller gains of one template is its share of the requests, taken in lock order |
| SerialProgress.NoDeadlock | src/manager.cpp:97-228 | in every such run, while any handler waits for the lock or is in its branch, somebody can take a step, provided that a controller that is waited for can answer the request if it has not yet |
| SerialTheorems.HandlersAskLegally | src/manager.cpp:106-220 | handlers that run the manager's branches send only requests that read back as written, so all results on interleavings hold of them |

## Left out

- Sockets, bind, connect, fork, exec, signals and wait: byte queues, a set of busy ports, a set of live pids and the pid of a new child stand in for them. A failing `fork` is not modelled.
- Disconnects, short reads and the uninitialised character that `peek` returns on end of file: queues are reliable and reads are on streams that hold a frame.
- Malformed or truncated records, an empty request, and requests without the lines their command needs: the handlers throw or read past the end there, which is not modelled.
- Concurrent connections straight to one controller: `run` and `kill` take no lock there. A controller serves its manager's connection in sequence.
- Copying image files, the rest of the QEMU command line, and the `.append` file: only the port in the options matters here.
- Numbers out of range: ports above 65535 and overflow of `nextId`, `nextPort` and `writeCount`. Counters are unbounded, and results about their text say that they are still 32-bit ints.
- The set of busy ports is fixed during one search or one directory scan; it may change between the two searches of `instantiate` and between operations.
- An empty numeric cookie reads as 0 although the code leaves the variable uninitialised; a run of the model never produces one.
- Directories are keyed by number, for the directory whose name is the decimal text of it; other directory entries appear only as names in a listing.
- Managers.CommandHandler.AnswerRun: not for a known server's full id that ends in its slash. The controller then reads past the end of its vector (src/controller.cpp:113), which has no defined outcome; what is on the wire up to there is `EmptyIds.EmptyIdIsCut`.
- Managers.CommandHandler.AnswerKill: the same premise, for the same reason (src/controller.cpp:123).
- Managers.CommandHandler.HandleRequest: the same premise on its `run` and `kill` requests (`WellFormedCommand`).
- LockTheorems.QuietWhenFree: the premise `LegalAsks` excludes requests with an empty line after the first; `EmptyIds.EmptyIdBlocks` is such a run, and `SerialTheorems.HandlersAskLegally` shows that the manager's branches meet it otherwise.
- LockTheorems.RepliesMatch: the same premise.
- LockTheorems.ConcurrentListing: the same premise.
- LockTheorems.ServerReadsTheRequest: the same premise.
- Progress.NeverStuck: the same premise.
- Progress.WaitIsBounded: the same premise. That the handler and its controller do go on taking steps is up to the scheduler.
- Progress.ReplyArrives: the same premise.
- Sessions.Plan: every request takes the mutex; in the source the branch for an unknown command takes none (src/manager.cpp:222-225), and touches no controller.
- Managers.Manager.constructor: two controllers in one process, or one controller behind two proxies, are excluded; every proxy has objects of its own.
- Managers.CommandHandler.TryNext: a turn of the placement loop is a method of its own here, and so are the search for a controller that `run` and `kill` share (`FindController`) and the inner loops of the listings (`EmitTemplates`, `EmitInstances`).
- Records.InstanceInfo: `setId` is an update of a value and not of a shared object.
- Controllers.Controller.ClaimSshPort: the same three statements occur in `restore` and in `run` and are one method here; the constructor's loop and the two halves of `instantiate` are methods of their own.
- LockDiscipline.Step: a controller that has read a request it does not survive takes no further step; handlers never disconnect.
- Serial.MoveStep: `std::map` iteration is some fixed order of the keys (`Wrappers.Order`), the answer to the client is the list of its lines, and `nextController` starts at 0.
- include/libkvm.h, the command-line client, logging, exceptions as objects, address parsing, thread start-up and the controllers file.
