/**
 `Printer` from klippy/klippy.py: construction of the object registry and
 the two reactor timers, and the lifecycle steps `stats`, `build_config`,
 `connect`, `connect_file`, `run` and `shutdown`. The collaborators (the
 g-code parser, the MCU, the registry objects, the reactor loop) are opaque:
 every call the printer makes on one is recorded, in order, in a call trace.
 */
module Klippy {
  import opened Results
  import opened Config
  import opened Timers
  import opened Registry
  import opened StringOrder

  /** Where the g-code parser reads commands: a pseudo-tty, or the debug input file. */
  datatype Channel = PseudoTty(path: string) | DebugInput

  /** One call the printer makes on a collaborator. */
  datatype Event =
    | NewGCode(channel: Channel)
    | NewMcu(config: ConfigWrapper)
    | ReactorRegister(handle: TimerId, waketime: Deadline)
    | NewObject(name: string, obj: PrinterObject)
    | GCodeStats(time: real)
    | ObjectStats(name: string, time: real)
    | McuStats(time: real)
    | LogStats(time: real)
    | ObjectBuildConfig(name: string)
    | GCodeBuildConfig
    | McuBuildConfig
    | McuConnect
    | GCodeRun
    | ReactorUnregister(handle: TimerId)
    | ReactorUpdate(handle: TimerId, waketime: Deadline)
    | McuConnectFile(output: string, dictionary: string)
    | ReactorRun
    | McuDisconnect
    | GCodeShutdown

  /** The printer's state: its configuration, the reactor's timers, the registry and the calls so far. */
  datatype Printer = Printer(
    fileconfig: ConfigStore,
    reactor: Reactor,
    pconfig: ConfigWrapper,
    channel: Channel,
    mcuConfig: ConfigWrapper,
    statsTimer: TimerId,
    connectTimer: TimerId,
    objects: map<string, PrinterObject>,
    trace: seq<Event>)

  /** What a timer callback leaves behind: the printer and the deadline it returns. */
  datatype Fired = Fired(printer: Printer, next: Deadline)

  /** The pseudo-tty path used when `[printer]` sets no `pseudo_tty`. */
  const DefaultPseudoTty: string := "/tmp/printer"

  /** What construction establishes and no lifecycle step breaks. */
  predicate Valid(p: Printer)
  {
    && Timers.Valid(p.reactor)
    && p.statsTimer != p.connectTimer
    && p.statsTimer in p.reactor.timers
    && ToolHeadName in p.objects
    && p.pconfig == ConfigWrapper(p.fileconfig, PrinterSection)
    && p.mcuConfig == ConfigWrapper(p.fileconfig, "mcu")
  }

  /** The calls `p'` made after `p`, when `p'` continues `p`'s trace. */
  function Appended(p: Printer, p': Printer): seq<Event>
    requires |p.trace| <= |p'.trace|
  {
    p'.trace[|p.trace|..]
  }

  /** `p'` is `p` with more calls recorded and, at most, different timer deadlines. */
  predicate Continues(p: Printer, p': Printer)
  {
    && |p.trace| <= |p'.trace|
    && p'.trace[..|p.trace|] == p.trace
    && p'.(trace := p.trace, reactor := p.reactor) == p
  }

  /** A continuing trace is the old trace followed by the appended calls. */
  lemma ContinuesSplit(p: Printer, p': Printer)
    requires Continues(p, p')
    ensures p'.trace == p.trace + Appended(p, p')
  {
    assert p'.trace == p'.trace[..|p.trace|] + p'.trace[|p.trace|..];
  }

  /** A step that only records calls and keeps the statistics timer alive keeps the printer valid. */
  lemma ContinuesValid(p: Printer, p': Printer)
    requires Valid(p) && Continues(p, p')
    requires Timers.Valid(p'.reactor) && p.statsTimer in p'.reactor.timers
    ensures Valid(p')
  {
  }

  /** A `build_config` call on a registry object, the g-code parser or the MCU. */
  predicate IsBuildCall(e: Event)
  {
    e.ObjectBuildConfig? || e == GCodeBuildConfig || e == McuBuildConfig
  }

  /**
   One pass of `build_config` over `objects`: as many object `build_config`
   calls as there are objects, each on a registry object, in strictly
   ascending name order; then the g-code parser's, then the MCU's.
   */
  predicate IsBuildPass(s: seq<Event>, objects: map<string, PrinterObject>)
  {
    && |s| == |objects| + 2
    && (forall i :: 0 <= i < |objects| ==> s[i].ObjectBuildConfig? && s[i].name in objects)
    && (forall i, j :: 0 <= i < j < |objects| ==> Less(s[i].name, s[j].name))
    && s[|objects|] == GCodeBuildConfig
    && s[|objects| + 1] == McuBuildConfig
  }

  /** The statistics queries of one `stats` call: g-code, then tool head, then MCU, then the log line. */
  function StatsQuery(eventtime: real): seq<Event>
  {
    [GCodeStats(eventtime), ObjectStats(ToolHeadName, eventtime), McuStats(eventtime), LogStats(eventtime)]
  }

  /**
   `Printer(conffile, debuginput)`: the g-code parser on its channel, the MCU
   on `[mcu]`, the statistics timer then the connect timer (both due `NOW`),
   then the registry objects.
   */
  function Init(fileconfig: ConfigStore, debugInput: bool): (p: Printer)
    ensures Valid(p)
    ensures p.fileconfig == fileconfig && p.objects == BuildObjects(fileconfig)
    ensures p.reactor.timers == map[p.statsTimer := Now, p.connectTimer := Now]
    ensures p.channel == if debugInput then DebugInput
                         else PseudoTty(Get(ConfigWrapper(fileconfig, PrinterSection), "pseudo_tty", Some(DefaultPseudoTty)).value)
    ensures IsConstructionTrace(p)
  {
    var reactor0 := Timers.Fresh;
    var pconfig := ConfigWrapper(fileconfig, PrinterSection);
    var ptty := Get(pconfig, "pseudo_tty", Some(DefaultPseudoTty));
    var channel := if debugInput then DebugInput else PseudoTty(ptty.value);
    var mcuConfig := ConfigWrapper(fileconfig, "mcu");
    var stats := Timers.RegisterTimer(reactor0, Now);
    var connect := Timers.RegisterTimer(stats.reactor, Now);
    var cs := Constructions(fileconfig);
    var objects := BuildObjects(fileconfig);
    RegistryConstructionOf(fileconfig);
    var p := Printer(
      fileconfig, connect.reactor, pconfig, channel, mcuConfig,
      stats.handle, connect.handle, objects,
      InitTrace(channel, mcuConfig, stats.handle, connect.handle, cs));
    p
  }

  /**
   The calls construction records: the g-code parser on its channel, the MCU
   on its section, the statistics timer then the connect timer, then the
   registry's constructor calls.
   */
  predicate IsConstructionTrace(p: Printer)
  {
    && |p.trace| >= 4
    && p.trace[0] == NewGCode(p.channel) && p.trace[1] == NewMcu(p.mcuConfig)
    && p.trace[2] == ReactorRegister(p.statsTimer, Now) && p.trace[3] == ReactorRegister(p.connectTimer, Now)
    && IsRegistryConstruction(p.trace[4..], p.objects)
  }

  /**
   The constructor calls that build the registry `objects`: each call builds
   the object the registry holds under its name, the names come in the
   order the constructor tests the sections (so none twice), every registry
   object is built, and the tool head is built last.
   */
  predicate IsRegistryConstruction(s: seq<Event>, objects: map<string, PrinterObject>)
  {
    && |s| == |objects|
    && (forall i :: 0 <= i < |s| ==> s[i].NewObject? && s[i].name in objects && s[i].obj == objects[s[i].name])
    && (forall i, j :: 0 <= i < j < |s| ==> Rank(s[i].name) < Rank(s[j].name))
    && (forall name :: name in objects ==> exists i :: 0 <= i < |s| && s[i].name == name)
    && ToolHeadName in objects && |s| > 0
    && s[|s| - 1] == NewObject(ToolHeadName, objects[ToolHeadName])
  }

  /** Construction's calls build the registry the file describes. */
  lemma RegistryConstructionOf(store: ConfigStore)
    ensures IsRegistryConstruction(ConstructionCalls(Constructions(store)), BuildObjects(store))
  {
    ConstructionsFillRegistry(store);
    ConstructionsInRankOrder(store);
    ConstructionCallsBuildRegistry(Constructions(store), BuildObjects(store));
  }

  /** Calls that record constructions `cs` in rank order, filling the registry, build that registry. */
  lemma ConstructionCallsBuildRegistry(cs: seq<Construction>, objects: map<string, PrinterObject>)
    requires FillsRegistry(cs, objects)
    requires forall i, j :: 0 <= i < j < |cs| ==> Rank(cs[i].0) < Rank(cs[j].0)
    ensures IsRegistryConstruction(ConstructionCalls(cs), objects)
  {
    var s := ConstructionCalls(cs);
    assert cs[|cs| - 1].0 in objects;
    CallsBuildObjects(cs, objects);
    CallsInRankOrder(cs);
    CallsCoverRegistry(cs, objects);
    CallsEndWithToolHead(cs, objects);
  }

  /** The last recorded call builds the tool head. */
  lemma CallsEndWithToolHead(cs: seq<Construction>, objects: map<string, PrinterObject>)
    requires |cs| >= 1 && cs[|cs| - 1].0 == ToolHeadName
    requires ToolHeadName in objects && objects[ToolHeadName] == cs[|cs| - 1].1
    ensures var s := ConstructionCalls(cs);
            |s| > 0 && s[|s| - 1] == NewObject(ToolHeadName, objects[ToolHeadName])
  {
  }

  /** Each recorded call builds the object the registry holds under its name. */
  lemma CallsBuildObjects(cs: seq<Construction>, objects: map<string, PrinterObject>)
    requires forall i :: 0 <= i < |cs| ==> cs[i].0 in objects && objects[cs[i].0] == cs[i].1
    ensures var s := ConstructionCalls(cs);
            forall i :: 0 <= i < |s| ==> s[i].NewObject? && s[i].name in objects && s[i].obj == objects[s[i].name]
  {
  }

  /** The recorded calls keep the constructions' table order. */
  lemma CallsInRankOrder(cs: seq<Construction>)
    requires forall i, j :: 0 <= i < j < |cs| ==> Rank(cs[i].0) < Rank(cs[j].0)
    ensures var s := ConstructionCalls(cs);
            forall i, j :: 0 <= i < j < |s| ==> Rank(s[i].name) < Rank(s[j].name)
  {
  }

  /** Every registry name has a recorded constructor call. */
  lemma CallsCoverRegistry(cs: seq<Construction>, objects: map<string, PrinterObject>)
    requires objects.Keys == Names(cs)
    ensures var s := ConstructionCalls(cs);
            forall name :: name in objects ==> exists i :: 0 <= i < |s| && s[i].name == name
  {
    var s := ConstructionCalls(cs);
    forall name | name in objects
      ensures exists i :: 0 <= i < |s| && s[i].name == name
    {
      var k :| 0 <= k < |cs| && cs[k].0 == name;
      assert s[k].name == name;
    }
  }

  /** The calls construction records: g-code parser, MCU, the two timers, then one constructor call per entry of `cs`. */
  function InitTrace(channel: Channel, mcuConfig: ConfigWrapper, stats: TimerId, connect: TimerId,
                     cs: seq<Construction>): (s: seq<Event>)
    ensures |s| == 4 + |cs|
    ensures s[0] == NewGCode(channel) && s[1] == NewMcu(mcuConfig)
    ensures s[2] == ReactorRegister(stats, Now) && s[3] == ReactorRegister(connect, Now)
    ensures s[4..] == ConstructionCalls(cs)
  {
    [NewGCode(channel), NewMcu(mcuConfig), ReactorRegister(stats, Now), ReactorRegister(connect, Now)]
    + ConstructionCalls(cs)
  }

  /** The registry constructor calls, one event per construction. */
  function ConstructionCalls(cs: seq<Construction>): (s: seq<Event>)
    ensures |s| == |cs|
    ensures forall i :: 0 <= i < |cs| ==> s[i] == NewObject(cs[i].0, cs[i].1)
  {
    seq(|cs|, i requires 0 <= i < |cs| => NewObject(cs[i].0, cs[i].1))
  }

  /** `stats(eventtime)`: query g-code, tool head and MCU, log, and ask to run again one second later. */
  function Stats(p: Printer, eventtime: real): (r: Fired)
    requires ToolHeadName in p.objects
    ensures Continues(p, r.printer) && r.printer.reactor == p.reactor
    ensures Appended(p, r.printer) == StatsQuery(eventtime)
    ensures r.next.At? && r.next.time > eventtime
    ensures r.next == At(eventtime + 1.0)
  {
    Fired(
      p.(trace := p.trace + StatsQuery(eventtime)),
      At(eventtime + 1.0))
  }

  /** The object `build_config` calls of one pass, in `sorted()` order. */
  function ObjectBuildCalls(names: seq<string>): (s: seq<Event>)
    ensures |s| == |names|
    ensures forall i :: 0 <= i < |names| ==> s[i] == ObjectBuildConfig(names[i])
  {
    seq(|names|, i requires 0 <= i < |names| => ObjectBuildConfig(names[i]))
  }

  /** The calls of one `build_config()` over the registry `objects`. */
  function BuildCalls(objects: map<string, PrinterObject>): seq<Event>
  {
    ObjectBuildCalls(Sorted(objects.Keys)) + [GCodeBuildConfig, McuBuildConfig]
  }

  /** Walking `sorted(objects.keys())` is a build pass over `objects`. */
  lemma BuildCallsArePass(objects: map<string, PrinterObject>)
    ensures IsBuildPass(BuildCalls(objects), objects)
  {
    var names := Sorted(objects.Keys);
    var calls := BuildCalls(objects);
    var n := |objects|;
    assert |objects.Keys| == n;
    forall i | 0 <= i < n
      ensures calls[i] == ObjectBuildConfig(names[i]) && names[i] in objects
    {
      assert names[i] in names;
    }
    assert calls[n] == GCodeBuildConfig && calls[n + 1] == McuBuildConfig;
  }

  /** `build_config()`: every registry object in sorted name order, then g-code, then MCU. */
  function BuildConfig(p: Printer): (p': Printer)
    ensures Continues(p, p') && p'.reactor == p.reactor
    ensures IsBuildPass(Appended(p, p'), p.objects)
  {
    var calls := BuildCalls(p.objects);
    BuildCallsArePass(p.objects);
    assert (p.trace + calls)[|p.trace|..] == calls;
    p.(trace := p.trace + calls)
  }


  /**
   The calls of the connect timer's callback: the MCU connects first, then a
   whole build pass, then the g-code loop starts, then the timer is removed.
   */
  predicate IsConnectSequence(s: seq<Event>, objects: map<string, PrinterObject>, connectTimer: TimerId)
  {
    && |s| == |objects| + 5
    && s[0] == McuConnect
    && IsBuildPass(s[1..|s| - 2], objects)
    && s[|s| - 2] == GCodeRun
    && s[|s| - 1] == ReactorUnregister(connectTimer)
  }

  /** The printer as the connect callback leaves it, in the order `connect` makes its calls. */
  function AfterConnect(p: Printer): Printer
  {
    var connected := p.(trace := p.trace + [McuConnect]);
    var built := BuildConfig(connected);
    built.(reactor := Timers.UnregisterTimer(p.reactor, p.connectTimer),
           trace := built.trace + [GCodeRun, ReactorUnregister(p.connectTimer)])
  }

  /** The connect callback removes only its own timer, so the printer stays valid. */
  lemma AfterConnectValid(p: Printer)
    requires Valid(p)
    ensures Valid(AfterConnect(p))
    ensures AfterConnect(p).reactor.timers == p.reactor.timers - {p.connectTimer}
  {
    AfterConnectTrace(p);
    UnregisterConnectValid(p, AfterConnect(p));
  }

  /** Dropping the connect timer, and otherwise only recording calls, keeps the printer valid. */
  lemma UnregisterConnectValid(p: Printer, p': Printer)
    requires Valid(p) && Continues(p, p')
    requires p'.reactor == Timers.UnregisterTimer(p.reactor, p.connectTimer)
    ensures Valid(p') && p'.reactor.timers == p.reactor.timers - {p.connectTimer}
  {
    ContinuesValid(p, p');
  }

  /** The connect callback appends a connect sequence and changes nothing but the trace and the timers. */
  lemma AfterConnectTrace(p: Printer)
    ensures Continues(p, AfterConnect(p))
    ensures IsConnectSequence(Appended(p, AfterConnect(p)), p.objects, p.connectTimer)
  {
    var connected := p.(trace := p.trace + [McuConnect]);
    var built := BuildConfig(connected);
    var pass := Appended(connected, built);
    var done := AfterConnect(p);
    var s := [McuConnect] + pass + [GCodeRun, ReactorUnregister(p.connectTimer)];
    ContinuesSplit(connected, built);
    AppendTail(p.trace, McuConnect, pass, GCodeRun, ReactorUnregister(p.connectTimer));
    assert done.trace == p.trace + s;
    assert done.trace[..|p.trace|] == p.trace;
    ConnectSequenceOf(pass, p.objects, p.connectTimer);
  }

  /** Connecting, a build pass, starting the loop and dropping the timer form a connect sequence. */
  lemma ConnectSequenceOf(pass: seq<Event>, objects: map<string, PrinterObject>, h: TimerId)
    requires IsBuildPass(pass, objects)
    ensures IsConnectSequence([McuConnect] + pass + [GCodeRun, ReactorUnregister(h)], objects, h)
  {
    var s := [McuConnect] + pass + [GCodeRun, ReactorUnregister(h)];
    assert s[1..|s| - 2] == pass;
  }

  /**
   `connect(eventtime)`, the connect timer's callback: connect the MCU, run
   the build pass, start the g-code loop, unregister this timer, and return
   `NEVER`.
   */
  function Connect(p: Printer, eventtime: real): (r: Fired)
    requires Valid(p)
    ensures Valid(r.printer) && Continues(p, r.printer)
    ensures IsConnectSequence(Appended(p, r.printer), p.objects, p.connectTimer)
    ensures r.printer.reactor.timers == p.reactor.timers - {p.connectTimer}
    ensures r.next == Never
  {
    AfterConnectTrace(p);
    AfterConnectValid(p);
    Fired(AfterConnect(p), Never)
  }

  lemma AppendTail(t: seq<Event>, c: Event, mid: seq<Event>, a: Event, b: Event)
    ensures t + [c] + mid + [a, b] == t + ([c] + mid + [a, b])
    ensures (t + ([c] + mid + [a, b]))[|t|..] == [c] + mid + [a, b]
  {
  }

  /**
   `connect_file(output, dictionary)`: disable the statistics timer (deadline
   `NEVER`), then have the MCU write its output to a file instead of a device.
   */
  function ConnectFile(p: Printer, output: string, dictionary: string): (p': Printer)
    requires Valid(p)
    ensures Valid(p') && Continues(p, p')
    ensures Appended(p, p') == [ReactorUpdate(p.statsTimer, Never), McuConnectFile(output, dictionary)]
    ensures p'.reactor.timers == p.reactor.timers[p.statsTimer := Never]
  {
    p.(reactor := Timers.UpdateTimer(p.reactor, p.statsTimer, Never),
       trace := p.trace + [ReactorUpdate(p.statsTimer, Never), McuConnectFile(output, dictionary)])
  }

  /**
   `run()`: the reactor loop, then final statistics, the MCU disconnect, and
   statistics again; `before` and `after` are the two `time.time()` readings.
   */
  function Run(p: Printer, before: real, after: real): (p': Printer)
    requires ToolHeadName in p.objects
    ensures Continues(p, p') && p'.reactor == p.reactor
    ensures Appended(p, p') == [ReactorRun] + StatsQuery(before) + [McuDisconnect] + StatsQuery(after)
  {
    var ran := p.(trace := p.trace + [ReactorRun]);
    var first := Stats(ran, before).printer;
    var disconnected := first.(trace := first.trace + [McuDisconnect]);
    var last := Stats(disconnected, after).printer;
    ContinuesSplit(ran, first);
    ContinuesSplit(disconnected, last);
    assert last.trace == p.trace + ([ReactorRun] + StatsQuery(before) + [McuDisconnect] + StatsQuery(after));
    last
  }

  /** `shutdown()`: passed on to the g-code parser and nothing else. */
  function Shutdown(p: Printer): (p': Printer)
    ensures Continues(p, p') && p'.reactor == p.reactor
    ensures Appended(p, p') == [GCodeShutdown]
  {
    p.(trace := p.trace + [GCodeShutdown])
  }
}
