/**
 Properties of the printer's lifecycle that span several steps: the build
 pass is determined by the registry, the MCU connects before anything is
 built, capture mode keeps the statistics timer off, and the final
 statistics bracket the MCU disconnect.
 */
module Lifecycle {
  import opened Config
  import opened Timers
  import opened Registry
  import opened StringOrder
  import opened Klippy

  /**
   A build pass over a registry is unique: it is the sorted walk of the
   registry's names, so each object's `build_config` runs exactly once and
   nothing else's does.
   */
  lemma BuildPassIsSortedWalk(s: seq<Event>, objects: map<string, PrinterObject>)
    requires IsBuildPass(s, objects)
    ensures s == BuildCalls(objects)
    ensures forall name :: multiset(s)[ObjectBuildConfig(name)] == if name in objects then 1 else 0
  {
    BuildPassIsBuildCalls(s, objects);
    forall name
      ensures multiset(BuildCalls(objects))[ObjectBuildConfig(name)] == if name in objects then 1 else 0
    {
      BuildCallsOnce(objects, name);
    }
  }

  /** The names a build pass visits are the sorted registry names, so the pass is `BuildCalls`. */
  lemma BuildPassIsBuildCalls(s: seq<Event>, objects: map<string, PrinterObject>)
    requires IsBuildPass(s, objects)
    ensures s == BuildCalls(objects)
  {
    var n := |objects|;
    var names := seq(n, i requires 0 <= i < n => s[i].name);
    assert |objects.Keys| == n;
    AscendingCoverIsSorted(names, objects.Keys);
    PassFromNames(s, names);
  }

  /** Calls that build `names` in order and then g-code and MCU are exactly `ObjectBuildCalls(names)` and those two. */
  lemma PassFromNames(s: seq<Event>, names: seq<string>)
    requires |s| == |names| + 2
    requires forall i :: 0 <= i < |names| ==> s[i] == ObjectBuildConfig(names[i])
    requires s[|names|] == GCodeBuildConfig && s[|names| + 1] == McuBuildConfig
    ensures s == ObjectBuildCalls(names) + [GCodeBuildConfig, McuBuildConfig]
  {
    var calls := ObjectBuildCalls(names) + [GCodeBuildConfig, McuBuildConfig];
    forall i | 0 <= i < |s|
      ensures s[i] == calls[i]
    {
      if i < |names| {
        assert calls[i] == ObjectBuildCalls(names)[i];
      }
    }
  }

  /** In the sorted walk each registry object is built once, and no other name is. */
  lemma BuildCallsOnce(objects: map<string, PrinterObject>, name: string)
    ensures multiset(BuildCalls(objects))[ObjectBuildConfig(name)] == if name in objects then 1 else 0
  {
    var names := Sorted(objects.Keys);
    EventCountIsNameCount(names, name);
    AscendingListsOnce(names, name);
    assert multiset(BuildCalls(objects)) == multiset(ObjectBuildCalls(names)) + multiset([GCodeBuildConfig, McuBuildConfig]);
  }

  /** An object's build call occurs in the calls for `names` as often as its name in `names`. */
  lemma {:induction false} EventCountIsNameCount(names: seq<string>, name: string)
    ensures multiset(ObjectBuildCalls(names))[ObjectBuildConfig(name)] == multiset(names)[name]
    decreases |names|
  {
    if |names| > 0 {
      var init, last := names[..|names| - 1], names[|names| - 1];
      EventCountIsNameCount(init, name);
      assert names == init + [last];
      assert multiset(names) == multiset(init) + multiset{last};
      ObjectBuildCallsSnoc(init, last);
      assert multiset(ObjectBuildCalls(names)) == multiset(ObjectBuildCalls(init)) + multiset{ObjectBuildConfig(last)};
    }
  }

  /** Building one more name appends its call. */
  lemma ObjectBuildCallsSnoc(names: seq<string>, last: string)
    ensures ObjectBuildCalls(names + [last]) == ObjectBuildCalls(names) + [ObjectBuildConfig(last)]
  {
    var a, b := ObjectBuildCalls(names + [last]), ObjectBuildCalls(names) + [ObjectBuildConfig(last)];
    forall i | 0 <= i < |a|
      ensures a[i] == b[i]
    {
      if i < |names| {
        assert (names + [last])[i] == names[i];
      }
    }
  }

  /** Nothing has been built (no object, g-code parser or MCU) and the g-code loop has not been started. */
  predicate BeforeConnect(t: seq<Event>)
  {
    forall i :: 0 <= i < |t| ==> !IsBuildCall(t[i]) && t[i] != GCodeRun
  }

  /** Construction makes no build call and does not start the g-code loop. */
  lemma InitIsBeforeConnect(fileconfig: ConfigStore, debugInput: bool)
    ensures BeforeConnect(Init(fileconfig, debugInput).trace)
  {
    ConstructionIsBeforeConnect(Init(fileconfig, debugInput));
  }

  /** A construction trace holds only constructor, MCU and timer calls. */
  lemma ConstructionIsBeforeConnect(p: Printer)
    requires IsConstructionTrace(p)
    ensures BeforeConnect(p.trace)
  {
    forall i | 4 <= i < |p.trace|
      ensures p.trace[i].NewObject?
    {
      assert p.trace[i] == p.trace[4..][i - 4];
    }
  }

  /**
   In `t`, the MCU connected before any `build_config` call (object, g-code
   parser or MCU), and every such call precedes the g-code loop.
   */
  predicate ConnectedBeforeBuilt(t: seq<Event>)
  {
    && (forall i :: 0 <= i < |t| && IsBuildCall(t[i]) ==>
          exists j :: 0 <= j < i && t[j] == McuConnect)
    && (forall i, j :: 0 <= i < |t| && 0 <= j < |t| && IsBuildCall(t[i]) && t[j] == GCodeRun ==> i < j)
  }

  /** Appending a connect sequence to a trace with no builds yet orders connect, builds, loop start. */
  lemma ConnectSequenceOrders(pre: seq<Event>, s: seq<Event>, objects: map<string, PrinterObject>, h: TimerId)
    requires BeforeConnect(pre) && IsConnectSequence(s, objects, h)
    ensures ConnectedBeforeBuilt(pre + s)
  {
    var t := pre + s;
    var k := |pre|;
    var build := s[1..|s| - 2];
    forall i | 0 <= i < |t| && IsBuildCall(t[i])
      ensures exists j :: 0 <= j < i && t[j] == McuConnect
      ensures k < i < |t| - 2
    {
      assert i >= k ==> t[i] == s[i - k];
      assert t[k] == s[0];
    }
    forall j | 0 <= j < |t| && t[j] == GCodeRun
      ensures j == |t| - 2
    {
      assert j >= k ==> t[j] == s[j - k];
    }
  }

  /**
   Through the connect callback: no `build_config` (object, g-code parser or
   MCU) runs before the MCU has connected, and every one runs before the
   g-code loop starts.
   */
  lemma ConnectPrecedesBuild(p: Printer, eventtime: real)
    requires Klippy.Valid(p) && BeforeConnect(p.trace)
    ensures ConnectedBeforeBuilt(Connect(p, eventtime).printer.trace)
  {
    var q := Connect(p, eventtime).printer;
    ContinuesSplit(p, q);
    ConnectSequenceOrders(p.trace, Appended(p, q), p.objects, p.connectTimer);
  }

  /**
   The connect callback's calls exactly: connect the MCU, build every
   registry object in sorted name order, then g-code and MCU, start the
   g-code loop, drop the connect timer.
   */
  lemma ConnectCalls(p: Printer, eventtime: real)
    requires Klippy.Valid(p)
    ensures Appended(p, Connect(p, eventtime).printer)
            == [McuConnect] + BuildCalls(p.objects) + [GCodeRun, ReactorUnregister(p.connectTimer)]
  {
    ConnectSequenceIsSortedWalk(Appended(p, Connect(p, eventtime).printer), p.objects, p.connectTimer);
  }

  /** A connect sequence is determined by the registry and the timer it drops. */
  lemma ConnectSequenceIsSortedWalk(s: seq<Event>, objects: map<string, PrinterObject>, h: TimerId)
    requires IsConnectSequence(s, objects, h)
    ensures s == [McuConnect] + BuildCalls(objects) + [GCodeRun, ReactorUnregister(h)]
  {
    BuildPassIsBuildCalls(s[1..|s| - 2], objects);
    SplitEnds(s);
  }

  /** A trace of three or more calls is its first call, its middle, and its last two calls. */
  lemma SplitEnds(s: seq<Event>)
    requires |s| >= 3
    ensures s == [s[0]] + s[1..|s| - 2] + [s[|s| - 2], s[|s| - 1]]
  {
    assert s[..1] == [s[0]] && s[|s| - 2..] == [s[|s| - 2], s[|s| - 1]];
    assert s == s[..1] + s[1..|s| - 2] + s[|s| - 2..];
  }

  /**
   Without debug input the g-code parser reads the pseudo-tty that
   `[printer]` names, or `/tmp/printer` when it names none.
   */
  lemma ChannelChoice(fileconfig: ConfigStore)
    ensures var w := ConfigWrapper(fileconfig, PrinterSection);
            Init(fileconfig, false).channel
            == PseudoTty(if HasOption(w, "pseudo_tty") then Stored(w, "pseudo_tty") else DefaultPseudoTty)
    ensures Init(fileconfig, true).channel == DebugInput
  {
  }

  /** From construction on, the MCU connects before anything is built and the g-code loop starts last. */
  lemma InitThenConnectOrder(fileconfig: ConfigStore, debugInput: bool, eventtime: real)
    ensures ConnectedBeforeBuilt(Connect(Init(fileconfig, debugInput), eventtime).printer.trace)
  {
    InitIsBeforeConnect(fileconfig, debugInput);
    ConnectPrecedesBuild(Init(fileconfig, debugInput), eventtime);
  }

  /** `connect_file` twice leaves the same deadlines as once. */
  lemma ConnectFileIdempotent(p: Printer, output: string, dictionary: string)
    requires Klippy.Valid(p)
    ensures ConnectFile(ConnectFile(p, output, dictionary), output, dictionary).reactor
            == ConnectFile(p, output, dictionary).reactor
  {
    UpdateIdempotent(p.reactor, p.statsTimer, Never);
  }

  /**
   Capture mode: once `connect_file` has run, the statistics timer's deadline
   is `NEVER` and stays so through the connect callback and `run`.
   */
  lemma CaptureModeKeepsStatsOff(p: Printer, output: string, dictionary: string,
                                 eventtime: real, before: real, after: real)
    requires Klippy.Valid(p)
    ensures var c := ConnectFile(p, output, dictionary);
            && c.reactor.timers[c.statsTimer] == Never
            && var q := Run(Connect(c, eventtime).printer, before, after);
               && q.statsTimer == p.statsTimer
               && q.reactor.timers[q.statsTimer] == Never
  {
  }

  /**
   Capture mode from construction: after `connect_file` and the connect
   callback the statistics timer is the only timer left, and it never fires.
   */
  lemma CaptureModeFromInit(fileconfig: ConfigStore, debugInput: bool, output: string, dictionary: string,
                            eventtime: real)
    ensures var p := Init(fileconfig, debugInput);
            Connect(ConnectFile(p, output, dictionary), eventtime).printer.reactor.timers
            == map[p.statsTimer := Never]
  {
    var p := Init(fileconfig, debugInput);
    CaptureModeTimers(p, output, dictionary, eventtime);
  }

  /** With only the two timers registered, capture mode leaves the statistics timer alone, never due. */
  lemma CaptureModeTimers(p: Printer, output: string, dictionary: string, eventtime: real)
    requires Klippy.Valid(p) && p.reactor.timers == map[p.statsTimer := Now, p.connectTimer := Now]
    ensures Connect(ConnectFile(p, output, dictionary), eventtime).printer.reactor.timers
            == map[p.statsTimer := Never]
  {
    var c := ConnectFile(p, output, dictionary);
    assert c.reactor.timers - {p.connectTimer} == map[p.statsTimer := Never];
  }

  /** Construction registers both timers due at once, the statistics timer first. */
  lemma LiveModeTimers(fileconfig: ConfigStore, debugInput: bool)
    ensures var p := Init(fileconfig, debugInput);
            && p.reactor.timers == map[p.statsTimer := Now, p.connectTimer := Now]
            && p.trace[2] == ReactorRegister(p.statsTimer, Now)
            && p.trace[3] == ReactorRegister(p.connectTimer, Now)
  {
  }

  /**
   The connect callback removes its own timer and leaves the statistics
   timer's deadline as it finds it, whether or not `stats` has fired before.
   */
  lemma ConnectLeavesStatsTimer(p: Printer, eventtime: real)
    requires Klippy.Valid(p)
    ensures var q := Connect(p, eventtime).printer;
            && p.connectTimer !in q.reactor.timers
            && p.statsTimer in q.reactor.timers
            && q.reactor.timers[p.statsTimer] == p.reactor.timers[p.statsTimer]
  {
  }

  /**
   At the end of `run` the MCU disconnects exactly once, between two
   statistics passes: every query before it carries the first time reading,
   every query after it the second.
   */
  lemma DisconnectBetweenFinalStats(p: Printer, before: real, after: real)
    requires ToolHeadName in p.objects
    ensures var s := Appended(p, Run(p, before, after));
            && (forall i :: 0 <= i < |s| ==> (s[i] == McuDisconnect <==> i == 5))
            && (forall i :: 0 <= i < 5 && s[i].McuStats? ==> s[i].time == before)
            && (forall i :: 5 < i < |s| && s[i].McuStats? ==> s[i].time == after)
            && McuStats(before) in s[..5] && McuStats(after) in s[6..]
  {
    FinalCallsShape(Appended(p, Run(p, before, after)), before, after);
  }

  /** The calls `run` appends, spelled out: loop, statistics, disconnect, statistics. */
  lemma FinalCallsShape(s: seq<Event>, before: real, after: real)
    requires s == [ReactorRun] + StatsQuery(before) + [McuDisconnect] + StatsQuery(after)
    ensures && (forall i :: 0 <= i < |s| ==> (s[i] == McuDisconnect <==> i == 5))
            && (forall i :: 0 <= i < 5 && s[i].McuStats? ==> s[i].time == before)
            && (forall i :: 5 < i < |s| && s[i].McuStats? ==> s[i].time == after)
            && McuStats(before) in s[..5] && McuStats(after) in s[6..]
  {
    assert s == [ReactorRun, GCodeStats(before), ObjectStats(ToolHeadName, before), McuStats(before), LogStats(before),
                 McuDisconnect, GCodeStats(after), ObjectStats(ToolHeadName, after), McuStats(after), LogStats(after)];
    assert s[..5][3] == McuStats(before);
    assert s[6..][2] == McuStats(after);
  }

}
