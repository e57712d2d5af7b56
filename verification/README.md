# Klippy host orchestration, modelled in Dafny

This project models the core of the Klipper host program (`klippy/klippy.py`):

- **`ConfigWrapper`** is a read-only view of one section of the parsed
  configuration file. Its `get`, `getint`, `getfloat` and `getboolean` return the
  caller's default when the option is absent, and otherwise the parsed text.
  `getsection` re-scopes the view to another section.
- **`Printer`** is the root supervisor:
  - Construction picks the g-code channel, creates the MCU, and registers the
    statistics timer and the connect timer, both due `NOW`. It then builds the
    printer-object registry: one object per present optional section (`fan`,
    `extruder`, `heater_bed`, tested in that order), and then the tool head,
    which is always built and reads `[printer]`.
  - `stats` queries the g-code parser, the tool head and the MCU, logs, and
    asks to run again one second later.
  - `build_config` calls every registry object in sorted name order, then the
    g-code parser, then the MCU.
  - `connect`, the connect timer's callback, connects the MCU, runs the build
    pass, starts the g-code loop, unregisters its own timer and returns `NEVER`.
  - `connect_file` (capture mode) disables the statistics timer and redirects
    the MCU to a file.
  - `run` runs the reactor loop, then takes a statistics snapshot,
    disconnects the MCU, and takes a second snapshot.
  - `shutdown` passes the request to the g-code parser.

The collaborators (g-code parser, MCU, registry objects, reactor loop) are
opaque. The printer state carries a **call trace**: every call the printer
makes on a collaborator is appended to it, in order. Ordering properties are
stated over this trace. The reactor is modelled only as far as the printer
touches it: a map from timer handles to deadlines (`NOW`, an absolute time,
or `NEVER`).

Modules, one per file:

- `Results` (`results.dfy`): `Option` and `Result`.
- `StringOrder` (`string_order.dfy`): Python's string `<` and `sorted()` of a set of names.
- `ValueParse` (`value_parse.dfy`): the text conversions behind `getint`, `getfloat` and `getboolean`.
- `Config` (`config.dfy`): `ConfigWrapper`.
- `Timers` (`timers.dfy`): `register_timer`, `update_timer` and `unregister_timer`.
- `Registry` (`registry.dfy`): the printer-object registry.
- `Klippy` (`klippy.dfy`): `Printer` and its lifecycle steps.
- `Lifecycle` (`lifecycle.dfy`): properties spanning several steps.
- `Scenarios` (`scenarios.dfy`): a concrete `[printer]`/`[fan]`/`[extruder]` configuration.

## Behaviour of the code worth noting

- Each statistics snapshot queries exactly the g-code parser, the tool head
  and the MCU. It does not query every registry object.
- Nothing isolates one collaborator's statistics failure from the others.
- The build pass ends with the g-code parser's `build_config` and then the MCU's.
- Capture mode is entered by a separate `connect_file` call. Construction does not enter it.

## Model

| member | source | states |
|---|---|---|
| Config.Get | klippy/klippy.py:14-17 | An option missing from the section, or a section missing from the file, yields the caller's default. Otherwise it yields the stored text. |
| Config.GetInt | klippy/klippy.py:18-21 | An absent option yields the default. Present text is converted by `int()`. A conversion failure is an error naming the text, not the default. |
| Config.GetFloat | klippy/klippy.py:22-25 | An absent option yields the default. Present text is converted by `float()`, and a malformed value is an error. |
| Config.GetBoolean | klippy/klippy.py:26-29 | An absent option yields the default. Present text is looked up among the boolean spellings, and an unknown word is an error. |
| Config.GetSection | klippy/klippy.py:30-31 | The new view shares the parsed file and is scoped to the requested section. |
| Config.GetSectionReadsThatSection | klippy/klippy.py:30-31 | A re-scoped view reads exactly what the file holds for the new section, whatever section the original view had. |
| Config.TypedAccessorsParseGet | klippy/klippy.py:14-29 | Each typed accessor is `get` without a default followed by its conversion. Absence gives the default, and conversion errors propagate. |
| Config.TypedAccessorsReadBackStr | klippy/klippy.py:18-29 | Text written by Python's `str` of an int or bool reads back as that value through `getint`, `getfloat` and `getboolean`, whatever the default. |
| ValueParse.ParseInt | klippy/klippy.py:21 | Its own contract only names the error: a rejected text fails with `NotAnInteger` carrying that text. What it accepts, and the value it yields, are stated by `ParseIntAccepts`. |
| ValueParse.ParseIntAccepts | klippy/klippy.py:21 | `int()` succeeds exactly on an optional `-` or `+` followed directly by one or more decimal digits. The value is the digits' number, negated after `-`, so leading zeros and a leading `+` are accepted. |
| ValueParse.IntRoundTrip | klippy/klippy.py:21 | The integer conversion inverts decimal formatting for every integer, negative ones included. |
| ValueParse.ParseIntRejectsNonDigits | klippy/klippy.py:21 | Text with any character other than a digit or a sign is rejected with an error naming the text. |
| ValueParse.ParseFloat | klippy/klippy.py:25 | Its own contract only names the error: a rejected text fails with `NotAFloat` carrying that text. Its value on integer text is stated by `FloatAgreesWithInt`. |
| ValueParse.FloatAgreesWithInt | klippy/klippy.py:25 | The float conversion of a formatted integer yields the same number as the integer conversion. |
| ValueParse.ParseBool | klippy/klippy.py:29 | Exactly the lower-cased spellings `1`/`yes`/`true`/`on` give true and `0`/`no`/`false`/`off` give false. Every other text is an error. |
| ValueParse.ParseBoolIgnoresCase | klippy/klippy.py:29 | Lower-casing the text first does not change which boolean is read. |
| ValueParse.BoolRoundTrip | klippy/klippy.py:29 | `str(True)` and `str(False)` read back as themselves. |
| StringOrder.LessIrreflexive | klippy/klippy.py:75 | Python's string `<`, by code point and then by length, never holds between a name and itself. |
| StringOrder.LessTransitive | klippy/klippy.py:75 | That `<` is transitive. |
| StringOrder.LessTotal | klippy/klippy.py:75 | Of two different names, that `<` holds at least one way round. |
| StringOrder.LessAsymmetric | klippy/klippy.py:75 | It never holds both ways round. With totality this gives `sorted()` a single answer. |
| StringOrder.Sorted | klippy/klippy.py:75 | `sorted()` of the registry keys lists every name once, in strictly ascending string order, and nothing else. |
| StringOrder.AscendingCoverIsSorted | klippy/klippy.py:75 | Any strictly ascending listing of exactly a set's names is the sorted listing, so the build order is unique. |
| Registry.ConstructionsShape | klippy/klippy.py:54-65 | The constructor calls are the tool head plus exactly the present optional sections. They come in table order with the tool head last, and no name is built twice. Each object gets its own class and its own section's view; the tool head gets `[printer]`. |
| Registry.BuildObjects | klippy/klippy.py:54-65 | The registry always holds the tool head, and its keys are exactly the names of the constructor calls. |
| Registry.ConstructionsFillRegistry | klippy/klippy.py:54-65 | The constructor calls and the registry have the same size, each call's object is what the registry holds under its name, the keys are exactly the calls' names, and the tool head is built last. |
| Registry.BuildObjectsContents | klippy/klippy.py:54-65 | The registry's keys are the tool head plus the present optional sections. Each entry is of its own class and scoped to its own section, and the tool head is scoped to `[printer]`. |
| Klippy.Init | klippy/klippy.py:34-65 | Construction leaves both timers due `NOW`, the registry as built from the file, and the channel chosen by debug input or `pseudo_tty`. The recorded calls are g-code parser, MCU, stats timer, connect timer, then the constructor calls. Each call builds the object the registry keeps under its name. The calls come in the order the sections are tested, so no name is built twice. Every registry object is built, and the tool head comes last. |
| Klippy.RegistryConstructionOf | klippy/klippy.py:54-65 | The constructor calls for a file build exactly the registry for that file: each object once, in section-test order, with the tool head last. |
| Lifecycle.ChannelChoice | klippy/klippy.py:38-47 | Without debug input the g-code parser reads the `pseudo_tty` path from `[printer]`, or `/tmp/printer` by default. With debug input it reads the input file. |
| Lifecycle.InitIsBeforeConnect | klippy/klippy.py:34-65 | Construction makes no `build_config` call (object, g-code parser or MCU) and does not start the g-code loop. It does construct the registry objects. |
| Timers.RegisterTimer | klippy/klippy.py:49-52 | A registered timer gets a handle distinct from every live one and the requested deadline. Other timers are untouched. |
| Timers.UpdateTimer | klippy/klippy.py:86 | Rescheduling changes only the named timer's deadline and keeps the set of timers. An unknown handle changes nothing. |
| Timers.UnregisterTimer | klippy/klippy.py:83 | Unregistering removes exactly the named timer and leaves every other deadline as it was. |
| Klippy.Stats | klippy/klippy.py:67-73 | It needs the tool head in the registry, as the lookup `objects['toolhead']` does. A statistics call queries g-code, tool head and MCU and logs, at the event time. It leaves the timers alone and asks to run again one second later. |
| Klippy.BuildConfig | klippy/klippy.py:74-78 | A build pass makes one object call per registry entry, in strictly ascending name order, followed by the g-code parser's and then the MCU's. |
| Lifecycle.BuildPassIsSortedWalk | klippy/klippy.py:74-78 | Any call sequence meeting the build-pass shape is exactly the sorted walk. Each registry object is built exactly once, and no other name is built. |
| Klippy.Connect | klippy/klippy.py:79-84 | The connect callback connects the MCU, runs one full build pass, starts the g-code loop, and unregisters its own timer. It keeps the printer valid and returns `NEVER`. |
| Lifecycle.ConnectCalls | klippy/klippy.py:79-84 | The connect callback's calls are exactly: MCU connect, the sorted build pass, g-code run, and unregister of the connect timer. |
| Lifecycle.ConnectPrecedesBuild | klippy/klippy.py:79-84 | Starting from a trace with no `build_config` calls and no g-code loop start, no `build_config` call (object, g-code parser or MCU) comes before the MCU connects, and every one comes before the g-code loop starts. |
| Lifecycle.InitThenConnectOrder | klippy/klippy.py:49-84 | From construction through the connect callback, the MCU connects before any `build_config` call (object, g-code parser or MCU), and the g-code loop starts after all of them. |
| Lifecycle.LiveModeTimers | klippy/klippy.py:49-52 | Construction registers the statistics timer and then the connect timer, and leaves both due `NOW`. |
| Lifecycle.ConnectLeavesStatsTimer | klippy/klippy.py:79-84 | The connect callback removes its own timer. It keeps the statistics timer with whatever deadline that timer has, including after `stats` has rescheduled it. |
| Klippy.ConnectFile | klippy/klippy.py:85-87 | Capture mode sets the statistics timer to `NEVER` and then redirects the MCU to the output file and dictionary. Nothing else changes. |
| Lifecycle.ConnectFileIdempotent | klippy/klippy.py:85-87 | Entering capture mode twice leaves the same deadlines as entering it once. |
| Lifecycle.CaptureModeKeepsStatsOff | klippy/klippy.py:85-93 | After capture mode the statistics timer stays `NEVER` through the connect callback and `run`. |
| Lifecycle.CaptureModeFromInit | klippy/klippy.py:49-87 | From construction, capture mode plus the connect callback leave only the statistics timer, set to `NEVER`. |
| Klippy.Run | klippy/klippy.py:88-93 | It needs the tool head in the registry, because it calls `stats`. `run` runs the reactor and then makes the final calls: statistics at the first time reading, MCU disconnect, statistics at the second reading. Timers are unchanged. |
| Lifecycle.DisconnectBetweenFinalStats | klippy/klippy.py:88-93 | The MCU disconnects exactly once after the loop. The MCU queries before it carry the first time reading, and those after it carry the second. |
| Klippy.Shutdown | klippy/klippy.py:94-95 | A shutdown request reaches the g-code parser and nothing else. |
| Scenarios.ExampleRegistry | klippy/klippy.py:54-65 | A file with `[printer]`, `[fan]` and `[extruder]` yields the registry `{fan, extruder, toolhead}`, with the extruder object on `[extruder]`. |
| Scenarios.ExampleConnect | klippy/klippy.py:54-84 | For that file, the connect callback builds the extruder, the fan and the tool head in that order, then g-code and MCU. |
| Scenarios.ExampleGetInt | klippy/klippy.py:18-21 | `getint` gives the stored number, the default for a missing option, and the default for a missing section. |
| Scenarios.ExampleGetFloat | klippy/klippy.py:22-25 | `getfloat` of `abc` is a conversion error, not the default. |
| Scenarios.ExampleIntTexts | klippy/klippy.py:21 | `int()` reads `+5` as 5 and `007` as 7, and rejects the empty text, `+`, `5-` and `--5`. |
| Scenarios.ExampleFloatFractions | klippy/klippy.py:25 | `float()` reads `1.25` as 1.25 and `-.5` as -0.5. |

## Left out

- `main`, option parsing and `read_dictionary` (startup plumbing, file I/O): the dictionary and output file are parameters of `connect_file`.
- Logging and `queuelogger`: the stats log line is a `LogStats` event; the `%.0f` text formatting is not modelled.
- `util.create_pty`, `debuginput.fileno()` and other OS calls: the g-code channel is the value `PseudoTty(path)` or `DebugInput`.
- The reactor's run loop, its dispatch order and its blocking: `run` records one `ReactorRun` call. The reactor module is not part of this model.
- The collaborators' internals (`gcode`, `mcu`, `toolhead`, `fan`, `extruder`, `heater`): each call on them is an event in the trace.
- `time.time()`: the two readings in `run` are parameters.
- Python floats: event times and `getfloat` results are exact reals, so `eventtime + 1.` does not round.
- Errors raised by collaborators (the MCU handshake, a constructor's own validation): the model assumes every collaborator call returns.
- `RawConfigParser` details: option-name lower-casing, the `DEFAULT` section, and stripping of whitespace around values. The store holds the text as the parser would return it.
- ValueParse.ParseFloat: accepts only an optional sign and decimal digits with at most one point. Exponents, `inf`, `nan` and surrounding whitespace, which Python's `float()` also accepts, are rejected.
- ValueParse.ParseInt: accepts only an optional sign followed directly by decimal digits. It rejects surrounding whitespace and whitespace between the sign and the digits, both of which Python 2's `int()` skips.
- Timer callbacks run outside the reactor loop: `connect` and `stats` are applied as separate steps, before `run`, although the program calls them from inside `reactor.run()`. So a composed trace records `McuConnect` before `ReactorRun`. The order in which the reactor interleaves the two due timers is not modelled.
- Timers.UnregisterTimer: total. A handle that is not live leaves the reactor unchanged. The program only ever unregisters its own live connect timer (klippy/klippy.py:83), and the reactor's behaviour for other handles is not part of this model.
- Timers.UpdateTimer: an unknown handle leaves the reactor unchanged. The reactor's own behaviour for a handle it no longer holds is not part of this model.
