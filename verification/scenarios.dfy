/**
 Concrete runs of the model: a configuration with `[printer]`, `[fan]` and
 `[extruder]`, and the typed accessors on a small section.
 */
module Scenarios {
  import opened Results
  import opened Config
  import opened ValueParse
  import opened Timers
  import opened Registry
  import opened StringOrder
  import opened Klippy
  import opened Lifecycle

  /** A file with a printer, a fan and an extruder, but no heated bed. */
  const ExampleStore: ConfigStore := map[
    "printer" := map["pseudo_tty" := "/tmp/printer0", "max_velocity" := "300", "verbose" := "On"],
    "fan" := map[],
    "extruder" := map["max_temp" := "abc"]]

  /** For any file whose sections are `printer`, `fan` and `extruder`, the registry holds the fan, the extruder and the tool head. */
  lemma ExampleRegistry(store: ConfigStore)
    requires store.Keys == {"printer", "fan", "extruder"}
    ensures BuildObjects(store).Keys == {"fan", "extruder", ToolHeadName}
    ensures BuildObjects(store)["extruder"] == PrinterObject(PrinterExtruder, ConfigWrapper(store, "extruder"))
  {
    ExampleRegistryKeys(store);
    ExampleExtruder(store);
  }

  lemma ExampleRegistryKeys(store: ConfigStore)
    requires store.Keys == {"printer", "fan", "extruder"}
    ensures BuildObjects(store).Keys == {"fan", "extruder", ToolHeadName}
  {
    BuildObjectsContents(store);
    ExampleOptionalPresent(store.Keys);
  }

  /** Of the optional sections, only the fan and the extruder appear among these sections. */
  lemma ExampleOptionalPresent(sections: set<string>)
    requires sections == {"printer", "fan", "extruder"}
    ensures {ToolHeadName} + (OptionalSections * sections) == {"fan", "extruder", ToolHeadName}
  {
    OptionalTable();
    assert "heater_bed" !in sections;
    assert OptionalSections * sections == {"fan", "extruder"};
  }

  lemma ExampleExtruder(store: ConfigStore)
    requires "extruder" in store
    ensures "extruder" in BuildObjects(store)
    ensures BuildObjects(store)["extruder"] == PrinterObject(PrinterExtruder, ConfigWrapper(store, "extruder"))
  {
    BuildObjectsContents(store);
    OptionalTable();
    assert "extruder" in OptionalSections;
    assert KindOf("extruder") == PrinterExtruder by {
      assert Position(Optional, "extruder") == 1;
    }
  }

  /** `sorted()` puts the extruder before the fan and the tool head last. */
  lemma ExampleSortedNames(names: set<string>)
    requires names == {"fan", "extruder", ToolHeadName}
    ensures Sorted(names) == ["extruder", "fan", ToolHeadName]
  {
    var r := ["extruder", "fan", ToolHeadName];
    assert Less("extruder", "fan") && Less("fan", "toolhead") && Less("extruder", "toolhead");
    assert StrictlyAscending(r);
    AscendingCoverIsSorted(r, names);
  }

  /** The connect callback builds the extruder, the fan and the tool head, in that order. */
  lemma ExampleConnect(store: ConfigStore, debugInput: bool, eventtime: real)
    requires store.Keys == {"printer", "fan", "extruder"}
    ensures var p := Init(store, debugInput);
            Appended(p, Connect(p, eventtime).printer)
            == [McuConnect, ObjectBuildConfig("extruder"), ObjectBuildConfig("fan"), ObjectBuildConfig(ToolHeadName),
                GCodeBuildConfig, McuBuildConfig, GCodeRun, ReactorUnregister(p.connectTimer)]
  {
    ExampleRegistry(store);
    ExampleConnectCalls(Init(store, debugInput), eventtime);
  }

  /** The connect callback of any printer whose registry is a fan, an extruder and a tool head. */
  lemma ExampleConnectCalls(p: Printer, eventtime: real)
    requires Klippy.Valid(p) && p.objects.Keys == {"fan", "extruder", ToolHeadName}
    ensures Appended(p, Connect(p, eventtime).printer)
            == [McuConnect, ObjectBuildConfig("extruder"), ObjectBuildConfig("fan"), ObjectBuildConfig(ToolHeadName),
                GCodeBuildConfig, McuBuildConfig, GCodeRun, ReactorUnregister(p.connectTimer)]
  {
    ConnectCalls(p, eventtime);
    ExampleBuildCalls(p.objects);
    ExampleConnectSequence(BuildCalls(p.objects), p.connectTimer);
  }

  lemma ExampleConnectSequence(build: seq<Event>, h: TimerId)
    requires build == [ObjectBuildConfig("extruder"), ObjectBuildConfig("fan"), ObjectBuildConfig(ToolHeadName),
                       GCodeBuildConfig, McuBuildConfig]
    ensures [McuConnect] + build + [GCodeRun, ReactorUnregister(h)]
            == [McuConnect, ObjectBuildConfig("extruder"), ObjectBuildConfig("fan"), ObjectBuildConfig(ToolHeadName),
                GCodeBuildConfig, McuBuildConfig, GCodeRun, ReactorUnregister(h)]
  {
  }

  /** The build pass over a registry of a fan, an extruder and a tool head. */
  lemma ExampleBuildCalls(objects: map<string, PrinterObject>)
    requires objects.Keys == {"fan", "extruder", ToolHeadName}
    ensures BuildCalls(objects)
            == [ObjectBuildConfig("extruder"), ObjectBuildConfig("fan"), ObjectBuildConfig(ToolHeadName),
                GCodeBuildConfig, McuBuildConfig]
  {
    ExampleSortedNames(objects.Keys);
    ExampleObjectCalls(Sorted(objects.Keys));
  }

  lemma ExampleObjectCalls(names: seq<string>)
    requires names == ["extruder", "fan", ToolHeadName]
    ensures ObjectBuildCalls(names) == [ObjectBuildConfig("extruder"), ObjectBuildConfig("fan"), ObjectBuildConfig(ToolHeadName)]
  {
  }

  /** `getint`: the stored text read as a number, or the default when the option or the whole section is absent. */
  lemma ExampleGetInt()
    ensures GetInt(ConfigWrapper(ExampleStore, "printer"), "max_velocity", Some(5)) == Ok(Some(300))
    ensures GetInt(ConfigWrapper(ExampleStore, "printer"), "max_accel", Some(5)) == Ok(Some(5))
    ensures GetInt(ConfigWrapper(ExampleStore, "heater_bed"), "max_temp", None) == Ok(None)
  {
    assert DigitsValue("300") == 300 by {
      assert "300"[..2] == "30" && "30"[..1] == "3" && "3"[..0] == "";
    }
  }

  /** `getfloat` on text that is not a number raises the conversion error. */
  lemma ExampleGetFloat()
    ensures GetFloat(ConfigWrapper(ExampleStore, "extruder"), "max_temp", Some(1.5)) == Err(NotAFloat("abc"))
  {
    assert DotIndex("abc") == 3 by {
      assert "abc"[1..] == "bc" && "bc"[1..] == "c" && "c"[1..] == "";
    }
    assert !IsDigit("abc"[0]);
  }

  /** `int()` takes a leading `+` and leading zeros, and refuses a bare or misplaced sign. */
  lemma ExampleIntTexts()
    ensures ParseInt("+5") == Ok(5)
    ensures ParseInt("007") == Ok(7)
    ensures ParseInt("").Err? && ParseInt("+").Err? && ParseInt("5-").Err? && ParseInt("--5").Err?
  {
    ParseIntAccepts("+5");
    assert IntegerNumeral("+5", "+", "5");
    assert DigitsValue("007") == 7 by {
      assert "007"[..2] == "00" && "00"[..1] == "0" && "0"[..0] == "";
    }
    assert !IsDigit("5-"[1]);
    assert "--5"[1..] == "-5" && !IsDigit("-5"[0]);
  }

  /** `float()` reads a fractional part, with or without digits before the point. */
  lemma ExampleFloatFractions()
    ensures ParseFloat("1.25") == Ok(1.25)
    ensures ParseFloat("-.5") == Ok(-0.5)
  {
    ExampleDecimal();
    ExampleBareFraction();
  }

  /** Digits on both sides of the point. */
  lemma ExampleDecimal()
    ensures DecimalValue("1.25") == Ok(1.25)
  {
    assert DotIndex("1.25") == 1 by {
      assert "1.25"[1..] == ".25";
    }
    assert "1.25"[..1] == "1" && "1.25"[2..] == "25";
    assert DigitsValue("1") == 1 by {
      assert "1"[..0] == "";
    }
    assert DigitsValue("25") == 25 by {
      assert "25"[..1] == "2" && "2"[..0] == "";
    }
    assert ShiftRight(25.0, 2) == 0.25;
  }

  /** No digits before the point. */
  lemma ExampleBareFraction()
    ensures DecimalValue(".5") == Ok(0.5)
  {
    assert DotIndex(".5") == 0;
    assert ".5"[..0] == "" && ".5"[1..] == "5";
    assert DigitsValue("5") == 5 by {
      assert "5"[..0] == "";
    }
    assert ShiftRight(5.0, 1) == 0.5;
  }

  /** `getboolean` accepts any letter case. */
  lemma ExampleGetBoolean()
    ensures GetBoolean(ConfigWrapper(ExampleStore, "printer"), "verbose", Some(false)) == Ok(Some(true))
  {
    assert Lower("On") == "on";
  }
}
