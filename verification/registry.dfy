/**
 The printer-object registry that `Printer.__init__` builds: one object per
 optional section present in the file, tested in a fixed order, plus the
 tool head, which is always built last and reads the `printer` section.
 */
module Registry {
  import opened Config

  /** The class each registry entry is an instance of. */
  datatype Kind = PrinterFan | PrinterExtruder | PrinterHeater | ToolHead

  /** A constructed object: its class and the configuration view it was given. */
  datatype PrinterObject = PrinterObject(kind: Kind, config: ConfigWrapper)

  /** An optional section and the class built when it is present. */
  type Entry = (string, Kind)

  /** The optional sections, in the order the constructor tests them. */
  const Optional: seq<Entry> := [("fan", PrinterFan), ("extruder", PrinterExtruder), ("heater_bed", PrinterHeater)]

  /** The names of the optional sections. */
  const OptionalSections: set<string> := TableNames(Optional)

  /** The registry name of the tool head, and the section it reads. */
  const ToolHeadName: string := "toolhead"
  const PrinterSection: string := "printer"

  /** One constructor call: the registry name and the object built. */
  type Construction = (string, PrinterObject)

  /** The optional objects built for `table`, in table order. */
  function ConstructOptional(store: ConfigStore, table: seq<Entry>): seq<Construction>
    decreases |table|
  {
    if |table| == 0 then []
    else
      var (name, kind) := table[0];
      (if HasSection(store, name) then [(name, PrinterObject(kind, ConfigWrapper(store, name)))] else [])
      + ConstructOptional(store, table[1..])
  }

  /** The constructor calls of `Printer.__init__`, in the order it makes them. */
  function Constructions(store: ConfigStore): (r: seq<Construction>)
    ensures |r| >= 1 && r[|r| - 1].0 == ToolHeadName
  {
    ConstructOptional(store, Optional)
    + [(ToolHeadName, PrinterObject(ToolHead, ConfigWrapper(store, PrinterSection)))]
  }

  /** The registry names a sequence of constructor calls mentions. */
  function Names(cs: seq<Construction>): set<string>
  {
    set i | 0 <= i < |cs| :: cs[i].0
  }

  lemma NamesConcat(a: seq<Construction>, b: seq<Construction>)
    ensures Names(a + b) == Names(a) + Names(b)
  {
    forall name | name in Names(a + b)
      ensures name in Names(a) + Names(b)
    {
      var i :| 0 <= i < |a + b| && (a + b)[i].0 == name;
      if i >= |a| {
        assert b[i - |a|].0 == name;
      }
    }
    forall name | name in Names(b)
      ensures name in Names(a + b)
    {
      var i :| 0 <= i < |b| && b[i].0 == name;
      assert (a + b)[|a| + i].0 == name;
    }
    forall name | name in Names(a)
      ensures name in Names(a + b)
    {
      var i :| 0 <= i < |a| && a[i].0 == name;
      assert (a + b)[i].0 == name;
    }
  }

  lemma NamesOfOne(c: Construction)
    ensures Names([c]) == {c.0}
  {
    assert [c][0].0 == c.0;
  }

  /** The names of a table's entries. */
  function TableNames(table: seq<Entry>): set<string>
  {
    set i | 0 <= i < |table| :: table[i].0
  }

  /** Where `name` first appears in `table`, or `|table|` if it does not. */
  function Position(table: seq<Entry>, name: string): (k: nat)
    ensures k <= |table|
    ensures k < |table| ==> table[k].0 == name
    ensures forall j :: 0 <= j < k ==> table[j].0 != name
    decreases |table|
  {
    if |table| == 0 then 0
    else if table[0].0 == name then 0
    else 1 + Position(table[1..], name)
  }

  /** No name appears twice in the table. */
  predicate DistinctNames(table: seq<Entry>)
  {
    forall i, j :: 0 <= i < j < |table| ==> table[i].0 != table[j].0
  }

  lemma TableNamesCons(table: seq<Entry>)
    requires |table| > 0
    ensures TableNames(table) == {table[0].0} + TableNames(table[1..])
  {
    forall n | n in TableNames(table)
      ensures n in {table[0].0} + TableNames(table[1..])
    {
      var k :| 0 <= k < |table| && table[k].0 == n;
      if k > 0 {
        assert table[1..][k - 1].0 == n;
      }
    }
    forall n | n in TableNames(table[1..])
      ensures n in TableNames(table)
    {
      var k :| 0 <= k < |table[1..]| && table[1..][k].0 == n;
      assert table[k + 1].0 == n;
    }
    assert table[0].0 in TableNames(table);
  }

  /** The optional objects built are exactly the table's sections present in the file. */
  lemma {:induction false} ConstructOptionalNames(store: ConfigStore, table: seq<Entry>)
    ensures Names(ConstructOptional(store, table)) == TableNames(table) * store.Keys
    decreases |table|
  {
    if |table| > 0 {
      var (name, kind) := table[0];
      var head := if HasSection(store, name) then [(name, PrinterObject(kind, ConfigWrapper(store, name)))] else [];
      var rest := ConstructOptional(store, table[1..]);
      assert ConstructOptional(store, table) == head + rest;
      ConstructOptionalNames(store, table[1..]);
      NamesConcat(head, rest);
      if HasSection(store, name) {
        NamesOfOne(head[0]);
      }
      TableNamesCons(table);
    }
  }

  /**
   The optional objects come in table order, each of its table class, each
   with a view of its own section.
   */
  lemma {:induction false} ConstructOptionalOrder(store: ConfigStore, table: seq<Entry>)
    requires DistinctNames(table)
    ensures var r := ConstructOptional(store, table);
            && (forall i :: 0 <= i < |r| ==> Position(table, r[i].0) < |table|)
            && (forall i, j :: 0 <= i < j < |r| ==> Position(table, r[i].0) < Position(table, r[j].0))
            && (forall i :: 0 <= i < |r| ==>
                  r[i].1 == PrinterObject(table[Position(table, r[i].0)].1, ConfigWrapper(store, r[i].0)))
    decreases |table|
  {
    if |table| > 0 {
      var (name, kind) := table[0];
      var head := if HasSection(store, name) then [(name, PrinterObject(kind, ConfigWrapper(store, name)))] else [];
      var rest := ConstructOptional(store, table[1..]);
      var r := ConstructOptional(store, table);
      assert r == head + rest;
      ConstructOptionalOrder(store, table[1..]);
      assert rest == ConstructOptional(store, table[1..]);
      forall i | 0 <= i < |rest|
        ensures rest[i].0 != name
        ensures Position(table, rest[i].0) == 1 + Position(table[1..], rest[i].0)
      {
        var k := Position(table[1..], rest[i].0);
        assert table[k + 1].0 == rest[i].0;
      }
      forall i | 0 <= i < |r|
        ensures Position(table, r[i].0) < |table|
        ensures r[i].1 == PrinterObject(table[Position(table, r[i].0)].1, ConfigWrapper(store, r[i].0))
        ensures i >= |head| ==> Position(table, r[i].0) > 0
      {
        if i >= |head| {
          assert r[i] == rest[i - |head|];
        }
      }
    }
  }

  /** The table names three distinct sections, none of them the tool head. */
  lemma OptionalTable()
    ensures DistinctNames(Optional)
    ensures OptionalSections == {"fan", "extruder", "heater_bed"}
    ensures ToolHeadName !in OptionalSections
  {
    assert Optional[0].0 == "fan" && Optional[1].0 == "extruder" && Optional[2].0 == "heater_bed";
    assert TableNames(Optional) == {Optional[0].0, Optional[1].0, Optional[2].0};
  }

  /** Position of a registry name in construction order: the table order, the tool head last. */
  function Rank(name: string): nat
  {
    Position(Optional, name)
  }

  /** The class the object registered under `name` is built from. */
  function KindOf(name: string): Kind
  {
    var k := Position(Optional, name);
    if k < |Optional| then Optional[k].1 else ToolHead
  }

  /** The section whose view the object registered under `name` receives. */
  function SectionFor(name: string): string
  {
    if name == ToolHeadName then PrinterSection else name
  }

  /**
   Construction visits the optional sections in table order and the tool
   head last, never the same name twice, and gives each object its own
   class and its own section's view (the tool head gets `printer`).
   */
  lemma ConstructionsShape(store: ConfigStore)
    ensures var r := Constructions(store);
            && Names(r) == {ToolHeadName} + (OptionalSections * store.Keys)
            && (forall i, j :: 0 <= i < j < |r| ==> Rank(r[i].0) < Rank(r[j].0))
            && (forall i, j :: 0 <= i < j < |r| ==> r[i].0 != r[j].0)
            && (forall i :: 0 <= i < |r| ==>
                  r[i].1 == PrinterObject(KindOf(r[i].0), ConfigWrapper(store, SectionFor(r[i].0))))
  {
    OptionalTable();
    var opt := ConstructOptional(store, Optional);
    var head := [(ToolHeadName, PrinterObject(ToolHead, ConfigWrapper(store, PrinterSection)))];
    var r := Constructions(store);
    ConstructOptionalNames(store, Optional);
    ConstructOptionalOrder(store, Optional);
    NamesConcat(opt, head);
    NamesOfOne(head[0]);
    assert Rank(ToolHeadName) == |Optional|;
    forall i | 0 <= i < |opt|
      ensures opt[i].0 != ToolHeadName
    {
      assert opt[i].0 in Names(opt);
    }
    forall i, j | 0 <= i < j < |r|
      ensures Rank(r[i].0) < Rank(r[j].0)
    {
      if j == |r| - 1 {
        assert r[i] == opt[i];
      }
    }
  }

  /**
   The constructor calls `cs` fill the registry `objects`: one call per
   entry, each leaving its object under its name, the tool head last.
   */
  predicate FillsRegistry(cs: seq<Construction>, objects: map<string, PrinterObject>)
  {
    && |cs| == |objects| && |cs| >= 1 && cs[|cs| - 1].0 == ToolHeadName
    && (forall i :: 0 <= i < |cs| ==> cs[i].0 in objects && objects[cs[i].0] == cs[i].1)
    && objects.Keys == Names(cs)
  }

  /** Successive `objects[name] = obj` assignments; a later one would win. */
  function Insert(cs: seq<Construction>): (objects: map<string, PrinterObject>)
    ensures objects.Keys == Names(cs)
    decreases |cs|
  {
    if |cs| == 0 then map[]
    else Insert(cs[..|cs| - 1])[cs[|cs| - 1].0 := cs[|cs| - 1].1]
  }

  lemma {:induction false} InsertDistinct(cs: seq<Construction>, i: nat)
    requires forall a, b :: 0 <= a < b < |cs| ==> cs[a].0 != cs[b].0
    requires i < |cs|
    ensures cs[i].0 in Insert(cs) && Insert(cs)[cs[i].0] == cs[i].1
    decreases |cs|
  {
    if i < |cs| - 1 {
      InsertDistinct(cs[..|cs| - 1], i);
    }
  }

  /** `self.objects` after construction; the tool head is always there. */
  function BuildObjects(store: ConfigStore): (objects: map<string, PrinterObject>)
    ensures ToolHeadName in objects
    ensures objects.Keys == Names(Constructions(store))
  {
    assert Constructions(store)[|Constructions(store)| - 1].0 == ToolHeadName;
    Insert(Constructions(store))
  }

  /**
   The registry holds the tool head and exactly those optional objects whose
   section is present; each is of its own class, scoped to its own section,
   and the tool head is scoped to `printer`.
   */
  lemma BuildObjectsContents(store: ConfigStore)
    ensures BuildObjects(store).Keys == {ToolHeadName} + (OptionalSections * store.Keys)
    ensures forall name :: name in BuildObjects(store) ==>
              BuildObjects(store)[name] == PrinterObject(KindOf(name), ConfigWrapper(store, SectionFor(name)))
    ensures BuildObjects(store)[ToolHeadName] == PrinterObject(ToolHead, ConfigWrapper(store, PrinterSection))
  {
    var cs := Constructions(store);
    ConstructionsShape(store);
    forall name | name in BuildObjects(store)
      ensures BuildObjects(store)[name] == PrinterObject(KindOf(name), ConfigWrapper(store, SectionFor(name)))
    {
      var i :| 0 <= i < |cs| && cs[i].0 == name;
      InsertDistinct(cs, i);
    }
    OptionalTable();
    assert KindOf(ToolHeadName) == ToolHead;
  }

  /** Construction's calls fill the registry it builds. */
  lemma ConstructionsFillRegistry(store: ConfigStore)
    ensures FillsRegistry(Constructions(store), BuildObjects(store))
  {
    ConstructionsInRankOrder(store);
    RankedNamesDistinct(Constructions(store));
    InsertFillsRegistry(Constructions(store));
  }

  /** Constructor calls with distinct names, the tool head last, fill the registry they insert into. */
  lemma InsertFillsRegistry(cs: seq<Construction>)
    requires |cs| >= 1 && cs[|cs| - 1].0 == ToolHeadName
    requires forall a, b :: 0 <= a < b < |cs| ==> cs[a].0 != cs[b].0
    ensures FillsRegistry(cs, Insert(cs))
  {
    var objects := Insert(cs);
    InsertKeepsEach(cs);
    DistinctNamesCount(cs);
    assert objects.Keys == Names(cs);
    assert |objects| == |objects.Keys| == |cs|;
  }

  /** Names in strictly increasing rank are pairwise distinct. */
  lemma RankedNamesDistinct(cs: seq<Construction>)
    requires forall i, j :: 0 <= i < j < |cs| ==> Rank(cs[i].0) < Rank(cs[j].0)
    ensures forall a, b :: 0 <= a < b < |cs| ==> cs[a].0 != cs[b].0
  {
    forall a, b | 0 <= a < b < |cs|
      ensures cs[a].0 != cs[b].0
    {
      assert Rank(cs[a].0) < Rank(cs[b].0);
    }
  }

  /** With distinct names, every call's object survives the later insertions. */
  lemma InsertKeepsEach(cs: seq<Construction>)
    requires forall a, b :: 0 <= a < b < |cs| ==> cs[a].0 != cs[b].0
    ensures forall i :: 0 <= i < |cs| ==> cs[i].0 in Insert(cs) && Insert(cs)[cs[i].0] == cs[i].1
  {
    forall i | 0 <= i < |cs|
      ensures cs[i].0 in Insert(cs) && Insert(cs)[cs[i].0] == cs[i].1
    {
      InsertDistinct(cs, i);
    }
  }

  /** Construction calls come in strictly increasing rank, the table order. */
  lemma ConstructionsInRankOrder(store: ConfigStore)
    ensures var r := Constructions(store);
            forall i, j :: 0 <= i < j < |r| ==> Rank(r[i].0) < Rank(r[j].0)
  {
    ConstructionsShape(store);
  }

  lemma {:induction false} DistinctNamesCount(cs: seq<Construction>)
    requires forall a, b :: 0 <= a < b < |cs| ==> cs[a].0 != cs[b].0
    ensures |Names(cs)| == |cs|
    decreases |cs|
  {
    if |cs| > 0 {
      var init := cs[..|cs| - 1];
      DistinctNamesCount(init);
      assert cs == init + [cs[|cs| - 1]];
      NamesConcat(init, [cs[|cs| - 1]]);
      NamesOfOne(cs[|cs| - 1]);
      assert cs[|cs| - 1].0 !in Names(init);
    }
  }
}
