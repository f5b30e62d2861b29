/**
  The QFlags inventory of `generate_qflags_stubs_and_tests.py`: grep lines
  of `Q_DECLARE_FLAGS` become location records, each record lists the Qt
  modules whose stub declares both the QFlags class and its enum (a module
  declaring them several times is listed as often as the rarer of the two),
  records are grouped by how many modules they were found in, and a plan
  selects the single-module records for processing and skips the others.
*/
module QFlagsGenerator {
  import opened Wrappers
  import opened Text
  import opened QFlagDeclarations

  /** A Qt module: its name and the path of its stub file. */
  datatype ModuleRef = ModuleRef(name: string, path: string)

  /** Where one QFlags class was found: its grep line, its classes and the modules declaring them. */
  datatype QFlagLocationInfo = QFlagLocationInfo(grepLine: string, qflagClass: string, qflagEnum: string, moduleInfo: seq<ModuleRef>)

  /** The qtbase modules searched for flag declarations. */
  const QtbaseModules: seq<ModuleRef> := [
    ModuleRef("QtCore", "../../PyQt5-stubs/QtCore.pyi"),
    ModuleRef("QtWidgets", "../../PyQt5-stubs/QtWidgets.pyi"),
    ModuleRef("QtGui", "../../PyQt5-stubs/QtGui.pyi"),
    ModuleRef("QtNetwork", "../../PyQt5-stubs/QtNetwork.pyi"),
    ModuleRef("QtDbus", "../../PyQt5-stubs/QtDbus.pyi"),
    ModuleRef("QtOpengl", "../../PyQt5-stubs/QtOpengl.pyi"),
    ModuleRef("QtPrintsupport", "../../PyQt5-stubs/QtPrintsupport.pyi"),
    ModuleRef("QtSql", "../../PyQt5-stubs/QtSql.pyi"),
    ModuleRef("QtTest", "../../PyQt5-stubs/QtTest.pyi"),
    ModuleRef("QtXml", "../../PyQt5-stubs/QtXml.pyi")
  ]

  // ---------------------------------------------------------------------
  // Reading the grep output

  /** One grep line, stripped of white space first: blank lines and lines of the QFlags header give no record. */
  function ParseGrepLine(l: string): (r: Result<Option<QFlagLocationInfo>>)
    ensures |Strip(l, Whitespace)| == 0 ==> r == Ok(None)
    ensures r.Ok? && r.value.Some? ==> r.value.value.grepLine == Strip(l, Whitespace) && r.value.value.moduleInfo == []
  {
    var grepLine := Strip(l, Whitespace);
    if |grepLine| == 0 then Ok(None)
    else match ParseDeclaration(grepLine)
      case Err(e) => Err(e)
      case Ok(None) => Ok(None)
      case Ok(Some(d)) => Ok(Some(QFlagLocationInfo(grepLine, d.qflagClass, d.enumClass, [])))
  }

  /** The records of all grep lines in order, or the exception of the first line that fails. */
  function ParseGrepLines(lines: seq<string>): (r: Result<seq<QFlagLocationInfo>>)
    ensures r.Ok? ==> |r.value| <= |lines| && forall i :: 0 <= i < |r.value| ==> r.value[i].moduleInfo == []
    decreases |lines|
  {
    if |lines| == 0 then Ok([])
    else match ParseGrepLines(lines[..|lines| - 1])
      case Err(e) => Err(e)
      case Ok(parsed) => match ParseGrepLine(lines[|lines| - 1])
        case Err(e) => Err(e)
        case Ok(None) => Ok(parsed)
        case Ok(Some(info)) => Ok(parsed + [info])
  }

  /** Once a prefix of the lines fails, the whole reading fails with the same exception. */
  lemma {:induction false} ParseErrPersists(lines: seq<string>, j: nat)
    requires j <= |lines|
    requires ParseGrepLines(lines[..j]).Err?
    ensures ParseGrepLines(lines) == ParseGrepLines(lines[..j])
    decreases |lines|
  {
    if j < |lines| {
      var front := lines[..|lines| - 1];
      assert front[..j] == lines[..j];
      ParseErrPersists(front, j);
    } else {
      assert lines[..j] == lines;
    }
  }

  /** A declaration whose grep line reads back as itself. */
  predicate WellFormed(d: Declaration) {
    && ':' !in d.fileName && Trimmed(d.fileName, Whitespace) && d.fileName != QFlagSrc
    && PlainName(d.qflagClass) && PlainName(d.enumClass)
  }

  /** The record of a declaration, before any module is attached. */
  function RecordOf(d: Declaration): QFlagLocationInfo {
    QFlagLocationInfo(GrepLine(d.fileName, d.qflagClass, d.enumClass), d.qflagClass, d.enumClass, [])
  }

  /** Reading back the grep lines of well-formed declarations gives one record per declaration, in order. */
  lemma {:induction false} ParseGrepLinesOfDeclarations(decls: seq<Declaration>)
    requires forall i :: 0 <= i < |decls| ==> WellFormed(decls[i])
    ensures ParseGrepLines(GrepLines(decls)) == Ok(Records(decls))
    decreases |decls|
  {
    if |decls| > 0 {
      var n := |decls| - 1;
      var d := decls[n];
      assert WellFormed(d);
      ParseGrepLinesOfDeclarations(decls[..n]);
      ParseGrepLineOfRecord(d);
      var l := GrepLine(d.fileName, d.qflagClass, d.enumClass);
      ParseGrepLinesSnoc(GrepLines(decls[..n]), l, Records(decls[..n]), RecordOf(d));
      DeclarationsSnoc(decls);
    }
  }

  lemma DeclarationsSnoc(decls: seq<Declaration>)
    requires |decls| > 0
    ensures GrepLines(decls) == GrepLines(decls[..|decls| - 1]) + [GrepLine(decls[|decls| - 1].fileName, decls[|decls| - 1].qflagClass, decls[|decls| - 1].enumClass)]
    ensures Records(decls) == Records(decls[..|decls| - 1]) + [RecordOf(decls[|decls| - 1])]
  {
  }

  /** The grep lines of a list of declarations. */
  function GrepLines(decls: seq<Declaration>): (r: seq<string>)
    ensures |r| == |decls|
  {
    seq(|decls|, i requires 0 <= i < |decls| => GrepLine(decls[i].fileName, decls[i].qflagClass, decls[i].enumClass))
  }

  /** The records of a list of declarations. */
  function Records(decls: seq<Declaration>): (r: seq<QFlagLocationInfo>)
    ensures |r| == |decls|
  {
    seq(|decls|, i requires 0 <= i < |decls| => RecordOf(decls[i]))
  }

  lemma ParseGrepLinesSnoc(lines: seq<string>, l: string, parsed: seq<QFlagLocationInfo>, info: QFlagLocationInfo)
    requires ParseGrepLines(lines) == Ok(parsed)
    requires ParseGrepLine(l) == Ok(Some(info))
    ensures ParseGrepLines(lines + [l]) == Ok(parsed + [info])
  {
    assert (lines + [l])[..|lines|] == lines;
  }

  lemma ParseGrepLineOfRecord(d: Declaration)
    requires WellFormed(d)
    ensures ParseGrepLine(GrepLine(d.fileName, d.qflagClass, d.enumClass)) == Ok(Some(RecordOf(d)))
  {
    var line := GrepLine(d.fileName, d.qflagClass, d.enumClass);
    GrepLineTrimmed(d);
    ParseGrepLineOfDeclaration(d.fileName, d.qflagClass, d.enumClass);
  }

  lemma GrepLineTrimmed(d: Declaration)
    requires WellFormed(d)
    ensures Strip(GrepLine(d.fileName, d.qflagClass, d.enumClass), Whitespace) == GrepLine(d.fileName, d.qflagClass, d.enumClass)
    ensures Trimmed(d.fileName, FieldBlanks)
  {
    var line := GrepLine(d.fileName, d.qflagClass, d.enumClass);
    assert line[|line| - 1] == ')';
    assert line[0] == if |d.fileName| > 0 then d.fileName[0] else ':';
    StripTrimmed(line, Whitespace);
  }

  // ---------------------------------------------------------------------
  // Matching records against module stubs

  /** A module together with the text of its stub file. */
  datatype LoadedModule = LoadedModule(ref: ModuleRef, content: string)

  /** Reads every module's stub; a missing file raises `FileNotFoundError`. */
  function LoadModules(qtModules: seq<ModuleRef>, files: map<string, string>): (r: Result<seq<LoadedModule>>)
    ensures r.Ok? <==> forall i :: 0 <= i < |qtModules| ==> qtModules[i].path in files
    ensures r.Err? ==> r.error == FileNotFound
    ensures r.Ok? ==> (|r.value| == |qtModules| &&
      forall i :: 0 <= i < |qtModules| ==> r.value[i] == LoadedModule(qtModules[i], files[qtModules[i].path]))
  {
    if forall i :: 0 <= i < |qtModules| ==> qtModules[i].path in files then
      Ok(seq(|qtModules|, i requires 0 <= i < |qtModules| && qtModules[i].path in files => LoadedModule(qtModules[i], files[qtModules[i].path])))
    else Err(FileNotFound)
  }

  /** The text that declares a class in a stub. */
  function DeclOf(className: string): string {
    "class " + className + "("
  }

  function Min(a: nat, b: nat): nat {
    if a <= b then a else b
  }

  /**
    How many times a module is listed for a record: not at all unless its
    stub declares both classes; once, or as many times as the rarer of the
    two declarations when both occur more than once.
  */
  function Copies(info: QFlagLocationInfo, content: string): nat {
    var declQFlagClass := DeclOf(info.qflagClass);
    var declEnumClass := DeclOf(info.qflagEnum);
    if Contains(content, declQFlagClass) && Contains(content, declEnumClass) then
      var countQFlagClass := Count(content, declQFlagClass);
      var countEnumClass := Count(content, declEnumClass);
      if countQFlagClass > 1 && countEnumClass > 1 then Min(countQFlagClass, countEnumClass) else 1
    else 0
  }

  /**
    A module is listed exactly when its stub declares both classes, and
    never more often than either class is declared in it.
  */
  lemma CopiesBounds(info: QFlagLocationInfo, content: string)
    ensures Copies(info, content) > 0 <==> Contains(content, DeclOf(info.qflagClass)) && Contains(content, DeclOf(info.qflagEnum))
    ensures Copies(info, content) <= Count(content, DeclOf(info.qflagClass))
    ensures Copies(info, content) <= Count(content, DeclOf(info.qflagEnum))
  {
    CountPositiveIffContains(content, DeclOf(info.qflagClass));
    CountPositiveIffContains(content, DeclOf(info.qflagEnum));
  }

  /** `k` copies of one module. */
  function Repeat(m: ModuleRef, k: nat): (r: seq<ModuleRef>)
    ensures |r| == k && forall i :: 0 <= i < k ==> r[i] == m
  {
    seq(k, _ => m)
  }

  /** The modules listed for a record, in module order, each as many times as `Copies` says. */
  function Matches(info: QFlagLocationInfo, mods: seq<LoadedModule>): seq<ModuleRef>
    decreases |mods|
  {
    if |mods| == 0 then []
    else
      var last := mods[|mods| - 1];
      Matches(info, mods[..|mods| - 1]) + Repeat(last.ref, Copies(info, last.content))
  }

  /** Modules listed under distinct references. */
  predicate DistinctRefs(mods: seq<LoadedModule>) {
    forall i, j :: 0 <= i < j < |mods| ==> mods[i].ref != mods[j].ref
  }

  /** Each module appears in a record's list exactly `Copies` times, and nothing else appears. */
  lemma {:induction false} MatchesMultiplicity(info: QFlagLocationInfo, mods: seq<LoadedModule>)
    requires DistinctRefs(mods)
    ensures forall j :: 0 <= j < |mods| ==> multiset(Matches(info, mods))[mods[j].ref] == Copies(info, mods[j].content)
    ensures forall m :: m in Matches(info, mods) ==> exists j :: 0 <= j < |mods| && mods[j].ref == m && Copies(info, mods[j].content) > 0
    decreases |mods|
  {
    if |mods| > 0 {
      var n := |mods| - 1;
      var front := mods[..n];
      var last := mods[n];
      MatchesMultiplicity(info, front);
      var rep := Repeat(last.ref, Copies(info, last.content));
      assert Matches(info, mods) == Matches(info, front) + rep;
      RepeatMultiset(last.ref, Copies(info, last.content));
      forall j | 0 <= j < |mods|
        ensures multiset(Matches(info, mods))[mods[j].ref] == Copies(info, mods[j].content)
      {
        if j < n {
          assert mods[j] == front[j];
          assert mods[j].ref != last.ref;
        } else {
          assert last.ref !in Matches(info, front);
        }
      }
    }
  }

  lemma RepeatMultiset(m: ModuleRef, k: nat)
    ensures multiset(Repeat(m, k))[m] == k
    ensures forall x :: x != m ==> multiset(Repeat(m, k))[x] == 0
    decreases k
  {
    if k > 0 {
      assert Repeat(m, k) == Repeat(m, k - 1) + [m];
      RepeatMultiset(m, k - 1);
    }
  }

  /** A record is found in no module exactly when no stub declares both of its classes. */
  lemma {:induction false} MatchesEmpty(info: QFlagLocationInfo, mods: seq<LoadedModule>)
    ensures Matches(info, mods) == [] <==> forall j :: 0 <= j < |mods| ==> Copies(info, mods[j].content) == 0
    decreases |mods|
  {
    if |mods| > 0 {
      MatchesEmpty(info, mods[..|mods| - 1]);
      assert forall j :: 0 <= j < |mods| - 1 ==> mods[..|mods| - 1][j] == mods[j];
    }
  }

  /** A record with the modules that declare its classes appended to its list. */
  function Locate(info: QFlagLocationInfo, mods: seq<LoadedModule>): QFlagLocationInfo {
    info.(moduleInfo := info.moduleInfo + Matches(info, mods))
  }

  function LocateAll(infos: seq<QFlagLocationInfo>, mods: seq<LoadedModule>): (r: seq<QFlagLocationInfo>)
    ensures |r| == |infos|
  {
    seq(|infos|, i requires 0 <= i < |infos| => Locate(infos[i], mods))
  }

  /** What `identify_qflag_location` returns: the read records, each located in the modules. */
  function Identify(grepLines: seq<string>, qtModules: seq<ModuleRef>, files: map<string, string>): Result<seq<QFlagLocationInfo>> {
    match ParseGrepLines(grepLines)
      case Err(e) => Err(e)
      case Ok(parsed) => match LoadModules(qtModules, files)
        case Err(e) => Err(e)
        case Ok(mods) => Ok(LocateAll(parsed, mods))
  }

  /**
    Every identified record keeps its grep line and classes and lists
    exactly the modules that declare both of them, each `Copies` times.
  */
  lemma IdentifyRecords(grepLines: seq<string>, qtModules: seq<ModuleRef>, files: map<string, string>, i: nat)
    requires Identify(grepLines, qtModules, files).Ok?
    requires i < |Identify(grepLines, qtModules, files).value|
    ensures var parsed := ParseGrepLines(grepLines).value;
            var mods := LoadModules(qtModules, files).value;
            var r := Identify(grepLines, qtModules, files).value[i];
      && i < |parsed|
      && r.grepLine == parsed[i].grepLine && r.qflagClass == parsed[i].qflagClass && r.qflagEnum == parsed[i].qflagEnum
      && r.moduleInfo == Matches(parsed[i], mods)
  {
  }

  /** Reads the grep output, then lists for each record the modules whose stub declares both its classes. */
  method IdentifyQFlagLocation(grepLines: seq<string>, qtModules: seq<ModuleRef>, files: map<string, string>)
    returns (r: Result<seq<QFlagLocationInfo>>)
    ensures r == Identify(grepLines, qtModules, files)
  {
    var parsedQFlags := ReadGrepResult(grepLines);
    if parsedQFlags.Err? {
      return Err(parsedQFlags.error);
    }
    var loaded := LoadModules(qtModules, files);
    if loaded.Err? {
      return Err(loaded.error);
    }
    var located := LocateQFlags(parsedQFlags.value, loaded.value);
    return Ok(located);
  }

  /** The reading loop over the grep output: blank and QFlags-header lines are skipped, the first failure is raised. */
  method ReadGrepResult(grepLines: seq<string>) returns (r: Result<seq<QFlagLocationInfo>>)
    ensures r == ParseGrepLines(grepLines)
  {
    var parsedQFlags: seq<QFlagLocationInfo> := [];
    for i := 0 to |grepLines|
      invariant ParseGrepLines(grepLines[..i]) == Ok(parsedQFlags)
    {
      assert grepLines[..i + 1][..i] == grepLines[..i];
      var grepLine := Strip(grepLines[i], Whitespace);
      if |grepLine| == 0 {
        continue;
      }
      var parsed := ParseDeclaration(grepLine);
      if parsed.Err? {
        ParseErrPersists(grepLines, i + 1);
        return Err(parsed.error);
      }
      if parsed.value.None? {
        continue;
      }
      var d := parsed.value.value;
      parsedQFlags := parsedQFlags + [QFlagLocationInfo(grepLine, d.qflagClass, d.enumClass, [])];
    }
    assert grepLines[..|grepLines|] == grepLines;
    return Ok(parsedQFlags);
  }

  /** The matching loops: each record gets the modules whose stub declares both its classes. */
  method LocateQFlags(parsedQFlags: seq<QFlagLocationInfo>, qtModulesContent: seq<LoadedModule>) returns (located: seq<QFlagLocationInfo>)
    ensures located == LocateAll(parsedQFlags, qtModulesContent)
  {
    located := [];
    for i := 0 to |parsedQFlags|
      invariant located == LocateAll(parsedQFlags[..i], qtModulesContent)
    {
      var info := parsedQFlags[i];
      var moduleInfo := ModulesDeclaring(info, qtModulesContent);
      located := located + [info.(moduleInfo := moduleInfo)];
    }
    assert parsedQFlags[..|parsedQFlags|] == parsedQFlags;
  }

  /** The inner loop for one record: its module list after every module has been searched. */
  method ModulesDeclaring(info: QFlagLocationInfo, qtModulesContent: seq<LoadedModule>) returns (moduleInfo: seq<ModuleRef>)
    ensures moduleInfo == info.moduleInfo + Matches(info, qtModulesContent)
  {
    var declQFlagClass := DeclOf(info.qflagClass);
    var declEnumClass := DeclOf(info.qflagEnum);
    moduleInfo := info.moduleInfo;
    for j := 0 to |qtModulesContent|
      invariant moduleInfo == info.moduleInfo + Matches(info, qtModulesContent[..j])
    {
      var m := qtModulesContent[j];
      assert qtModulesContent[..j + 1][..j] == qtModulesContent[..j];
      ghost var before := moduleInfo;
      if Contains(m.content, declQFlagClass) && Contains(m.content, declEnumClass) {
        moduleInfo := moduleInfo + [m.ref];
        var countQFlagClass := Count(m.content, declQFlagClass);
        var countEnumClass := Count(m.content, declEnumClass);
        if countQFlagClass > 1 && countEnumClass > 1 {
          var extraAdd := Min(countQFlagClass, countEnumClass) - 1;
          for k := 0 to extraAdd
            invariant moduleInfo == before + Repeat(m.ref, k + 1)
          {
            moduleInfo := moduleInfo + [m.ref];
          }
        }
      }
    }
    assert qtModulesContent[..|qtModulesContent|] == qtModulesContent;
  }

  // ---------------------------------------------------------------------
  // Grouping

  /** The group a record belongs to, by the length of its module list. */
  datatype Placement = OneModule | ManyModules | NoModule

  function PlacementOf(info: QFlagLocationInfo): Placement {
    if |info.moduleInfo| == 1 then OneModule
    else if |info.moduleInfo| > 1 then ManyModules
    else NoModule
  }

  /** The records of one group, in input order. */
  function Select(infos: seq<QFlagLocationInfo>, p: Placement): (r: seq<QFlagLocationInfo>)
    ensures |r| <= |infos|
    decreases |infos|
  {
    if |infos| == 0 then []
    else (if PlacementOf(infos[0]) == p then [infos[0]] else []) + Select(infos[1..], p)
  }

  datatype Groups = Groups(oneFlagOneModule: seq<QFlagLocationInfo>, oneFlagManyModules: seq<QFlagLocationInfo>, oneFlagNoModule: seq<QFlagLocationInfo>)

  function GroupQFlags(qflagLocation: seq<QFlagLocationInfo>): Groups {
    Groups(Select(qflagLocation, OneModule), Select(qflagLocation, ManyModules), Select(qflagLocation, NoModule))
  }

  /** A record is in a group exactly when it is in the input and has that group's placement. */
  lemma {:induction false} SelectMembers(infos: seq<QFlagLocationInfo>, p: Placement)
    ensures forall x :: x in Select(infos, p) <==> x in infos && PlacementOf(x) == p
    decreases |infos|
  {
    if |infos| > 0 {
      SelectMembers(infos[1..], p);
      assert infos == [infos[0]] + infos[1..];
    }
  }

  /** Grouping keeps input order: the group of a concatenation is the concatenation of the groups. */
  lemma {:induction false} SelectAppend(a: seq<QFlagLocationInfo>, b: seq<QFlagLocationInfo>, p: Placement)
    ensures Select(a + b, p) == Select(a, p) + Select(b, p)
    decreases |a|
  {
    if |a| == 0 {
      assert a + b == b;
    } else {
      var head := if PlacementOf(a[0]) == p then [a[0]] else [];
      assert (a + b)[0] == a[0];
      assert (a + b)[1..] == a[1..] + b;
      assert Select(a + b, p) == head + Select(a[1..] + b, p);
      SelectAppend(a[1..], b, p);
      assert Select(a, p) == head + Select(a[1..], p);
    }
  }

  /** The three groups partition the records: together they hold each record exactly as often as the input. */
  lemma {:induction false} GroupPartition(infos: seq<QFlagLocationInfo>)
    ensures var g := GroupQFlags(infos);
      multiset(g.oneFlagOneModule) + multiset(g.oneFlagManyModules) + multiset(g.oneFlagNoModule) == multiset(infos)
    decreases |infos|
  {
    if |infos| > 0 {
      var x := infos[0];
      var rest := infos[1..];
      GroupPartition(rest);
      assert infos == [x] + rest;
      assert multiset(infos) == multiset{x} + multiset(rest);
      SelectHead(infos, OneModule);
      SelectHead(infos, ManyModules);
      SelectHead(infos, NoModule);
    }
  }

  lemma SelectHead(infos: seq<QFlagLocationInfo>, p: Placement)
    requires |infos| > 0
    ensures multiset(Select(infos, p)) == (if PlacementOf(infos[0]) == p then multiset{infos[0]} else multiset{}) + multiset(Select(infos[1..], p))
  {
  }

  // ---------------------------------------------------------------------
  // The process/skip plan

  /** A record left out of processing, with the reason. */
  datatype Skip = Skip(qflagClass: string, qflagEnum: string, skipReason: string)

  datatype Plan = Plan(qflagsToProcess: seq<QFlagLocationInfo>, qflagsToSkip: seq<Skip>)

  const ReasonManyModules := "QFlag present more than once or in multiple modules"
  const ReasonNotFound := "QFlag not found"

  function SkipOf(info: QFlagLocationInfo, reason: string): Skip {
    Skip(info.qflagClass, info.qflagEnum, reason)
  }

  /** One skip per record, with one reason. */
  function SkipsFor(infos: seq<QFlagLocationInfo>, reason: string): (r: seq<Skip>)
    ensures |r| == |infos|
  {
    seq(|infos|, i requires 0 <= i < |infos| => SkipOf(infos[i], reason))
  }

  /**
    The skips as the script writes them: the `QFlag not found` loop sits
    inside the loop over the many-modules records, so after each of those
    records the whole not-found list is skipped again.
  */
  function AsWrittenSkips(many: seq<QFlagLocationInfo>, noModule: seq<QFlagLocationInfo>): (r: seq<Skip>)
    ensures |r| == |many| * (1 + |noModule|)
    decreases |many|
  {
    if |many| == 0 then []
    else AsWrittenSkips(many[..|many| - 1], noModule) + [SkipOf(many[|many| - 1], ReasonManyModules)] + SkipsFor(noModule, ReasonNotFound)
  }

  /** The plan built by the script as written. */
  method ExtractQFlagsToProcessAsWritten(d: Groups) returns (result: Plan)
    ensures result == Plan(d.oneFlagOneModule, AsWrittenSkips(d.oneFlagManyModules, d.oneFlagNoModule))
  {
    var qflagsToSkip: seq<Skip> := [];
    var many := d.oneFlagManyModules;
    for i := 0 to |many|
      invariant qflagsToSkip == AsWrittenSkips(many[..i], d.oneFlagNoModule)
    {
      assert many[..i + 1][..i] == many[..i];
      qflagsToSkip := qflagsToSkip + [SkipOf(many[i], ReasonManyModules)];
      for j := 0 to |d.oneFlagNoModule|
        invariant qflagsToSkip == AsWrittenSkips(many[..i], d.oneFlagNoModule) + [SkipOf(many[i], ReasonManyModules)]
                                  + SkipsFor(d.oneFlagNoModule[..j], ReasonNotFound)
      {
        assert SkipsFor(d.oneFlagNoModule[..j + 1], ReasonNotFound)
            == SkipsFor(d.oneFlagNoModule[..j], ReasonNotFound) + [SkipOf(d.oneFlagNoModule[j], ReasonNotFound)];
        qflagsToSkip := qflagsToSkip + [SkipOf(d.oneFlagNoModule[j], ReasonNotFound)];
      }
      assert d.oneFlagNoModule[..|d.oneFlagNoModule|] == d.oneFlagNoModule;
    }
    assert many[..|many|] == many;
    var qflagsToProcess: seq<QFlagLocationInfo> := [];
    for i := 0 to |d.oneFlagOneModule|
      invariant qflagsToProcess == d.oneFlagOneModule[..i]
    {
      qflagsToProcess := qflagsToProcess + [d.oneFlagOneModule[i]];
    }
    result := Plan(qflagsToProcess, qflagsToSkip);
  }

  /**
    The plan with the not-found loop at the level of the other two: every
    many-modules record is skipped once for that reason, then every
    not-found record once for its reason, and the single-module records are
    processed, all in group order.
  */
  method ExtractQFlagsToProcess(d: Groups) returns (result: Plan)
    ensures result.qflagsToProcess == d.oneFlagOneModule
    ensures |result.qflagsToSkip| == |d.oneFlagManyModules| + |d.oneFlagNoModule|
    ensures forall i :: 0 <= i < |d.oneFlagManyModules| ==> result.qflagsToSkip[i] == SkipOf(d.oneFlagManyModules[i], ReasonManyModules)
    ensures forall i :: 0 <= i < |d.oneFlagNoModule| ==>
      result.qflagsToSkip[|d.oneFlagManyModules| + i] == SkipOf(d.oneFlagNoModule[i], ReasonNotFound)
    ensures result == IntendedPlan(d)
  {
    var qflagsToSkip: seq<Skip> := [];
    for i := 0 to |d.oneFlagManyModules|
      invariant qflagsToSkip == SkipsFor(d.oneFlagManyModules[..i], ReasonManyModules)
    {
      qflagsToSkip := qflagsToSkip + [SkipOf(d.oneFlagManyModules[i], ReasonManyModules)];
    }
    assert d.oneFlagManyModules[..|d.oneFlagManyModules|] == d.oneFlagManyModules;
    ghost var manySkips := qflagsToSkip;
    for i := 0 to |d.oneFlagNoModule|
      invariant qflagsToSkip == manySkips + SkipsFor(d.oneFlagNoModule[..i], ReasonNotFound)
    {
      qflagsToSkip := qflagsToSkip + [SkipOf(d.oneFlagNoModule[i], ReasonNotFound)];
    }
    assert d.oneFlagNoModule[..|d.oneFlagNoModule|] == d.oneFlagNoModule;
    var qflagsToProcess: seq<QFlagLocationInfo> := [];
    for i := 0 to |d.oneFlagOneModule|
      invariant qflagsToProcess == d.oneFlagOneModule[..i]
    {
      qflagsToProcess := qflagsToProcess + [d.oneFlagOneModule[i]];
    }
    result := Plan(qflagsToProcess, qflagsToSkip);
  }

  /** The plan the corrected script builds, as a value. */
  function IntendedPlan(d: Groups): Plan {
    Plan(d.oneFlagOneModule, SkipsFor(d.oneFlagManyModules, ReasonManyModules) + SkipsFor(d.oneFlagNoModule, ReasonNotFound))
  }

  /**
    With the corrected plan every record of the inventory is accounted for
    exactly once: processed, or skipped with the reason of its group.
  */
  lemma IntendedPlanAccountsForAll(infos: seq<QFlagLocationInfo>)
    ensures var plan := IntendedPlan(GroupQFlags(infos));
      |plan.qflagsToProcess| + |plan.qflagsToSkip| == |infos|
  {
    GroupPartition(infos);
    var g := GroupQFlags(infos);
    assert |multiset(infos)| == |multiset(g.oneFlagOneModule)| + |multiset(g.oneFlagManyModules)| + |multiset(g.oneFlagNoModule)|;
  }

  /**
    As written, a not-found record is reported only when some record sits in
    several modules, and then once per such record: an inventory whose one
    record was found nowhere gets an empty plan.
  */
  lemma AsWrittenLosesNotFound(info: QFlagLocationInfo)
    requires |info.moduleInfo| == 0
    ensures var g := GroupQFlags([info]);
      && AsWrittenSkips(g.oneFlagManyModules, g.oneFlagNoModule) == []
      && IntendedPlan(g) == Plan([], [SkipOf(info, ReasonNotFound)])
  {
    assert [info][1..] == [];
  }

  /** As written, two many-modules records report each not-found record twice. */
  lemma AsWrittenRepeatsNotFound(many1: QFlagLocationInfo, many2: QFlagLocationInfo, lost: QFlagLocationInfo)
    ensures AsWrittenSkips([many1, many2], [lost])
         == [SkipOf(many1, ReasonManyModules), SkipOf(lost, ReasonNotFound), SkipOf(many2, ReasonManyModules), SkipOf(lost, ReasonNotFound)]
  {
    assert [many1, many2][..1] == [many1];
    assert [many1][..0] == [];
    assert SkipsFor([lost], ReasonNotFound) == [SkipOf(lost, ReasonNotFound)];
  }

  // ---------------------------------------------------------------------
  // Processing the head of the queue

  /** The result lists written by `process_qflag`; whenever the script writes them, they are empty. */
  datatype ProcessResult = ProcessResult(qflagAlreadyDone: seq<QFlagLocationInfo>, qflagProcessedDone: seq<QFlagLocationInfo>,
                                         qflagProcessError: seq<QFlagLocationInfo>)

  /**
    One step over the queue of records to process: an empty queue means
    everything is done. Otherwise the head is taken; its first module must
    exist (`IndexError`) and its stub must be readable (`FileNotFoundError`)
    and declare each class exactly once (an assertion); then the step
    reports that work remains. The empty result lists are written on every
    path past the empty-queue test, errors included, and not when the queue
    is empty: that test returns before the `try` whose `finally` writes them.
  */
  method ProcessQFlag(qflagsToProcess: seq<QFlagLocationInfo>, files: map<string, string>)
    returns (done: Result<bool>, written: Option<ProcessResult>)
    ensures written.None? <==> |qflagsToProcess| == 0
    ensures written.Some? ==> written.value == ProcessResult([], [], [])
    ensures done == Ok(true) <==> |qflagsToProcess| == 0
    ensures done == Err(IndexError) <==> |qflagsToProcess| > 0 && |qflagsToProcess[0].moduleInfo| == 0
    ensures done == Err(FileNotFound) <==>
      |qflagsToProcess| > 0 && |qflagsToProcess[0].moduleInfo| > 0 && qflagsToProcess[0].moduleInfo[0].path !in files
    ensures done == Ok(false) <==>
      && |qflagsToProcess| > 0 && |qflagsToProcess[0].moduleInfo| > 0
      && qflagsToProcess[0].moduleInfo[0].path in files
      && Count(files[qflagsToProcess[0].moduleInfo[0].path], DeclOf(qflagsToProcess[0].qflagClass)) == 1
      && Count(files[qflagsToProcess[0].moduleInfo[0].path], DeclOf(qflagsToProcess[0].qflagEnum)) == 1
    ensures done.Err? ==> done.error in {IndexError, FileNotFound, AssertionError}
  {
    var result := ProcessResult([], [], []);
    if |qflagsToProcess| == 0 {
      return Ok(true), None;
    }
    written := Some(result);
    var queue := qflagsToProcess;
    var flagInfo := queue[0];
    queue := queue[1..];
    if |flagInfo.moduleInfo| == 0 {
      return Err(IndexError), written;
    }
    var path := flagInfo.moduleInfo[0].path;
    if path !in files {
      return Err(FileNotFound), written;
    }
    var modContent := files[path];
    if Count(modContent, DeclOf(flagInfo.qflagClass)) != 1 {
      return Err(AssertionError), written;
    }
    if Count(modContent, DeclOf(flagInfo.qflagEnum)) != 1 {
      return Err(AssertionError), written;
    }
    return Ok(false), written;
  }
}
