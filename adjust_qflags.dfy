/**
  The QFlags inventory of `adjust_qflags.py`: grep lines of
  `Q_DECLARE_FLAGS` become entries, the module table is extended in place
  with the text of each module's stub, every entry gets the name of each
  module whose stub declares both of its classes, a per-module tally counts
  the entries of each QFlags class, and the entries are cut into four
  groups, each sorted by (module list, QFlags class). The entries found
  once in exactly one module are the result.
*/
module AdjustQFlags {
  import opened Wrappers
  import opened Text
  import opened QFlagDeclarations
  import opened PyOrder
  import QFlagsGenerator

  /** A parsed declaration: its header, its QFlags class, its enum class and the modules it was found in. */
  datatype DeclaredQFlag = DeclaredQFlag(fileName: string, qflagClass: string, enumClass: string, modules: seq<string>)

  /** The module table as the script declares it: one `[name, stub path]` list per qtbase module. */
  const QtbaseModuleEntries: seq<seq<string>> :=
    seq(|QFlagsGenerator.QtbaseModules|, i requires 0 <= i < |QFlagsGenerator.QtbaseModules| =>
      [QFlagsGenerator.QtbaseModules[i].name, QFlagsGenerator.QtbaseModules[i].path])

  // ---------------------------------------------------------------------
  // Reading the grep output

  /** One grep line: blank lines and lines of the QFlags header give no entry. */
  function ParseDeclaredLine(l: string): (r: Result<Option<DeclaredQFlag>>)
    ensures |Strip(l, Whitespace)| == 0 ==> r == Ok(None)
    ensures r.Ok? && r.value.Some? ==> r.value.value.modules == [] && r.value.value.fileName != QFlagSrc
  {
    if |Strip(l, Whitespace)| == 0 then Ok(None)
    else match ParseDeclaration(l)
      case Err(e) => Err(e)
      case Ok(None) => Ok(None)
      case Ok(Some(d)) => Ok(Some(DeclaredQFlag(d.fileName, d.qflagClass, d.enumClass, [])))
  }

  /** The entries of all grep lines in order, or the exception of the first line that fails. */
  function ParseDeclaredLines(lines: seq<string>): (r: Result<seq<DeclaredQFlag>>)
    ensures r.Ok? ==> |r.value| <= |lines| && forall i :: 0 <= i < |r.value| ==> r.value[i].modules == []
    decreases |lines|
  {
    if |lines| == 0 then Ok([])
    else match ParseDeclaredLines(lines[..|lines| - 1])
      case Err(e) => Err(e)
      case Ok(parsed) => match ParseDeclaredLine(lines[|lines| - 1])
        case Err(e) => Err(e)
        case Ok(None) => Ok(parsed)
        case Ok(Some(q)) => Ok(parsed + [q])
  }

  /** Once a prefix of the lines fails, the whole reading fails with the same exception. */
  lemma {:induction false} ParseDeclaredErrPersists(lines: seq<string>, j: nat)
    requires j <= |lines|
    requires ParseDeclaredLines(lines[..j]).Err?
    ensures ParseDeclaredLines(lines) == ParseDeclaredLines(lines[..j])
    decreases |lines|
  {
    if j < |lines| {
      var front := lines[..|lines| - 1];
      assert front[..j] == lines[..j];
      ParseDeclaredErrPersists(front, j);
    } else {
      assert lines[..j] == lines;
    }
  }

  /** The reading loop: one entry per declaration line, with no module yet. */
  method ReadDeclaredQFlags(lines: seq<string>) returns (r: Result<seq<DeclaredQFlag>>)
    ensures r == ParseDeclaredLines(lines)
  {
    var parsedQFlags: seq<DeclaredQFlag> := [];
    for i := 0 to |lines|
      invariant ParseDeclaredLines(lines[..i]) == Ok(parsedQFlags)
    {
      assert lines[..i + 1][..i] == lines[..i];
      var l := lines[i];
      if |Strip(l, Whitespace)| == 0 {
        continue;
      }
      var parsed := ParseDeclaration(l);
      if parsed.Err? {
        ParseDeclaredErrPersists(lines, i + 1);
        return Err(parsed.error);
      }
      if parsed.value.None? {
        continue;
      }
      var d := parsed.value.value;
      parsedQFlags := parsedQFlags + [DeclaredQFlag(d.fileName, d.qflagClass, d.enumClass, [])];
    }
    assert lines[..|lines|] == lines;
    return Ok(parsedQFlags);
  }

  /** The grep line of a well-formed declaration comes back as one entry carrying the declaration's names. */
  lemma ParseDeclaredLineOfDeclaration(d: Declaration)
    requires QFlagsGenerator.WellFormed(d)
    ensures ParseDeclaredLine(GrepLine(d.fileName, d.qflagClass, d.enumClass)) == Ok(Some(DeclaredQFlag(d.fileName, d.qflagClass, d.enumClass, [])))
  {
    QFlagsGenerator.GrepLineTrimmed(d);
    ParseGrepLineOfDeclaration(d.fileName, d.qflagClass, d.enumClass);
  }

  // ---------------------------------------------------------------------
  // The module table, extended in place with each stub's text

  /** A table entry that unpacks into a name and a path whose stub can be read. */
  predicate Fillable(entry: seq<string>, files: map<string, string>) {
    |entry| == 2 && entry[1] in files
  }

  /** The first entry that cannot be filled, or the table's length when all can. */
  function FirstUnfillable(entries: seq<seq<string>>, files: map<string, string>): (k: nat)
    ensures k <= |entries|
    ensures forall i :: 0 <= i < k ==> Fillable(entries[i], files)
    ensures k < |entries| ==> !Fillable(entries[k], files)
    decreases |entries|
  {
    if |entries| == 0 || !Fillable(entries[0], files) then 0
    else 1 + FirstUnfillable(entries[1..], files)
  }

  /** The exception raised on an entry that cannot be filled: a failed unpack, or a missing stub. */
  function FillError(entry: seq<string>): Exception {
    if |entry| != 2 then ValueError else FileNotFound
  }

  /** Entries with their stub's text appended. */
  function Filled(entries: seq<seq<string>>, files: map<string, string>): (r: seq<seq<string>>)
    requires forall i :: 0 <= i < |entries| ==> Fillable(entries[i], files)
    ensures |r| == |entries|
  {
    seq(|entries|, i requires 0 <= i < |entries| && Fillable(entries[i], files) => entries[i] + [files[entries[i][1]]])
  }

  /** The script's global module table, whose entries are lists that the script extends in place. */
  class QtbaseModuleTable {
    var entries: seq<seq<string>>

    constructor (initial: seq<seq<string>>)
      ensures entries == initial
    {
      entries := initial;
    }

    /**
      Appends each module's stub text to its entry, in table order. An entry
      that does not unpack into a name and a path raises `ValueError`, a
      missing stub `FileNotFoundError`; the entries before it stay extended.
    */
    method FillContents(files: map<string, string>) returns (r: Result<()>)
      modifies this
      ensures var k := FirstUnfillable(old(entries), files);
        && entries == Filled(old(entries)[..k], files) + old(entries)[k..]
        && (r.Ok? <==> k == |old(entries)|)
        && (r.Err? ==> r.error == FillError(old(entries)[k]))
    {
      ghost var initial := entries;
      ghost var k := FirstUnfillable(initial, files);
      for i := 0 to |entries|
        invariant |entries| == |initial| && i <= k
        invariant entries == Filled(initial[..i], files) + initial[i..]
      {
        var modInfo := entries[i];
        assert modInfo == initial[i];
        if |modInfo| != 2 {
          FillStopsAt(initial, files, i);
          return Err(ValueError);
        }
        var modStubPath := modInfo[1];
        if modStubPath !in files {
          FillStopsAt(initial, files, i);
          return Err(FileNotFound);
        }
        FillStep(initial, i, files);
        entries := entries[i := modInfo + [files[modStubPath]]];
      }
      assert initial[..|initial|] == initial;
      return Ok(());
    }
  }

  /** An entry that cannot be filled, with none before it, is the first such entry. */
  lemma FillStopsAt(entries: seq<seq<string>>, files: map<string, string>, i: nat)
    requires i < |entries| && i <= FirstUnfillable(entries, files) && !Fillable(entries[i], files)
    ensures FirstUnfillable(entries, files) == i
  {
  }

  lemma FillStep(entries: seq<seq<string>>, i: nat, files: map<string, string>)
    requires i < |entries| && forall j :: 0 <= j <= i ==> Fillable(entries[j], files)
    ensures Filled(entries[..i + 1], files) + entries[i + 1..]
         == (Filled(entries[..i], files) + entries[i..])[i := entries[i] + [files[entries[i][1]]]]
  {
    var a := Filled(entries[..i + 1], files) + entries[i + 1..];
    var b := (Filled(entries[..i], files) + entries[i..])[i := entries[i] + [files[entries[i][1]]]];
    assert |a| == |b|;
    forall j | 0 <= j < |a| ensures a[j] == b[j] {
      if j < i {
        assert a[j] == Filled(entries[..i + 1], files)[j];
      } else if j > i {
        assert a[j] == entries[i + 1..][j - i - 1];
      }
    }
  }

  /**
    The table is extended in place, so the script can fill it only once:
    a second fill of a filled table fails on its first entry, which no
    longer unpacks into two values, and leaves the table as it was.
  */
  lemma SecondFillFails(entries: seq<seq<string>>, files: map<string, string>)
    requires |entries| > 0 && FirstUnfillable(entries, files) == |entries|
    ensures FirstUnfillable(Filled(entries, files), files) == 0
    ensures FillError(Filled(entries, files)[0]) == ValueError
  {
    assert |Filled(entries, files)[0]| == 3;
  }

  /** A module with its name and the text of its stub. */
  datatype StubModule = StubModule(name: string, content: string)

  /** The modules of a filled table, each entry unpacked into its name, path and text. */
  function ModulesOf(entries: seq<seq<string>>): (r: seq<StubModule>)
    requires forall i :: 0 <= i < |entries| ==> |entries[i]| == 3
    ensures |r| == |entries|
  {
    seq(|entries|, i requires 0 <= i < |entries| && |entries[i]| == 3 => StubModule(entries[i][0], entries[i][2]))
  }

  // ---------------------------------------------------------------------
  // Attaching modules and tallying them

  /** The names of the modules whose stub declares both classes of an entry, in table order. */
  function AttachedNames(q: DeclaredQFlag, mods: seq<StubModule>): (r: seq<string>)
    ensures |r| <= |mods|
    decreases |mods|
  {
    if |mods| == 0 then []
    else
      var m := mods[|mods| - 1];
      AttachedNames(q, mods[..|mods| - 1])
        + (if Declares(m, q) then [m.name] else [])
  }

  function Attach(q: DeclaredQFlag, mods: seq<StubModule>): DeclaredQFlag {
    q.(modules := q.modules + AttachedNames(q, mods))
  }

  function AttachAll(qs: seq<DeclaredQFlag>, mods: seq<StubModule>): (r: seq<DeclaredQFlag>)
    ensures |r| == |qs|
  {
    seq(|qs|, i requires 0 <= i < |qs| => Attach(qs[i], mods))
  }

  /** Modules with pairwise different names. */
  predicate DistinctNames(mods: seq<StubModule>) {
    forall i, j :: 0 <= i < j < |mods| ==> mods[i].name != mods[j].name
  }

  /** Whether a module's stub declares both classes of an entry. */
  predicate Declares(m: StubModule, q: DeclaredQFlag) {
    Contains(m.content, QFlagsGenerator.DeclOf(q.qflagClass)) && Contains(m.content, QFlagsGenerator.DeclOf(q.enumClass))
  }

  /**
    A module name is attached to an entry exactly when that module's stub
    declares both of its classes, and, when names are distinct, exactly once.
  */
  lemma {:induction false} AttachedNamesCount(q: DeclaredQFlag, mods: seq<StubModule>, j: nat)
    requires DistinctNames(mods) && j < |mods|
    ensures multiset(AttachedNames(q, mods))[mods[j].name] == if Declares(mods[j], q) then 1 else 0
    decreases |mods|
  {
    if j < |mods| - 1 {
      DistinctFront(mods);
      AttachedNamesCount(q, mods[..|mods| - 1], j);
      AttachedCountEarlier(q, mods, j);
    } else {
      AttachedCountLast(q, mods);
    }
  }

  /** The last module's name is attached once if it declares the entry, and not otherwise. */
  lemma AttachedCountLast(q: DeclaredQFlag, mods: seq<StubModule>)
    requires DistinctNames(mods) && |mods| > 0
    ensures multiset(AttachedNames(q, mods))[mods[|mods| - 1].name] == if Declares(mods[|mods| - 1], q) then 1 else 0
  {
    var n := |mods| - 1;
    var b := Declares(mods[n], q);
    assert AttachedNames(q, mods) == AttachedNames(q, mods[..n]) + (if b then [mods[n].name] else []);
    CountOfSnoc(AttachedNames(q, mods[..n]), mods[n].name, mods[n].name, b);
    DistinctFront(mods);
    AttachedNamesFrom(q, mods[..n], mods[n].name);
  }

  /** An earlier module's count is its count without the last module. */
  lemma AttachedCountEarlier(q: DeclaredQFlag, mods: seq<StubModule>, j: nat)
    requires DistinctNames(mods) && j < |mods| - 1
    ensures multiset(AttachedNames(q, mods))[mods[j].name] == multiset(AttachedNames(q, mods[..|mods| - 1]))[mods[j].name]
  {
    var n := |mods| - 1;
    var b := Declares(mods[n], q);
    assert AttachedNames(q, mods) == AttachedNames(q, mods[..n]) + (if b then [mods[n].name] else []);
    CountOfSnoc(AttachedNames(q, mods[..n]), mods[j].name, mods[n].name, b);
  }

  lemma CountOfSnoc(front: seq<string>, x: string, y: string, b: bool)
    ensures multiset(front + (if b then [y] else []))[x] == multiset(front)[x] + (if b && x == y then 1 else 0)
  {
    if b {
      assert multiset(front + [y]) == multiset(front) + multiset{y};
    } else {
      assert front + [] == front;
    }
  }

  /** Dropping the last module keeps names distinct, and none of the others has its name. */
  lemma DistinctFront(mods: seq<StubModule>)
    requires DistinctNames(mods) && |mods| > 0
    ensures DistinctNames(mods[..|mods| - 1])
    ensures forall i :: 0 <= i < |mods| - 1 ==> mods[..|mods| - 1][i] == mods[i] && mods[i].name != mods[|mods| - 1].name
  {
  }

  /** Only the names of the modules searched are attached. */
  lemma {:induction false} AttachedNamesFrom(q: DeclaredQFlag, mods: seq<StubModule>, x: string)
    requires forall j :: 0 <= j < |mods| ==> mods[j].name != x
    ensures x !in AttachedNames(q, mods)
    decreases |mods|
  {
    if |mods| > 0 {
      AttachedNamesFrom(q, mods[..|mods| - 1], x);
    }
  }

  /** `mod_qflags[mod][cls]`, read with the default count 0. */
  function Lookup(tally: map<string, map<string, nat>>, mod: string, cls: string): nat {
    if mod in tally && cls in tally[mod] then tally[mod][cls] else 0
  }

  /** `mod_qflags[mod][cls] += 1`. */
  function Bump(tally: map<string, map<string, nat>>, mod: string, cls: string): map<string, map<string, nat>> {
    tally[mod := (if mod in tally then tally[mod] else map[])[cls := Lookup(tally, mod, cls) + 1]]
  }

  /** One bump of `cls` per attached module name. */
  function BumpAll(tally: map<string, map<string, nat>>, names: seq<string>, cls: string): map<string, map<string, nat>>
    decreases |names|
  {
    if |names| == 0 then tally
    else Bump(BumpAll(tally, names[..|names| - 1], cls), names[|names| - 1], cls)
  }

  /** The tally after every entry has been matched against every module. */
  function Tally(qs: seq<DeclaredQFlag>, mods: seq<StubModule>): map<string, map<string, nat>>
    decreases |qs|
  {
    if |qs| == 0 then map[]
    else
      var q := qs[|qs| - 1];
      BumpAll(Tally(qs[..|qs| - 1], mods), AttachedNames(q, mods), q.qflagClass)
  }

  /** How many of the entries of class `cls` have module `mod` attached. */
  function EntriesIn(qs: seq<DeclaredQFlag>, mods: seq<StubModule>, mod: string, cls: string): (r: nat)
    ensures r <= |qs|
    decreases |qs|
  {
    if |qs| == 0 then 0
    else
      var q := qs[|qs| - 1];
      EntriesIn(qs[..|qs| - 1], mods, mod, cls) + (if q.qflagClass == cls && mod in AttachedNames(q, mods) then 1 else 0)
  }

  lemma BumpLookup(tally: map<string, map<string, nat>>, mod: string, cls: string, mod2: string, cls2: string)
    ensures Lookup(Bump(tally, mod, cls), mod2, cls2) == Lookup(tally, mod2, cls2) + (if mod2 == mod && cls2 == cls then 1 else 0)
  {
  }

  lemma {:induction false} BumpAllLookup(tally: map<string, map<string, nat>>, names: seq<string>, cls: string, mod: string, cls2: string)
    ensures Lookup(BumpAll(tally, names, cls), mod, cls2) == Lookup(tally, mod, cls2) + (if cls2 == cls then multiset(names)[mod] else 0)
    decreases |names|
  {
    if |names| > 0 {
      var n := |names| - 1;
      BumpAllLookup(tally, names[..n], cls, mod, cls2);
      BumpLookup(BumpAll(tally, names[..n], cls), names[n], cls, mod, cls2);
      assert names == names[..n] + [names[n]];
    }
  }

  /**
    With distinct module names, `mod_qflags[mod][cls]` is the number of
    entries of class `cls` that have module `mod` attached.
  */
  lemma {:induction false} TallyCountsEntries(qs: seq<DeclaredQFlag>, mods: seq<StubModule>, mod: string, cls: string)
    requires DistinctNames(mods)
    ensures Lookup(Tally(qs, mods), mod, cls) == EntriesIn(qs, mods, mod, cls)
    decreases |qs|
  {
    if |qs| > 0 {
      var n := |qs| - 1;
      var q := qs[n];
      TallyCountsEntries(qs[..n], mods, mod, cls);
      BumpAllLookup(Tally(qs[..n], mods), AttachedNames(q, mods), q.qflagClass, mod, cls);
      AttachedAtMostOnce(q, mods, mod);
    }
  }

  lemma AttachedAtMostOnce(q: DeclaredQFlag, mods: seq<StubModule>, mod: string)
    requires DistinctNames(mods)
    ensures multiset(AttachedNames(q, mods))[mod] == if mod in AttachedNames(q, mods) then 1 else 0
  {
    if exists j :: 0 <= j < |mods| && mods[j].name == mod {
      var j :| 0 <= j < |mods| && mods[j].name == mod;
      AttachedNamesCount(q, mods, j);
    } else {
      AttachedNamesFrom(q, mods, mod);
    }
  }

  /** The matching loops: attaches module names to each entry and tallies them. */
  method AttachModules(parsedQFlags: seq<DeclaredQFlag>, mods: seq<StubModule>)
    returns (located: seq<DeclaredQFlag>, modQFlags: map<string, map<string, nat>>)
    ensures located == AttachAll(parsedQFlags, mods)
    ensures modQFlags == Tally(parsedQFlags, mods)
  {
    located := [];
    modQFlags := map[];
    for i := 0 to |parsedQFlags|
      invariant located == AttachAll(parsedQFlags[..i], mods)
      invariant modQFlags == Tally(parsedQFlags[..i], mods)
    {
      var q := parsedQFlags[i];
      assert parsedQFlags[..i + 1][..i] == parsedQFlags[..i];
      var qflagModules;
      qflagModules, modQFlags := AttachToEntry(q, mods, modQFlags);
      located := located + [q.(modules := q.modules + qflagModules)];
    }
    assert parsedQFlags[..|parsedQFlags|] == parsedQFlags;
  }

  /** The inner matching loop for one entry: the module names attached to it and the tally after them. */
  method AttachToEntry(q: DeclaredQFlag, mods: seq<StubModule>, modQFlags0: map<string, map<string, nat>>)
    returns (qflagModules: seq<string>, modQFlags: map<string, map<string, nat>>)
    ensures qflagModules == AttachedNames(q, mods)
    ensures modQFlags == BumpAll(modQFlags0, qflagModules, q.qflagClass)
  {
    var declQFlagClass := QFlagsGenerator.DeclOf(q.qflagClass);
    var declEnumClass := QFlagsGenerator.DeclOf(q.enumClass);
    qflagModules := [];
    modQFlags := modQFlags0;
    for j := 0 to |mods|
      invariant qflagModules == AttachedNames(q, mods[..j])
      invariant modQFlags == BumpAll(modQFlags0, qflagModules, q.qflagClass)
    {
      assert mods[..j + 1][..j] == mods[..j];
      var m := mods[j];
      if Contains(m.content, declQFlagClass) && Contains(m.content, declEnumClass) {
        qflagModules := qflagModules + [m.name];
        modQFlags := Bump(modQFlags, m.name, q.qflagClass);
      }
    }
    assert mods[..|mods|] == mods;
  }

  // ---------------------------------------------------------------------
  // The four groups

  datatype Category = OneModuleSingle | OneModuleMultiple | NoModule | ManyModules

  /** The group of an entry, by its module count and by the tally of its class in its one module. */
  function CategoryOf(q: DeclaredQFlag, modQFlags: map<string, map<string, nat>>): Category {
    if |q.modules| == 1 then (if Lookup(modQFlags, q.modules[0], q.qflagClass) == 1 then OneModuleSingle else OneModuleMultiple)
    else if |q.modules| == 0 then NoModule
    else ManyModules
  }

  /** The entries of one group, in input order. */
  function Group(qs: seq<DeclaredQFlag>, modQFlags: map<string, map<string, nat>>, c: Category): (r: seq<DeclaredQFlag>)
    ensures |r| <= |qs|
    decreases |qs|
  {
    if |qs| == 0 then []
    else (if CategoryOf(qs[0], modQFlags) == c then [qs[0]] else []) + Group(qs[1..], modQFlags, c)
  }

  /** An entry is in a group exactly when it is in the input and belongs to that group. */
  lemma {:induction false} GroupMembers(qs: seq<DeclaredQFlag>, modQFlags: map<string, map<string, nat>>, c: Category)
    ensures forall x :: x in Group(qs, modQFlags, c) <==> x in qs && CategoryOf(x, modQFlags) == c
    decreases |qs|
  {
    if |qs| > 0 {
      GroupMembers(qs[1..], modQFlags, c);
      assert qs == [qs[0]] + qs[1..];
    }
  }

  /** A group holds each entry of its category as often as the input does, and no other entry. */
  lemma {:induction false} GroupCount(qs: seq<DeclaredQFlag>, modQFlags: map<string, map<string, nat>>, c: Category, y: DeclaredQFlag)
    ensures multiset(Group(qs, modQFlags, c))[y] == if CategoryOf(y, modQFlags) == c then multiset(qs)[y] else 0
    decreases |qs|
  {
    if |qs| > 0 {
      GroupCount(qs[1..], modQFlags, c, y);
      assert qs == [qs[0]] + qs[1..];
    }
  }

  /** The four groups partition the entries: together they hold each entry exactly as often as the input. */
  lemma GroupsPartition(qs: seq<DeclaredQFlag>, modQFlags: map<string, map<string, nat>>)
    ensures multiset(Group(qs, modQFlags, OneModuleSingle)) + multiset(Group(qs, modQFlags, OneModuleMultiple))
          + multiset(Group(qs, modQFlags, NoModule)) + multiset(Group(qs, modQFlags, ManyModules)) == multiset(qs)
  {
    var all := multiset(Group(qs, modQFlags, OneModuleSingle)) + multiset(Group(qs, modQFlags, OneModuleMultiple))
             + multiset(Group(qs, modQFlags, NoModule)) + multiset(Group(qs, modQFlags, ManyModules));
    forall y ensures all[y] == multiset(qs)[y] {
      GroupCount(qs, modQFlags, OneModuleSingle, y);
      GroupCount(qs, modQFlags, OneModuleMultiple, y);
      GroupCount(qs, modQFlags, NoModule, y);
      GroupCount(qs, modQFlags, ManyModules, y);
    }
  }

  // ---------------------------------------------------------------------
  // Sorting by (module list, QFlags class)

  /** The sort key `(modules, qflag_class)` of an entry compares below another's. */
  predicate KeyLt(a: DeclaredQFlag, b: DeclaredQFlag) {
    if a.modules != b.modules then ListLt(a.modules, b.modules) else StrLt(a.qflagClass, b.qflagClass)
  }

  /** Two entries with equal sort keys. */
  predicate SameKey(a: DeclaredQFlag, b: DeclaredQFlag) {
    a.modules == b.modules && a.qflagClass == b.qflagClass
  }

  lemma KeyLtIrreflexive(a: DeclaredQFlag)
    ensures !KeyLt(a, a)
  {
    StrLtIrreflexive(a.qflagClass);
  }

  lemma KeyLtAsymmetric(a: DeclaredQFlag, b: DeclaredQFlag)
    requires KeyLt(a, b)
    ensures !KeyLt(b, a)
  {
    if a.modules != b.modules {
      ListLtAsymmetric(a.modules, b.modules);
    } else {
      StrLtAsymmetric(a.qflagClass, b.qflagClass);
    }
  }

  lemma KeyLtTransitive(a: DeclaredQFlag, b: DeclaredQFlag, c: DeclaredQFlag)
    requires KeyLt(a, b) && KeyLt(b, c)
    ensures KeyLt(a, c)
  {
    if a.modules == b.modules && b.modules == c.modules {
      StrLtTransitive(a.qflagClass, b.qflagClass, c.qflagClass);
    } else if a.modules != b.modules && b.modules != c.modules {
      ListLtTransitive(a.modules, b.modules, c.modules);
      if a.modules == c.modules {
        ListLtIrreflexive(a.modules);
      }
    }
  }

  lemma KeyLtTotal(a: DeclaredQFlag, b: DeclaredQFlag)
    ensures SameKey(a, b) || KeyLt(a, b) || KeyLt(b, a)
  {
    ListLtTotal(a.modules, b.modules);
    StrLtTotal(a.qflagClass, b.qflagClass);
  }

  /** Not above: `!(b < a)`, the order `list.sort` leaves between neighbours. */
  lemma KeyLeTransitive(a: DeclaredQFlag, b: DeclaredQFlag, c: DeclaredQFlag)
    requires !KeyLt(b, a) && !KeyLt(c, b)
    ensures !KeyLt(c, a)
  {
    KeyLtTotal(a, b);
    KeyLtTotal(b, c);
    KeyLtIrreflexive(a);
    if KeyLt(a, b) && KeyLt(b, c) {
      KeyLtTransitive(a, b, c);
      KeyLtAsymmetric(a, c);
    } else if KeyLt(a, b) {
      KeyLtAsymmetric(a, b);
    } else if KeyLt(b, c) {
      KeyLtAsymmetric(b, c);
    }
  }

  predicate SortedByKey(qs: seq<DeclaredQFlag>) {
    forall i, j :: 0 <= i < j < |qs| ==> !KeyLt(qs[j], qs[i])
  }

  /** Places `x` before the first entry whose key is not below its own. */
  function Insert(qs: seq<DeclaredQFlag>, x: DeclaredQFlag): (r: seq<DeclaredQFlag>)
    ensures multiset(r) == multiset(qs) + multiset{x}
    decreases |qs|
  {
    if |qs| == 0 || !KeyLt(qs[0], x) then [x] + qs
    else
      assert qs == [qs[0]] + qs[1..];
      [qs[0]] + Insert(qs[1..], x)
  }

  /** `list.sort(key=lambda v: (v[-1], v[1]))`: a stable sort on the key. */
  function SortByKey(qs: seq<DeclaredQFlag>): (r: seq<DeclaredQFlag>)
    decreases |qs|
  {
    if |qs| == 0 then []
    else Insert(SortByKey(qs[1..]), qs[0])
  }

  lemma {:induction false} InsertSorted(qs: seq<DeclaredQFlag>, x: DeclaredQFlag)
    requires SortedByKey(qs)
    ensures SortedByKey(Insert(qs, x))
    decreases |qs|
  {
    if |qs| == 0 || !KeyLt(qs[0], x) {
      var r := [x] + qs;
      forall i, j | 0 <= i < j < |r| ensures !KeyLt(r[j], r[i]) {
        if i == 0 && j > 1 {
          KeyLeTransitive(x, qs[0], qs[j - 1]);
        }
      }
    } else {
      InsertSorted(qs[1..], x);
      var rest := Insert(qs[1..], x);
      var r := [qs[0]] + rest;
      assert multiset(rest) == multiset(qs[1..]) + multiset{x};
      forall j | 0 < j < |r| ensures !KeyLt(r[j], qs[0]) {
        assert r[j] == rest[j - 1];
        assert r[j] in multiset(rest);
        AboveHead(qs, x, r[j]);
      }
    }
  }

  /** In a sorted list whose head is below `x`, nothing of the tail or `x` is below the head. */
  lemma AboveHead(qs: seq<DeclaredQFlag>, x: DeclaredQFlag, y: DeclaredQFlag)
    requires SortedByKey(qs) && |qs| > 0 && KeyLt(qs[0], x)
    requires y in multiset(qs[1..]) + multiset{x}
    ensures !KeyLt(y, qs[0])
  {
    if y == x {
      KeyLtAsymmetric(qs[0], x);
    } else {
      assert y in qs[1..];
      var j :| 0 <= j < |qs[1..]| && qs[1..][j] == y;
      assert qs[j + 1] == y;
    }
  }

  /** The entries with the key of `k`, in order. */
  function WithKey(qs: seq<DeclaredQFlag>, k: DeclaredQFlag): seq<DeclaredQFlag>
    decreases |qs|
  {
    if |qs| == 0 then []
    else (if SameKey(qs[0], k) then [qs[0]] else []) + WithKey(qs[1..], k)
  }

  lemma {:induction false} InsertWithKey(qs: seq<DeclaredQFlag>, x: DeclaredQFlag, k: DeclaredQFlag)
    ensures WithKey(Insert(qs, x), k) == (if SameKey(x, k) then [x] else []) + WithKey(qs, k)
    decreases |qs|
  {
    if |qs| == 0 || !KeyLt(qs[0], x) {
      assert ([x] + qs)[1..] == qs;
    } else {
      var h := qs[0];
      InsertWithKey(qs[1..], x, k);
      KeyLtIrreflexive(x);
      assert !(SameKey(h, k) && SameKey(x, k));
      assert ([h] + Insert(qs[1..], x))[1..] == Insert(qs[1..], x);
    }
  }

  /** The sort orders the entries by key. */
  lemma {:induction false} SortByKeySorted(qs: seq<DeclaredQFlag>)
    ensures SortedByKey(SortByKey(qs))
    decreases |qs|
  {
    if |qs| > 0 {
      SortByKeySorted(qs[1..]);
      InsertSorted(SortByKey(qs[1..]), qs[0]);
    }
  }

  /** The sort is a permutation of its input. */
  lemma {:induction false} SortByKeyPermutes(qs: seq<DeclaredQFlag>)
    ensures multiset(SortByKey(qs)) == multiset(qs)
    decreases |qs|
  {
    if |qs| > 0 {
      SortByKeyPermutes(qs[1..]);
      assert qs == [qs[0]] + qs[1..];
    }
  }

  /** The sort is stable: entries with equal keys keep their input order. */
  lemma {:induction false} SortByKeyStable(qs: seq<DeclaredQFlag>, k: DeclaredQFlag)
    ensures WithKey(SortByKey(qs), k) == WithKey(qs, k)
    decreases |qs|
  {
    if |qs| > 0 {
      SortByKeyStable(qs[1..], k);
      InsertWithKey(SortByKey(qs[1..]), qs[0], k);
    }
  }

  // ---------------------------------------------------------------------
  // The whole inventory

  /** The four groups, each sorted. */
  datatype SortedGroups = SortedGroups(oneModuleSingle: seq<DeclaredQFlag>, oneModuleMultiple: seq<DeclaredQFlag>,
                                       noModule: seq<DeclaredQFlag>, manyModules: seq<DeclaredQFlag>)

  function SortedGroupsOf(located: seq<DeclaredQFlag>, modQFlags: map<string, map<string, nat>>): SortedGroups {
    SortedGroups(SortByKey(Group(located, modQFlags, OneModuleSingle)), SortByKey(Group(located, modQFlags, OneModuleMultiple)),
                 SortByKey(Group(located, modQFlags, NoModule)), SortByKey(Group(located, modQFlags, ManyModules)))
  }

  /** What `parse_declared_qflags` returns for the grep lines, the module table and the stub files. */
  function DeclaredQFlags(lines: seq<string>, entries: seq<seq<string>>, files: map<string, string>): Result<seq<DeclaredQFlag>> {
    match ParseDeclaredLines(lines)
      case Err(e) => Err(e)
      case Ok(parsed) =>
        var k := FirstUnfillable(entries, files);
        if k < |entries| then Err(FillError(entries[k]))
        else
          var mods := ModulesOf(Filled(entries, files));
          Ok(SortByKey(Group(AttachAll(parsed, mods), Tally(parsed, mods), OneModuleSingle)))
  }

  /**
    Reads the grep lines, fills the module table, attaches and tallies the
    modules, groups and sorts the entries, and returns the entries found
    once in exactly one module. The table keeps the stub texts appended.
  */
  method ParseDeclaredQFlagsOf(lines: seq<string>, table: QtbaseModuleTable, files: map<string, string>)
    returns (r: Result<seq<DeclaredQFlag>>)
    modifies table
    ensures r == DeclaredQFlags(lines, old(table.entries), files)
    ensures ParseDeclaredLines(lines).Err? ==> table.entries == old(table.entries)
    ensures ParseDeclaredLines(lines).Ok? ==>
      var k := FirstUnfillable(old(table.entries), files);
      table.entries == Filled(old(table.entries)[..k], files) + old(table.entries)[k..]
  {
    var parsedQFlags := ReadDeclaredQFlags(lines);
    if parsedQFlags.Err? {
      return Err(parsedQFlags.error);
    }
    var filled := table.FillContents(files);
    if filled.Err? {
      return Err(filled.error);
    }
    assert old(table.entries)[..|old(table.entries)|] == old(table.entries);
    assert table.entries == Filled(old(table.entries), files);
    var mods := ModulesOf(table.entries);
    var located, modQFlags := AttachModules(parsedQFlags.value, mods);
    var groups := SortedGroupsOf(located, modQFlags);
    return Ok(groups.oneModuleSingle);
  }

  /**
    Every returned entry sits in exactly one module and, when module names
    are distinct, is the only entry of its QFlags class attached to it; the
    result is sorted by key and holds exactly the entries of the input with
    those properties.
  */
  lemma DeclaredQFlagsResult(parsed: seq<DeclaredQFlag>, mods: seq<StubModule>)
    requires DistinctNames(mods)
    requires forall i :: 0 <= i < |parsed| ==> parsed[i].modules == []
    ensures var located := AttachAll(parsed, mods);
      var result := SortByKey(Group(located, Tally(parsed, mods), OneModuleSingle));
      && SortedByKey(result)
      && (forall x :: x in result <==> x in located && |x.modules| == 1 && EntriesIn(parsed, mods, x.modules[0], x.qflagClass) == 1)
  {
    var located := AttachAll(parsed, mods);
    var tally := Tally(parsed, mods);
    var group := Group(located, tally, OneModuleSingle);
    SortByKeySorted(group);
    SortByKeyPermutes(group);
    GroupMembers(located, tally, OneModuleSingle);
    forall x | x in located && |x.modules| == 1
      ensures CategoryOf(x, tally) == OneModuleSingle <==> EntriesIn(parsed, mods, x.modules[0], x.qflagClass) == 1
    {
      TallyCountsEntries(parsed, mods, x.modules[0], x.qflagClass);
    }
    forall x ensures x in SortByKey(group) <==> x in group {
      assert x in SortByKey(group) <==> x in multiset(SortByKey(group));
    }
  }

  /** The qtbase modules have distinct names. */
  lemma QtbaseNamesDistinct(files: map<string, string>)
    requires FirstUnfillable(QtbaseModuleEntries, files) == |QtbaseModuleEntries|
    ensures DistinctNames(ModulesOf(Filled(QtbaseModuleEntries, files)))
  {
    var mods := ModulesOf(Filled(QtbaseModuleEntries, files));
    var names := ["QtCore", "QtWidgets", "QtGui", "QtNetwork", "QtDbus", "QtOpengl", "QtPrintsupport", "QtSql", "QtTest", "QtXml"];
    forall i | 0 <= i < |mods| ensures mods[i].name == names[i] {
    }
    forall i, j | 0 <= i < j < |mods| ensures mods[i].name != mods[j].name {
      DistinctLiteral(names, i, j);
    }
  }

  lemma DistinctLiteral(names: seq<string>, i: nat, j: nat)
    requires names == ["QtCore", "QtWidgets", "QtGui", "QtNetwork", "QtDbus", "QtOpengl", "QtPrintsupport", "QtSql", "QtTest", "QtXml"]
    requires i < j < |names|
    ensures names[i] != names[j]
  {
    assert names[i][2] != names[j][2] || names[i][3] != names[j][3] || |names[i]| != |names[j]|;
  }
}
