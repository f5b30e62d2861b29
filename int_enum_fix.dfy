/**
  The stub fixer for enum classes whose `__new__` disagrees with the runtime:
  it reads the error report of the stub checker, collects one fix per
  (stub module, class path), and rewrites the class declaration
  `class C(int)` to `class C(IntEnum)` in that module.
*/
module IntEnumFix {
  import opened Wrappers
  import opened Text
  import opened StubTree

  /** The base list of the target class after the rewrite. */
  function FixBases(bases: seq<Base>): (r: seq<Base>)
  {
    if |bases| == 1 && bases[0] == NameBase("int") then [NameBase("IntEnum")] else bases
  }

  /** The rewrite touches only a lone `int` base, and it is idempotent. */
  lemma FixBasesSpec(bases: seq<Base>)
    ensures |bases| != 1 ==> FixBases(bases) == bases
    ensures |bases| == 1 && bases[0] != NameBase("int") ==> FixBases(bases) == bases
    ensures bases == [NameBase("int")] ==> FixBases(bases) == [NameBase("IntEnum")]
    ensures FixBases(FixBases(bases)) == FixBases(bases)
  {
  }

  /**
    The tree after the transformer's walk, for a node whose enclosing class
    names are `path`: only the class whose full path equals `target` has its
    base list rewritten; function bodies are walked for nested classes.
  */
  function Transform(path: seq<string>, target: seq<string>, n: Node): Node
    decreases n
  {
    match n
    case ClassDef(name, bases, body) =>
      var body' := TransformAll(path + [name], target, body);
      if path + [name] == target then ClassDef(name, FixBases(bases), body')
      else ClassDef(name, bases, body')
    case FunctionDef(name, params, ret, leading, body) =>
      FunctionDef(name, params, ret, leading, TransformAll(path, target, body))
    case _ => n
  }

  function TransformAll(path: seq<string>, target: seq<string>, ns: seq<Node>): (r: seq<Node>)
    ensures |r| == |ns|
    decreases ns
  {
    if |ns| == 0 then []
    else TransformAll(path, target, ns[..|ns| - 1]) + [Transform(path, target, ns[|ns| - 1])]
  }

  /** The target can only be found below `path` when `path` is a proper prefix of it. */
  predicate Reachable(path: seq<string>, target: seq<string>) {
    |path| < |target| && target[..|path|] == path
  }

  /** Where the target class cannot occur, the walk returns the tree unchanged. */
  lemma {:induction false} TransformUnreachable(path: seq<string>, target: seq<string>, n: Node)
    requires !Reachable(path, target)
    ensures Transform(path, target, n) == n
    decreases n
  {
    match n
    case ClassDef(name, bases, body) =>
      assert path + [name] != target;
      assert !Reachable(path + [name], target) by {
        if |path| + 1 < |target| {
          assert target[..|path| + 1][..|path|] == target[..|path|];
          assert (path + [name])[..|path|] == path;
        }
      }
      TransformAllUnreachable(path + [name], target, body);
    case FunctionDef(_, _, _, _, body) =>
      TransformAllUnreachable(path, target, body);
    case _ =>
  }

  lemma {:induction false} TransformAllUnreachable(path: seq<string>, target: seq<string>, ns: seq<Node>)
    requires !Reachable(path, target)
    ensures TransformAll(path, target, ns) == ns
    decreases ns
  {
    if |ns| > 0 {
      TransformAllUnreachable(path, target, ns[..|ns| - 1]);
      TransformUnreachable(path, target, ns[|ns| - 1]);
      assert ns[..|ns| - 1] + [ns[|ns| - 1]] == ns;
    }
  }

  /** Running the fixer a second time changes nothing. */
  lemma {:induction false} TransformIdempotent(path: seq<string>, target: seq<string>, n: Node)
    ensures Transform(path, target, Transform(path, target, n)) == Transform(path, target, n)
    decreases n
  {
    match n
    case ClassDef(name, bases, body) =>
      TransformAllIdempotent(path + [name], target, body);
      FixBasesSpec(bases);
    case FunctionDef(_, _, _, _, body) =>
      TransformAllIdempotent(path, target, body);
    case _ =>
  }

  lemma {:induction false} TransformAllIdempotent(path: seq<string>, target: seq<string>, ns: seq<Node>)
    ensures TransformAll(path, target, TransformAll(path, target, ns)) == TransformAll(path, target, ns)
    decreases ns
  {
    if |ns| > 0 {
      var once := TransformAll(path, target, ns);
      TransformAllIdempotent(path, target, ns[..|ns| - 1]);
      TransformIdempotent(path, target, ns[|ns| - 1]);
      assert once[..|once| - 1] == TransformAll(path, target, ns[..|ns| - 1]);
      assert once[|once| - 1] == Transform(path, target, ns[|ns| - 1]);
    }
  }

  /** Fixes for two classes commute, so the order in which a set of fixes is applied does not matter. */
  lemma {:induction false} TransformCommutes(path: seq<string>, t1: seq<string>, t2: seq<string>, n: Node)
    ensures Transform(path, t1, Transform(path, t2, n)) == Transform(path, t2, Transform(path, t1, n))
    decreases n
  {
    match n
    case ClassDef(name, bases, body) =>
      TransformAllCommutes(path + [name], t1, t2, body);
      FixBasesSpec(bases);
    case FunctionDef(_, _, _, _, body) =>
      TransformAllCommutes(path, t1, t2, body);
    case _ =>
  }

  lemma {:induction false} TransformAllCommutes(path: seq<string>, t1: seq<string>, t2: seq<string>, ns: seq<Node>)
    ensures TransformAll(path, t1, TransformAll(path, t2, ns)) == TransformAll(path, t2, TransformAll(path, t1, ns))
    decreases ns
  {
    if |ns| > 0 {
      var a := TransformAll(path, t2, ns);
      var b := TransformAll(path, t1, ns);
      TransformAllCommutes(path, t1, t2, ns[..|ns| - 1]);
      TransformCommutes(path, t1, t2, ns[|ns| - 1]);
      assert a[..|a| - 1] == TransformAll(path, t2, ns[..|ns| - 1]);
      assert b[..|b| - 1] == TransformAll(path, t1, ns[..|ns| - 1]);
    }
  }

  /** The tree with every base list emptied: what the fixer must leave alone. */
  function EraseBases(n: Node): Node
    decreases n
  {
    match n
    case ClassDef(name, _, body) => ClassDef(name, [], EraseBasesAll(body))
    case FunctionDef(name, params, ret, leading, body) => FunctionDef(name, params, ret, leading, EraseBasesAll(body))
    case _ => n
  }

  function EraseBasesAll(ns: seq<Node>): (r: seq<Node>)
    ensures |r| == |ns|
    decreases ns
  {
    if |ns| == 0 then [] else EraseBasesAll(ns[..|ns| - 1]) + [EraseBases(ns[|ns| - 1])]
  }

  /** The walk changes base lists only: names, parameters, bodies and node kinds are kept. */
  lemma {:induction false} TransformOnlyChangesBases(path: seq<string>, target: seq<string>, n: Node)
    ensures EraseBases(Transform(path, target, n)) == EraseBases(n)
    decreases n
  {
    match n
    case ClassDef(name, _, body) =>
      TransformAllOnlyChangesBases(path + [name], target, body);
    case FunctionDef(_, _, _, _, body) =>
      TransformAllOnlyChangesBases(path, target, body);
    case _ =>
  }

  lemma {:induction false} TransformAllOnlyChangesBases(path: seq<string>, target: seq<string>, ns: seq<Node>)
    ensures EraseBasesAll(TransformAll(path, target, ns)) == EraseBasesAll(ns)
    decreases ns
  {
    if |ns| > 0 {
      var t := TransformAll(path, target, ns);
      TransformAllOnlyChangesBases(path, target, ns[..|ns| - 1]);
      TransformOnlyChangesBases(path, target, ns[|ns| - 1]);
      assert t[..|t| - 1] == TransformAll(path, target, ns[..|ns| - 1]);
    }
  }

  /** The target class based on `int` is rebased on `IntEnum`; its name and body are walked as usual. */
  lemma TransformTarget(path: seq<string>, target: seq<string>, name: string, body: seq<Node>)
    requires path + [name] == target
    ensures Transform(path, target, ClassDef(name, [NameBase("int")], body))
         == ClassDef(name, [NameBase("IntEnum")], TransformAll(target, target, body))
  {
  }

  /** The transformer object: a stack of the names of the classes being visited. */
  class TransformToIntEnumInheritance {
    var fullNameStack: seq<string>
    const targetClass: seq<string>

    constructor (fullClass: string)
      ensures fullNameStack == [] && targetClass == Split(fullClass, '.')
    {
      fullNameStack := [];
      targetClass := Split(fullClass, '.');
    }

    method VisitClassDef(node: Node)
      requires node.ClassDef?
      modifies this
      ensures fullNameStack == old(fullNameStack) + [node.name]
    {
      fullNameStack := fullNameStack + [node.name];
    }

    /** Compares the stack with the target before popping; rewrites only a found class. */
    method LeaveClassDef(original: Node, updated: Node) returns (r: Node)
      requires updated.ClassDef? && |fullNameStack| > 0
      modifies this
      ensures fullNameStack == old(fullNameStack)[..|old(fullNameStack)| - 1]
      ensures old(fullNameStack) == targetClass ==> r == updated.(bases := FixBases(updated.bases))
      ensures old(fullNameStack) != targetClass ==> r == updated
    {
      var classFound := fullNameStack == targetClass;
      fullNameStack := fullNameStack[..|fullNameStack| - 1];
      if !classFound {
        return updated;
      }
      if |updated.bases| == 1 {
        if updated.bases[0] == NameBase("IntEnum") {
          return updated;
        }
        if updated.bases[0] == NameBase("int") {
          return updated.(bases := [NameBase("IntEnum")]);
        }
      }
      return updated;
    }

    /** The library's depth-first walk: visit on entry, children in order, leave on exit. */
    method Walk(n: Node) returns (r: Node)
      modifies this
      ensures fullNameStack == old(fullNameStack)
      ensures r == Transform(old(fullNameStack), targetClass, n)
      decreases n, 1
    {
      match n
      case ClassDef(name, bases, body) =>
        ghost var path := fullNameStack;
        VisitClassDef(n);
        var body' := WalkAll(body);
        r := LeaveClassDef(n, ClassDef(name, bases, body'));
        assert fullNameStack == path;
      case FunctionDef(name, params, ret, leading, body) =>
        var body' := WalkAll(body);
        r := FunctionDef(name, params, ret, leading, body');
      case _ =>
        r := n;
    }

    method WalkAll(ns: seq<Node>) returns (rs: seq<Node>)
      modifies this
      ensures fullNameStack == old(fullNameStack)
      ensures rs == TransformAll(old(fullNameStack), targetClass, ns)
      decreases ns, 0
    {
      rs := [];
      var i := 0;
      while i < |ns|
        invariant 0 <= i <= |ns|
        invariant fullNameStack == old(fullNameStack)
        invariant rs == TransformAll(fullNameStack, targetClass, ns[..i])
      {
        var r := Walk(ns[i]);
        assert ns[..i + 1][..i] == ns[..i];
        rs := rs + [r];
        i := i + 1;
      }
      assert ns[..i] == ns;
    }
  }

  /** Runs a fresh transformer for `fullClass` over a parsed stub module. */
  method FixStubClassInheritanceToIntEnum(stub: seq<Node>, fullClass: string) returns (fixed: seq<Node>)
    ensures fixed == TransformAll([], Split(fullClass, '.'), stub)
  {
    var transformer := new TransformToIntEnumInheritance(fullClass);
    fixed := transformer.WalkAll(stub);
  }

  /** One fix: the stub file to edit and the dotted class path inside it. */
  datatype StubFix = StubFix(stubModule: string, fullClassName: string)

  const ErrorPrefix := "error: "
  const NewInconsistent := "__new__ is inconsistent,"

  /** A string holding the separator splits into at least two pieces. */
  lemma {:induction false} SplitAtSeparator(s: string, sep: char)
    requires sep in s
    ensures |Split(s, sep)| >= 2
    decreases |s|
  {
    if s[0] != sep {
      assert sep in s[1..];
      SplitAtSeparator(s[1..], sep);
    }
  }

  /**
    The fix one line of the report asks for: the second space-separated
    token `PyQt5.M.C1...Cn.__new__` gives the stub `PyQt5-stubs/M.pyi` and
    the class path `C1...Cn`. Lines that are not `__new__` errors give none;
    a token without a dot makes the script fail with an `IndexError`.
  */
  function ParseErrorLine(line: string): Result<Option<StubFix>>
  {
    if StartsWith(line, ErrorPrefix) && Contains(line, NewInconsistent) then
      assert line[..7][6] == ' ';
      SplitAtSeparator(line, ' ');
      var classInfo := Split(line, ' ')[1];
      var parts := Split(classInfo, '.');
      if |parts| < 2 then Err(IndexError)
      else
        var classes := if |parts| - 1 >= 2 then parts[2..|parts| - 1] else [];
        Ok(Some(StubFix("PyQt5-stubs/" + parts[1] + ".pyi", Join(classes, "."))))
    else Ok(None)
  }

  /** The dotted token `P.M.C1...Cn.__new__` the checker prints for a class's `__new__`. */
  function ClassToken(package: string, moduleName: string, classes: seq<string>): string
  {
    Join([package, moduleName] + classes + ["__new__"], ".")
  }

  /** The report line `error: P.M.C1...Cn.__new__ is inconsistent, ...`. */
  function ErrorLine(package: string, moduleName: string, classes: seq<string>, detail: string): string
  {
    ErrorPrefix + ClassToken(package, moduleName, classes) + " " + NewInconsistent + detail
  }

  predicate PlainName(s: string) {
    |s| > 0 && '.' !in s && ' ' !in s
  }

  /** Every `__new__` error line yields the fix for its own module and class path. */
  lemma ParseErrorLineOfErrorLine(package: string, moduleName: string, classes: seq<string>, detail: string)
    requires PlainName(package) && PlainName(moduleName)
    requires |classes| >= 1 && forall i :: 0 <= i < |classes| ==> PlainName(classes[i])
    ensures ParseErrorLine(ErrorLine(package, moduleName, classes, detail))
         == Ok(Some(StubFix("PyQt5-stubs/" + moduleName + ".pyi", Join(classes, "."))))
  {
    var token := ClassToken(package, moduleName, classes);
    var pieces := TokenPieces(package, moduleName, classes);
    ErrorLineShape(token, detail);
    ErrorLineContains(ErrorPrefix + token + " ", detail);
    assert pieces[1] == moduleName;
    assert pieces[2..|pieces| - 1] == classes;
  }

  /** The token splits on dots into its names, and holds no space. */
  lemma TokenPieces(package: string, moduleName: string, classes: seq<string>) returns (pieces: seq<string>)
    requires PlainName(package) && PlainName(moduleName)
    requires |classes| >= 1 && forall i :: 0 <= i < |classes| ==> PlainName(classes[i])
    ensures pieces == [package, moduleName] + classes + ["__new__"]
    ensures Split(ClassToken(package, moduleName, classes), '.') == pieces
    ensures ' ' !in ClassToken(package, moduleName, classes)
  {
    pieces := [package, moduleName] + classes + ["__new__"];
    assert PlainName("__new__");
    forall i | 0 <= i < |pieces| ensures PlainName(pieces[i]) {
      if 2 <= i < |pieces| - 1 {
        assert pieces[i] == classes[i - 2];
      }
    }
    JoinHasNo(pieces, '.', ' ');
    SplitJoin(pieces, '.');
  }

  /** The second space-separated token of `error: <token> <rest>` is the token. */
  lemma ErrorLineShape(token: string, detail: string)
    requires ' ' !in token
    ensures StartsWith(ErrorPrefix + token + " " + NewInconsistent + detail, ErrorPrefix)
    ensures |Split(ErrorPrefix + token + " " + NewInconsistent + detail, ' ')| >= 2
    ensures Split(ErrorPrefix + token + " " + NewInconsistent + detail, ' ')[1] == token
  {
    var line := ErrorPrefix + token + " " + NewInconsistent + detail;
    assert line[..|ErrorPrefix|] == ErrorPrefix;
    assert line == "error:" + [' '] + token + [' '] + (NewInconsistent + detail);
    SecondPiece("error:", token, NewInconsistent + detail, ' ');
  }

  /** The second piece of `first sep token sep rest`, split on `sep`, is `token`. */
  lemma SecondPiece(first: string, token: string, rest: string, sep: char)
    requires sep !in first && sep !in token
    ensures |Split(first + [sep] + token + [sep] + rest, sep)| >= 2
    ensures Split(first + [sep] + token + [sep] + rest, sep)[1] == token
  {
    SplitAfterPiece(token, sep, rest);
    SplitAfterPiece(first, sep, token + [sep] + rest);
    assert first + [sep] + (token + [sep] + rest) == first + [sep] + token + [sep] + rest;
  }

  lemma ErrorLineContains(head: string, detail: string)
    ensures Contains(head + NewInconsistent + detail, NewInconsistent)
  {
    var line := head + NewInconsistent + detail;
    assert line[|head|..|head| + |NewInconsistent|] == NewInconsistent;
    ContainsAt(line, NewInconsistent, |head|);
  }

  /** The token spelled out: the names joined with dots. */
  lemma ClassTokenSpelled(package: string, moduleName: string, classes: seq<string>)
    requires |classes| >= 1
    ensures ClassToken(package, moduleName, classes)
         == package + "." + moduleName + "." + Join(classes, ".") + "." + "__new__"
  {
    JoinOfPieces(package, moduleName, classes, "__new__", ".");
  }

  lemma {:induction false} JoinHasNo(parts: seq<string>, dot: char, c: char)
    requires c != dot
    requires forall i :: 0 <= i < |parts| ==> c !in parts[i]
    ensures c !in Join(parts, [dot])
    decreases |parts|
  {
    if |parts| > 1 {
      JoinHasNo(parts[1..], dot, c);
    }
  }

  lemma JoinOfPieces(first: string, second: string, middle: seq<string>, last: string, sep: string)
    requires |middle| >= 1
    ensures Join([first, second] + middle + [last], sep)
         == first + sep + second + sep + Join(middle, sep) + sep + last
  {
    var tail := middle + [last];
    assert [first, second] + middle + [last] == [first] + ([second] + tail);
    calc {
      Join([first] + ([second] + tail), sep);
      { JoinCons(first, [second] + tail, sep); }
      first + sep + Join([second] + tail, sep);
      { JoinCons(second, tail, sep); }
      first + sep + (second + sep + Join(tail, sep));
      { JoinAppend(middle, last, sep); }
      first + sep + (second + sep + (Join(middle, sep) + sep + last));
      { ConcatRegroup(first, second, Join(middle, sep), last, sep); }
      first + sep + second + sep + Join(middle, sep) + sep + last;
    }
  }

  lemma ConcatRegroup(a: string, b: string, c: string, d: string, sep: string)
    ensures a + sep + (b + sep + (c + sep + d)) == a + sep + b + sep + c + sep + d
  {
  }

  lemma JoinCons(first: string, rest: seq<string>, sep: string)
    requires |rest| >= 1
    ensures Join([first] + rest, sep) == first + sep + Join(rest, sep)
  {
    assert ([first] + rest)[1..] == rest;
  }

  lemma {:induction false} JoinAppend(parts: seq<string>, last: string, sep: string)
    requires |parts| >= 1
    ensures Join(parts + [last], sep) == Join(parts, sep) + sep + last
    decreases |parts|
  {
    if |parts| > 1 {
      assert (parts + [last])[1..] == parts[1..] + [last];
      JoinAppend(parts[1..], last, sep);
    }
  }

  /** The set of fixes the first loop of the script collects, or the exception it stops with. */
  function FixesOf(lines: seq<string>): Result<set<StubFix>>
    decreases |lines|
  {
    if |lines| == 0 then Ok({})
    else match FixesOf(lines[..|lines| - 1])
      case Err(e) => Err(e)
      case Ok(fixes) =>
        match ParseErrorLine(lines[|lines| - 1])
        case Err(e) => Err(e)
        case Ok(None) => Ok(fixes)
        case Ok(Some(fix)) => Ok(fixes + {fix})
  }

  /** The collected set holds exactly the fixes of the individual lines, each once. */
  lemma {:induction false} FixesOfMembers(lines: seq<string>, fixes: set<StubFix>)
    requires FixesOf(lines) == Ok(fixes)
    ensures forall f :: f in fixes <==> exists i :: 0 <= i < |lines| && ParseErrorLine(lines[i]) == Ok(Some(f))
    decreases |lines|
  {
    if |lines| > 0 {
      var init := lines[..|lines| - 1];
      var prev :| FixesOf(init) == Ok(prev);
      FixesOfMembers(init, prev);
      forall f ensures f in fixes <==> exists i :: 0 <= i < |lines| && ParseErrorLine(lines[i]) == Ok(Some(f)) {
        if f in prev {
          var i :| 0 <= i < |init| && ParseErrorLine(init[i]) == Ok(Some(f));
          assert lines[i] == init[i];
        }
        if exists i :: 0 <= i < |lines| && ParseErrorLine(lines[i]) == Ok(Some(f)) {
          var i :| 0 <= i < |lines| && ParseErrorLine(lines[i]) == Ok(Some(f));
          if i < |init| {
            assert init[i] == lines[i];
          }
        }
      }
    }
  }

  /** The first loop of the script's entry point, over the lines of the checker's report. */
  method CollectFixes(report: string) returns (r: Result<set<StubFix>>)
    ensures r == FixesOf(Split(report, '\n'))
  {
    var lines := Split(report, '\n');
    var fixes: set<StubFix> := {};
    var i := 0;
    while i < |lines|
      invariant 0 <= i <= |lines|
      invariant FixesOf(lines[..i]) == Ok(fixes)
    {
      assert lines[..i + 1][..i] == lines[..i];
      var parsed := ParseErrorLine(lines[i]);
      match parsed {
        case Err(e) =>
          assert FixesOf(lines[..i + 1]) == Err(e);
          FixesOfErrPersists(lines, i + 1, e);
          return Err(e);
        case Ok(None) =>
        case Ok(Some(fix)) =>
          fixes := fixes + {fix};
      }
      i := i + 1;
    }
    assert lines[..i] == lines;
    r := Ok(fixes);
  }

  /** Once a line raised, the whole loop has raised. */
  lemma {:induction false} FixesOfErrPersists(lines: seq<string>, k: nat, e: Exception)
    requires k <= |lines| && FixesOf(lines[..k]) == Err(e)
    ensures FixesOf(lines) == Err(e)
    decreases |lines| - k
  {
    if k < |lines| {
      assert lines[..k + 1][..k] == lines[..k];
      FixesOfErrPersists(lines, k + 1, e);
    } else {
      assert lines[..k] == lines;
    }
  }

  /** The stub files after one fix: its module rewritten, or `FileNotFound` when there is no such stub. */
  function ApplyFix(stubs: map<string, seq<Node>>, fix: StubFix): Result<map<string, seq<Node>>>
  {
    if fix.stubModule !in stubs then Err(FileNotFound)
    else Ok(stubs[fix.stubModule := TransformAll([], Split(fix.fullClassName, '.'), stubs[fix.stubModule])])
  }

  /**
    Where a run of fixes stands: the stub files as written so far, and the
    exception that ended the run, if any. Each fix writes its stub before the
    next one opens its own, so a failure keeps the stubs already rewritten.
  */
  datatype Run = Run(stubs: map<string, seq<Node>>, error: Option<Exception>)

  /** One more fix: nothing happens once the run has failed. */
  function Step(r: Run, fix: StubFix): Run {
    if r.error.Some? then r
    else match ApplyFix(r.stubs, fix)
      case Err(e) => Run(r.stubs, Some(e))
      case Ok(m) => Run(m, None)
  }

  /** The run of the fixes in the order listed; the first failure stops it. */
  function ApplyFixesSpec(stubs: map<string, seq<Node>>, fixes: seq<StubFix>): Run
    decreases |fixes|
  {
    if |fixes| == 0 then Run(stubs, None)
    else Step(ApplyFixesSpec(stubs, fixes[..|fixes| - 1]), fixes[|fixes| - 1])
  }

  /**
    The run fails exactly when some fix names a missing stub, and then with
    `FileNotFoundError`; whether it fails or not, it keeps the set of stub
    files and leaves the stubs that no fix names untouched.
  */
  lemma {:induction false} ApplyFixesSpecFrame(stubs: map<string, seq<Node>>, fixes: seq<StubFix>)
    ensures var r := ApplyFixesSpec(stubs, fixes);
      && (r.error.None? <==> forall i :: 0 <= i < |fixes| ==> fixes[i].stubModule in stubs)
      && (r.error.Some? ==> r.error.value == FileNotFound)
      && r.stubs.Keys == stubs.Keys
      && forall p :: p in stubs && (forall i :: 0 <= i < |fixes| ==> fixes[i].stubModule != p) ==> r.stubs[p] == stubs[p]
    decreases |fixes|
  {
    if |fixes| > 0 {
      var init := fixes[..|fixes| - 1];
      ApplyFixesSpecFrame(stubs, init);
      forall i | 0 <= i < |init| ensures init[i] == fixes[i] {
      }
    }
  }

  /**
    Two fixes give the same run in either order, unless exactly one of them
    names a missing stub (`ApplyFixesOrderMatters`).
  */
  lemma ApplyFixCommutes(r: Run, f: StubFix, g: StubFix)
    ensures (f.stubModule in r.stubs <==> g.stubModule in r.stubs) ==> Step(Step(r, f), g) == Step(Step(r, g), f)
  {
    if r.error.None? && f.stubModule in r.stubs && g.stubModule in r.stubs {
      var mf, mg := ApplyFix(r.stubs, f).value, ApplyFix(r.stubs, g).value;
      assert Step(r, f) == Run(mf, None) && Step(r, g) == Run(mg, None);
      assert g.stubModule in mf && f.stubModule in mg;
      ApplyFixPairCommutes(r.stubs, f, g);
    }
  }

  /** Two fixes of existing stubs give the same stub files in either order. */
  lemma ApplyFixPairCommutes(stubs: map<string, seq<Node>>, f: StubFix, g: StubFix)
    requires f.stubModule in stubs && g.stubModule in stubs
    ensures ApplyFix(ApplyFix(stubs, f).value, g) == ApplyFix(ApplyFix(stubs, g).value, f)
  {
    var kf, kg := f.stubModule, g.stubModule;
    var tf := Split(f.fullClassName, '.');
    var tg := Split(g.fullClassName, '.');
    var mf := stubs[kf := TransformAll([], tf, stubs[kf])];
    var mg := stubs[kg := TransformAll([], tg, stubs[kg])];
    assert ApplyFix(stubs, f) == Ok(mf) && ApplyFix(stubs, g) == Ok(mg);
    assert ApplyFix(mf, g) == Ok(mf[kg := TransformAll([], tg, mf[kg])]);
    assert ApplyFix(mg, f) == Ok(mg[kf := TransformAll([], tf, mg[kf])]);
    if kf == kg {
      TransformAllCommutes([], tf, tg, stubs[kf]);
      UpdateSameKey(stubs, kf, TransformAll([], tf, stubs[kf]), TransformAll([], tg, TransformAll([], tf, stubs[kf])));
      UpdateSameKey(stubs, kf, TransformAll([], tg, stubs[kf]), TransformAll([], tf, TransformAll([], tg, stubs[kf])));
    } else {
      UpdateDistinctKeys(stubs, kf, TransformAll([], tf, stubs[kf]), kg, TransformAll([], tg, stubs[kg]));
    }
  }

  lemma UpdateSameKey(m: map<string, seq<Node>>, k: string, v: seq<Node>, w: seq<Node>)
    ensures m[k := v][k := w] == m[k := w]
  {
  }

  lemma UpdateDistinctKeys(m: map<string, seq<Node>>, k1: string, v1: seq<Node>, k2: string, v2: seq<Node>)
    requires k1 != k2
    ensures m[k1 := v1][k2 := v2] == m[k2 := v2][k1 := v1]
  {
  }

  /**
    When one fix names a missing stub and the other an existing one, the
    order decides what is on disk when the run fails: listed first, the
    existing stub is rewritten before the failure; listed second, it is
    never reached. The two runs differ exactly when that rewrite changes
    the stub.
  */
  lemma ApplyFixesOrderMatters(stubs: map<string, seq<Node>>, f: StubFix, g: StubFix)
    requires f.stubModule !in stubs && g.stubModule in stubs
    ensures ApplyFixesSpec(stubs, [f, g]) == Run(stubs, Some(FileNotFound))
    ensures ApplyFixesSpec(stubs, [g, f])
         == Run(stubs[g.stubModule := TransformAll([], Split(g.fullClassName, '.'), stubs[g.stubModule])], Some(FileNotFound))
    ensures ApplyFixesSpec(stubs, [f, g]) == ApplyFixesSpec(stubs, [g, f])
        <==> TransformAll([], Split(g.fullClassName, '.'), stubs[g.stubModule]) == stubs[g.stubModule]
  {
    assert [f, g][..1] == [f] && [g, f][..1] == [g] && [f][..0] == [] && [g][..0] == [];
    var fixed := TransformAll([], Split(g.fullClassName, '.'), stubs[g.stubModule]);
    var start := Run(stubs, None);
    assert ApplyFixesSpec(stubs, [f]) == Step(start, f) == Run(stubs, Some(FileNotFound));
    assert ApplyFixesSpec(stubs, [f, g]) == Step(Step(start, f), g);
    assert ApplyFixesSpec(stubs, [g]) == Step(start, g) == Run(stubs[g.stubModule := fixed], None);
    assert ApplyFixesSpec(stubs, [g, f]) == Step(Step(start, g), f);
    if stubs[g.stubModule := fixed] == stubs {
      assert stubs[g.stubModule := fixed][g.stubModule] == fixed;
    }
  }

  /**
    Swapping two neighbouring fixes does not change the run unless exactly
    one of them names a missing stub. So when every stub exists, or when
    the missing ones are listed together, the arbitrary order in which the
    script lists its set of fixes is harmless; otherwise the stubs written
    before the failure depend on it (`ApplyFixesOrderMatters`).
  */
  lemma ApplyFixesSwap(stubs: map<string, seq<Node>>, prefix: seq<StubFix>, f: StubFix, g: StubFix, suffix: seq<StubFix>)
    ensures (f.stubModule in stubs <==> g.stubModule in stubs) ==>
      ApplyFixesSpec(stubs, prefix + [f, g] + suffix) == ApplyFixesSpec(stubs, prefix + [g, f] + suffix)
  {
    if f.stubModule in stubs <==> g.stubModule in stubs {
      var a := prefix + [f, g];
      var b := prefix + [g, f];
      assert a[..|a| - 1] == prefix + [f] && (prefix + [f])[..|prefix|] == prefix;
      assert b[..|b| - 1] == prefix + [g] && (prefix + [g])[..|prefix|] == prefix;
      ApplyFixesSpecFrame(stubs, prefix);
      ApplyFixCommutes(ApplyFixesSpec(stubs, prefix), f, g);
      assert ApplyFixesSpec(stubs, a) == ApplyFixesSpec(stubs, b);
      ApplyFixesSameTail(stubs, a, b, suffix);
    }
  }

  /** Runs that agree after a common prefix agree after any common continuation. */
  lemma {:induction false} ApplyFixesSameTail(stubs: map<string, seq<Node>>, a: seq<StubFix>, b: seq<StubFix>, suffix: seq<StubFix>)
    requires ApplyFixesSpec(stubs, a) == ApplyFixesSpec(stubs, b)
    ensures ApplyFixesSpec(stubs, a + suffix) == ApplyFixesSpec(stubs, b + suffix)
    decreases |suffix|
  {
    if |suffix| > 0 {
      var init := suffix[..|suffix| - 1];
      ApplyFixesSameTail(stubs, a, b, init);
      assert (a + suffix)[..|a + suffix| - 1] == a + init;
      assert (b + suffix)[..|b + suffix| - 1] == b + init;
    } else {
      assert a + suffix == a && b + suffix == b;
    }
  }

  /**
    The second loop of the entry point: each fix, in the order the set is
    listed, rewrites its stub module; a stub that does not exist raises,
    and the stubs rewritten before it stay written.
  */
  method ApplyFixes(stubs: map<string, seq<Node>>, fixes: seq<StubFix>) returns (written: map<string, seq<Node>>, error: Option<Exception>)
    ensures Run(written, error) == ApplyFixesSpec(stubs, fixes)
  {
    written := stubs;
    var i := 0;
    while i < |fixes|
      invariant 0 <= i <= |fixes|
      invariant ApplyFixesSpec(stubs, fixes[..i]) == Run(written, None)
    {
      assert fixes[..i + 1][..i] == fixes[..i];
      var fix := fixes[i];
      if fix.stubModule !in written {
        ApplyFixesErrPersists(stubs, fixes, i + 1, Run(written, Some(FileNotFound)));
        return written, Some(FileNotFound);
      }
      var fixed := FixStubClassInheritanceToIntEnum(written[fix.stubModule], fix.fullClassName);
      written := written[fix.stubModule := fixed];
      i := i + 1;
    }
    assert fixes[..i] == fixes;
    error := None;
  }

  /** Once a run has failed, later fixes change neither the stubs written nor the exception. */
  lemma {:induction false} ApplyFixesErrPersists(stubs: map<string, seq<Node>>, fixes: seq<StubFix>, k: nat, r: Run)
    requires k <= |fixes| && ApplyFixesSpec(stubs, fixes[..k]) == r && r.error.Some?
    ensures ApplyFixesSpec(stubs, fixes) == r
    decreases |fixes| - k
  {
    if k < |fixes| {
      assert fixes[..k + 1][..k] == fixes[..k];
      ApplyFixesErrPersists(stubs, fixes, k + 1, r);
    } else {
      assert fixes[..k] == fixes;
    }
  }

  /** Lines that all ask for the same fix collect that one fix. */
  lemma {:induction false} FixesOfRepeated(lines: seq<string>, fix: StubFix)
    requires |lines| > 0
    requires forall i :: 0 <= i < |lines| ==> ParseErrorLine(lines[i]) == Ok(Some(fix))
    ensures FixesOf(lines) == Ok({fix})
    decreases |lines|
  {
    if |lines| > 1 {
      var init := lines[..|lines| - 1];
      forall i | 0 <= i < |init| ensures ParseErrorLine(init[i]) == Ok(Some(fix)) {
        assert init[i] == lines[i];
      }
      FixesOfRepeated(init, fix);
    } else {
      assert lines[..|lines| - 1] == [];
      assert FixesOf(lines[..|lines| - 1]) == Ok({});
      assert ParseErrorLine(lines[|lines| - 1]) == Ok(Some(fix));
      assert {} + {fix} == {fix};
    }
  }

  /** A report line about `QBluetoothDeviceInfo.Field`, whatever its detail, asks to fix `QtBluetooth`. */
  lemma SampleLine(detail: string)
    ensures ParseErrorLine(ErrorLine("PyQt5", "QtBluetooth", ["QBluetoothDeviceInfo", "Field"], detail))
         == Ok(Some(StubFix("PyQt5-stubs/QtBluetooth.pyi", "QBluetoothDeviceInfo.Field")))
  {
    var classes := ["QBluetoothDeviceInfo", "Field"];
    SampleNames();
    ParseErrorLineOfErrorLine("PyQt5", "QtBluetooth", classes, detail);
  }

  lemma SampleNames()
    ensures PlainName("PyQt5") && PlainName("QtBluetooth")
    ensures forall i :: 0 <= i < 2 ==> PlainName(["QBluetoothDeviceInfo", "Field"][i])
    ensures Join(["QBluetoothDeviceInfo", "Field"], ".") == "QBluetoothDeviceInfo.Field"
    ensures "PyQt5-stubs/" + "QtBluetooth" + ".pyi" == "PyQt5-stubs/QtBluetooth.pyi"
  {
    SamplePlainNames();
    SampleJoin();
    var classes := ["QBluetoothDeviceInfo", "Field"];
    assert classes[0] == "QBluetoothDeviceInfo" && classes[1] == "Field";
  }

  lemma SamplePlainNames()
    ensures PlainName("PyQt5") && PlainName("QtBluetooth") && PlainName("QBluetoothDeviceInfo") && PlainName("Field")
  {
  }

  lemma SampleJoin()
    ensures Join(["QBluetoothDeviceInfo", "Field"], ".") == "QBluetoothDeviceInfo.Field"
  {
    assert ["QBluetoothDeviceInfo", "Field"][1..] == ["Field"];
  }

  /** The four report lines about `QBluetoothDeviceInfo.Field` ask for a single fix of `QtBluetooth`. */
  lemma SampleReport(d1: string, d2: string, d3: string, d4: string)
    ensures FixesOf([ErrorLine("PyQt5", "QtBluetooth", ["QBluetoothDeviceInfo", "Field"], d1),
                     ErrorLine("PyQt5", "QtBluetooth", ["QBluetoothDeviceInfo", "Field"], d2),
                     ErrorLine("PyQt5", "QtBluetooth", ["QBluetoothDeviceInfo", "Field"], d3),
                     ErrorLine("PyQt5", "QtBluetooth", ["QBluetoothDeviceInfo", "Field"], d4)])
         == Ok({StubFix("PyQt5-stubs/QtBluetooth.pyi", "QBluetoothDeviceInfo.Field")})
  {
    SampleLine(d1);
    SampleLine(d2);
    SampleLine(d3);
    SampleLine(d4);
    FixesOfRepeated([ErrorLine("PyQt5", "QtBluetooth", ["QBluetoothDeviceInfo", "Field"], d1),
                     ErrorLine("PyQt5", "QtBluetooth", ["QBluetoothDeviceInfo", "Field"], d2),
                     ErrorLine("PyQt5", "QtBluetooth", ["QBluetoothDeviceInfo", "Field"], d3),
                     ErrorLine("PyQt5", "QtBluetooth", ["QBluetoothDeviceInfo", "Field"], d4)],
                    StubFix("PyQt5-stubs/QtBluetooth.pyi", "QBluetoothDeviceInfo.Field"));
  }
}
