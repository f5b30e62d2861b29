/**
  The visitor that looks for one enum class in a stub module: it records
  the dotted path of the class through the enclosing classes and
  functions, and whether the class defines the `__or__` and `__ror__`
  operators (both, one of them, or neither).
*/
module QFlagStubsHelper {
  import opened Wrappers
  import opened Text
  import opened StubTree

  /** Which of `__or__` and `__ror__` the found class defines; `Unset` before it is found. */
  datatype MethodPresent = Unset | All | Not | Partial

  /** The visitor's fields. */
  datatype Finder = Finder(
    fullNameStack: seq<string>,
    enumClassFullName: string,
    enumClassNode: Option<Node>,
    enumMethodsPresent: MethodPresent,
    errorMsg: string)

  /** The fields of a fresh visitor. */
  function Initial(): Finder {
    Finder([], "", None, Unset, "")
  }

  /** The table from the number of operator definitions found to the classification. */
  const PresenceByCount: map<nat, MethodPresent> := map[0 := Not, 1 := Partial, 2 := All]

  /**
    The classification of a class body: looking the total count up in the
    table, so three or more definitions raise `KeyError`.
  */
  function Classify(orCount: nat, rorCount: nat): (r: Result<MethodPresent>)
    ensures orCount + rorCount == 0 <==> r == Ok(Not)
    ensures orCount + rorCount == 1 <==> r == Ok(Partial)
    ensures orCount + rorCount == 2 <==> r == Ok(All)
    ensures orCount + rorCount > 2 <==> r == Err(KeyError)
  {
    if orCount + rorCount in PresenceByCount then Ok(PresenceByCount[orCount + rorCount]) else Err(KeyError)
  }

  /** The line added to the error message for a class with one operator only. */
  function PartialMessage(fullName: string, present: string, absent: string): string {
    "class " + fullName + ", method " + present + " present without method " + absent + "\n"
  }

  /** The fields after classifying the found class from the operator definitions anywhere in its body. */
  function CheckMethodPresent(st: Finder, enumNode: Node): (r: Result<Finder>)
    requires enumNode.ClassDef?
    ensures r.Ok? ==> r.value.fullNameStack == st.fullNameStack && r.value.enumClassFullName == st.enumClassFullName
                      && r.value.enumClassNode == st.enumClassNode
  {
    var hasOr := CountFunctionDefs(enumNode.body, "__or__");
    var hasRor := CountFunctionDefs(enumNode.body, "__ror__");
    match Classify(hasOr, hasRor)
    case Err(e) => Err(e)
    case Ok(present) =>
      var args := if hasOr > 0 then ("__or__", "__ror__") else ("__ror__", "__or__");
      var msg := if present == Partial then st.errorMsg + PartialMessage(st.enumClassFullName, args.0, args.1) else st.errorMsg;
      Ok(Finder(st.fullNameStack, st.enumClassFullName, st.enumClassNode, present, msg))
  }

  /**
    The classification follows the operator definitions anywhere in the
    class body, and a class with one of them only gets exactly one line
    added to the message, naming the class, the operator it defines and
    the one it lacks.
  */
  lemma CheckMethodPresentSpec(st: Finder, enumNode: Node)
    requires enumNode.ClassDef?
    ensures var orCount := CountFunctionDefs(enumNode.body, "__or__");
            var rorCount := CountFunctionDefs(enumNode.body, "__ror__");
            var r := CheckMethodPresent(st, enumNode);
            && (r.Ok? <==> orCount + rorCount <= 2)
            && (r.Err? ==> r.error == KeyError)
            && (r.Ok? ==> r.value.enumMethodsPresent == Classify(orCount, rorCount).value)
            && (r.Ok? && r.value.enumMethodsPresent != Partial ==> r.value.errorMsg == st.errorMsg)
            && (r.Ok? && r.value.enumMethodsPresent == Partial && orCount == 1 ==>
                  rorCount == 0 && r.value.errorMsg == st.errorMsg + PartialMessage(st.enumClassFullName, "__or__", "__ror__"))
            && (r.Ok? && r.value.enumMethodsPresent == Partial && rorCount == 1 ==>
                  orCount == 0 && r.value.errorMsg == st.errorMsg + PartialMessage(st.enumClassFullName, "__ror__", "__or__"))
  {
  }

  /**
    Visiting a class: its name is pushed; when it is the class looked for,
    its dotted path and node are recorded and it is classified, unless a
    path was recorded already, which raises `ValueError`.
  */
  function VisitClass(target: string, st: Finder, node: Node): (r: Result<Finder>)
    requires node.ClassDef?
    ensures r.Ok? ==> r.value.fullNameStack == st.fullNameStack + [node.name]
  {
    var stack := st.fullNameStack + [node.name];
    if node.name != target then Ok(st.(fullNameStack := stack))
    else if st.enumClassFullName != "" then Err(ValueError)
    else CheckMethodPresent(Finder(stack, Join(stack, "."), Some(node), st.enumMethodsPresent, st.errorMsg), node)
  }

  /** Leaving a class or a function pops the stack. */
  function Pop(st: Finder): Finder
    requires |st.fullNameStack| > 0
  {
    st.(fullNameStack := st.fullNameStack[..|st.fullNameStack| - 1])
  }

  /** The fields after visiting `n` and everything below it, or the exception raised on the way. */
  function WalkNode(target: string, st: Finder, n: Node): (r: Result<Finder>)
    ensures r.Ok? ==> r.value.fullNameStack == st.fullNameStack
    decreases n
  {
    match n
    case ClassDef(name, _, body) =>
      (match VisitClass(target, st, n)
       case Err(e) => Err(e)
       case Ok(entered) =>
         match WalkNodes(target, entered, body)
         case Err(e) => Err(e)
         case Ok(inner) => Ok(Pop(inner)))
    case FunctionDef(name, _, _, _, body) =>
      (match WalkNodes(target, st.(fullNameStack := st.fullNameStack + [name]), body)
       case Err(e) => Err(e)
       case Ok(inner) => Ok(Pop(inner)))
    case _ => Ok(st)
  }

  function WalkNodes(target: string, st: Finder, ns: seq<Node>): (r: Result<Finder>)
    ensures r.Ok? ==> r.value.fullNameStack == st.fullNameStack
    decreases ns
  {
    if |ns| == 0 then Ok(st)
    else
      match WalkNodes(target, st, ns[..|ns| - 1])
      case Err(e) => Err(e)
      case Ok(init) => WalkNode(target, init, ns[|ns| - 1])
  }

  /** Whether a class called `name` occurs in `ns`, at any depth. */
  predicate HasClassNamed(ns: seq<Node>, name: string)
    decreases ns
  {
    |ns| > 0 && (HasClassNamed(ns[..|ns| - 1], name) || HasClassNamedIn(ns[|ns| - 1], name))
  }

  predicate HasClassNamedIn(n: Node, name: string)
    decreases n
  {
    match n
    case ClassDef(c, _, body) => c == name || HasClassNamed(body, name)
    case FunctionDef(_, _, _, _, body) => HasClassNamed(body, name)
    case _ => false
  }

  /** Code without the class looked for leaves every field but the (restored) stack as it was. */
  lemma {:induction false} NoTargetUnchanged(target: string, st: Finder, n: Node)
    requires !HasClassNamedIn(n, target)
    ensures WalkNode(target, st, n) == Ok(st)
    decreases n
  {
    match n
    case ClassDef(name, _, body) =>
      var entered := st.(fullNameStack := st.fullNameStack + [name]);
      NoTargetUnchangedAll(target, entered, body);
      assert Pop(entered) == st;
    case FunctionDef(name, _, _, _, body) =>
      var entered := st.(fullNameStack := st.fullNameStack + [name]);
      NoTargetUnchangedAll(target, entered, body);
      assert Pop(entered) == st;
    case _ =>
  }

  lemma {:induction false} NoTargetUnchangedAll(target: string, st: Finder, ns: seq<Node>)
    requires !HasClassNamed(ns, target)
    ensures WalkNodes(target, st, ns) == Ok(st)
    decreases ns
  {
    if |ns| > 0 {
      NoTargetUnchangedAll(target, st, ns[..|ns| - 1]);
      NoTargetUnchanged(target, st, ns[|ns| - 1]);
    }
  }

  /** The fields right after the class looked for is visited, when no path was recorded yet. */
  function Found(st: Finder, node: Node, present: MethodPresent, msg: string): Finder
    requires node.ClassDef?
  {
    Finder(st.fullNameStack, Join(st.fullNameStack + [node.name], "."), Some(node), present, msg)
  }

  /**
    Meeting the class looked for, with no other class of that name inside
    it, records its dotted path from the outermost enclosing name, its
    node and its classification.
  */
  lemma FindClass(target: string, st: Finder, node: Node)
    requires node.ClassDef? && node.name == target && st.enumClassFullName == ""
    requires !HasClassNamed(node.body, target)
    requires CheckMethodPresent(Found(st, node, st.enumMethodsPresent, st.errorMsg), node).Ok?
    ensures WalkNode(target, st, node)
         == Ok(CheckMethodPresent(Found(st, node, st.enumMethodsPresent, st.errorMsg), node).value.(fullNameStack := st.fullNameStack))
  {
    var stack := st.fullNameStack + [node.name];
    var entered := CheckMethodPresent(Finder(stack, Join(stack, "."), Some(node), st.enumMethodsPresent, st.errorMsg), node).value;
    assert VisitClass(target, st, node) == Ok(entered);
    NoTargetUnchangedAll(target, entered, node.body);
  }

  /** Meeting the class looked for once a path is recorded raises `ValueError`. */
  lemma SecondMatchRaises(target: string, st: Finder, node: Node)
    requires node.ClassDef? && node.name == target && st.enumClassFullName != ""
    ensures WalkNode(target, st, node) == Err(ValueError)
  {
    assert VisitClass(target, st, node) == Err(ValueError);
  }

  /** Two classes of the name looked for, one after the other, raise `ValueError`. */
  lemma TwoMatchesRaise(target: string, first: Node, second: Node)
    requires target != "" && first.ClassDef? && first.name == target && second.ClassDef? && second.name == target
    requires !HasClassNamed(first.body, target)
    requires CountFunctionDefs(first.body, "__or__") + CountFunctionDefs(first.body, "__ror__") <= 2
    ensures WalkNodes(target, Initial(), [first, second]) == Err(ValueError)
  {
    var st := Initial();
    CheckMethodPresentSpec(Found(st, first, st.enumMethodsPresent, st.errorMsg), first);
    FindClass(target, st, first);
    var after := WalkNode(target, st, first).value;
    assert [] + [target] == [target];
    assert after.enumClassFullName == Join([target], ".") == target;
    SecondMatchRaises(target, after, second);
    assert [first, second][..1] == [first];
    assert WalkNodes(target, st, [first][..0]) == Ok(st);
    assert WalkNodes(target, st, [first]) == Ok(after);
    assert [first][..0] == [];
  }

  /**
    The class looked for, found inside a top-level class `outer` next to a
    sibling without that name, in either order: its path is `outer.target`.
  */
  lemma FindInOuter(target: string, outer: string, found: Node, sibling: Node, foundFirst: bool)
    requires found.ClassDef? && found.name == target && outer != target
    requires !HasClassNamed(found.body, target) && !HasClassNamedIn(sibling, target)
    requires CountFunctionDefs(found.body, "__or__") + CountFunctionDefs(found.body, "__ror__") <= 2
    ensures var r := WalkNodes(target, Initial(), [ClassDef(outer, [], if foundFirst then [found, sibling] else [sibling, found])]);
            && r.Ok? && r.value.enumClassFullName == outer + "." + target && r.value.enumClassNode == Some(found)
            && r.value.enumMethodsPresent
               == Classify(CountFunctionDefs(found.body, "__or__"), CountFunctionDefs(found.body, "__ror__")).value
  {
    var st := Initial();
    var entered := Finder([outer], "", None, Unset, "");
    assert [] + [outer] == [outer];
    assert VisitClass(target, st, ClassDef(outer, [], [])) == Ok(entered);
    CheckMethodPresentSpec(Found(entered, found, Unset, ""), found);
    FindClass(target, entered, found);
    NoTargetUnchanged(target, entered, sibling);
    var after := WalkNode(target, entered, found).value;
    NoTargetUnchanged(target, after, sibling);
    assert [outer] + [target] == [outer, target];
    assert Join([outer, target], ".") == outer + "." + target;
    var body := if foundFirst then [found, sibling] else [sibling, found];
    WalkPair(target, entered, body[0], body[1]);
    assert WalkNodes(target, entered, body) == Ok(after);
    assert WalkNodes(target, st, [ClassDef(outer, [], body)]) == WalkNode(target, st, ClassDef(outer, [], body));
  }

  lemma WalkPair(target: string, st: Finder, a: Node, b: Node)
    requires WalkNode(target, st, a).Ok?
    ensures WalkNodes(target, st, [a, b]) == WalkNode(target, WalkNode(target, st, a).value, b)
  {
    assert [a, b][..1] == [a];
    assert [a][..0] == [];
    assert WalkNodes(target, st, [a]) == WalkNode(target, st, a);
  }

  /** A method stub with a stub body. */
  function Method(name: string, params: seq<string>): Node {
    FunctionDef(name, seq(|params|, i requires 0 <= i < |params| => Param(params[i], None)), None, [], [OtherStatement("...")])
  }

  /** The module of the visitor's unit test: class `Toto` holding `Titi` and `QFlagExample`. */
  function TestModule(): seq<Node> {
    [ClassDef("Toto", [], [TitiClass(), QFlagExampleClass()])]
  }

  function TitiClass(): Node {
    ClassDef("Titi", [], [OtherStatement("'bla bla bla'"), Method("toto", ["self"]), Method("my_titi", ["self"])])
  }

  function QFlagExampleClass(): Node {
    ClassDef("QFlagExample", [], [Method("abd", ["self"]), Method("__or__", ["self", "other"]), Method("__ror__", ["self", "other"])])
  }

  /** The unit test's first lookup: `Titi` is found as `Toto.Titi`, defining neither operator. */
  lemma TestFindTiti()
    ensures var r := WalkNodes("Titi", Initial(), TestModule());
            r.Ok? && r.value.enumClassFullName == "Toto.Titi" && r.value.enumMethodsPresent == Not
  {
    var body := TitiClass().body;
    ThreeNodes(body[0], body[1], body[2], "__or__");
    ThreeNodes(body[0], body[1], body[2], "__ror__");
    ThreeNodes(body[0], body[1], body[2], "Titi");
    MethodCounts("toto", ["self"], "__or__");
    MethodCounts("toto", ["self"], "__ror__");
    MethodCounts("my_titi", ["self"], "__or__");
    MethodCounts("my_titi", ["self"], "__ror__");
    MethodCounts("toto", ["self"], "Titi");
    MethodCounts("my_titi", ["self"], "Titi");
    var sibling := QFlagExampleClass().body;
    ThreeNodes(sibling[0], sibling[1], sibling[2], "Titi");
    MethodCounts("abd", ["self"], "Titi");
    MethodCounts("__or__", ["self", "other"], "Titi");
    MethodCounts("__ror__", ["self", "other"], "Titi");
    FindInOuter("Titi", "Toto", TitiClass(), QFlagExampleClass(), true);
  }

  /** The unit test's second lookup: `QFlagExample` is found as `Toto.QFlagExample`, defining both operators. */
  lemma TestFindQFlagExample()
    ensures var r := WalkNodes("QFlagExample", Initial(), TestModule());
            r.Ok? && r.value.enumClassFullName == "Toto.QFlagExample" && r.value.enumMethodsPresent == All
  {
    var body := QFlagExampleClass().body;
    ThreeNodes(body[0], body[1], body[2], "__or__");
    ThreeNodes(body[0], body[1], body[2], "__ror__");
    ThreeNodes(body[0], body[1], body[2], "QFlagExample");
    MethodCounts("abd", ["self"], "__or__");
    MethodCounts("abd", ["self"], "__ror__");
    MethodCounts("__or__", ["self", "other"], "__or__");
    MethodCounts("__or__", ["self", "other"], "__ror__");
    MethodCounts("__ror__", ["self", "other"], "__or__");
    MethodCounts("__ror__", ["self", "other"], "__ror__");
    MethodCounts("abd", ["self"], "QFlagExample");
    MethodCounts("__or__", ["self", "other"], "QFlagExample");
    MethodCounts("__ror__", ["self", "other"], "QFlagExample");
    var sibling := TitiClass().body;
    ThreeNodes(sibling[0], sibling[1], sibling[2], "QFlagExample");
    MethodCounts("toto", ["self"], "QFlagExample");
    MethodCounts("my_titi", ["self"], "QFlagExample");
    FindInOuter("QFlagExample", "Toto", QFlagExampleClass(), TitiClass(), false);
  }

  lemma MethodCounts(f: string, params: seq<string>, name: string)
    ensures CountInNode(Method(f, params), name) == (if f == name then 1 else 0)
    ensures !HasClassNamedIn(Method(f, params), name)
  {
    var body := Method(f, params).body;
    assert body[..0] == [];
  }

  lemma ThreeNodes(a: Node, b: Node, c: Node, name: string)
    ensures CountFunctionDefs([a, b, c], name) == CountInNode(a, name) + CountInNode(b, name) + CountInNode(c, name)
    ensures HasClassNamed([a, b, c], name) <==> HasClassNamedIn(a, name) || HasClassNamedIn(b, name) || HasClassNamedIn(c, name)
  {
    assert [a, b, c][..2] == [a, b];
    assert [a, b][..1] == [a];
    assert [a][..0] == [];
    assert CountFunctionDefs([a], name) == CountInNode(a, name);
    assert CountFunctionDefs([a, b], name) == CountInNode(a, name) + CountInNode(b, name);
    assert HasClassNamed([a], name) == HasClassNamedIn(a, name);
    assert HasClassNamed([a, b], name) == (HasClassNamedIn(a, name) || HasClassNamedIn(b, name));
  }

  /** The visitor object of the helper. */
  class QFlagFinder {
    var fullNameStack: seq<string>
    const enumClassName: string
    var enumClassFullName: string
    var enumClassCstNode: Option<Node>
    var enumMethodsPresent: MethodPresent
    var errorMsg: string

    function Fields(): Finder
      reads this
    {
      Finder(fullNameStack, enumClassFullName, enumClassCstNode, enumMethodsPresent, errorMsg)
    }

    /** Whether a hook's outcome (`None`, or the exception it raised) and the fields now are those `spec` describes. */
    predicate Reflects(raised: Option<Exception>, spec: Result<Finder>)
      reads this
    {
      if spec.Ok? then raised == None && Fields() == spec.value else raised == Some(spec.error)
    }

    constructor (enumClass: string)
      ensures Fields() == Initial() && enumClassName == enumClass
    {
      fullNameStack := [];
      enumClassName := enumClass;
      enumClassFullName := "";
      enumClassCstNode := None;
      enumMethodsPresent := Unset;
      errorMsg := "";
    }

    method VisitClassDef(node: Node) returns (raised: Option<Exception>)
      requires node.ClassDef?
      modifies this
      ensures Reflects(raised, VisitClass(enumClassName, old(Fields()), node))
    {
      fullNameStack := fullNameStack + [node.name];
      if node.name == enumClassName {
        if enumClassFullName != "" {
          return Some(ValueError);
        }
        enumClassFullName := Join(fullNameStack, ".");
        enumClassCstNode := Some(node);
        raised := CheckMethodPresentOf(node);
        return;
      }
      return None;
    }

    method CheckMethodPresentOf(enumNode: Node) returns (raised: Option<Exception>)
      requires enumNode.ClassDef?
      modifies this
      ensures Reflects(raised, CheckMethodPresent(old(Fields()), enumNode))
    {
      var hasOr := CountFunctionDefs(enumNode.body, "__or__");
      var hasRor := CountFunctionDefs(enumNode.body, "__ror__");
      if hasOr + hasRor !in PresenceByCount {
        return Some(KeyError);
      }
      enumMethodsPresent := PresenceByCount[hasOr + hasRor];
      if enumMethodsPresent == Partial {
        var args := if hasOr > 0 then ("__or__", "__ror__") else ("__ror__", "__or__");
        errorMsg := errorMsg + PartialMessage(enumClassFullName, args.0, args.1);
      }
      return None;
    }

    method VisitFunctionDef(node: Node)
      requires node.FunctionDef?
      modifies this
      ensures Fields() == old(Fields()).(fullNameStack := old(fullNameStack) + [node.name])
    {
      fullNameStack := fullNameStack + [node.name];
    }

    method Leave()
      requires |fullNameStack| > 0
      modifies this
      ensures Fields() == Pop(old(Fields()))
    {
      fullNameStack := fullNameStack[..|fullNameStack| - 1];
    }

    /** The library's depth-first walk: visit on entry, children in order, leave on exit. */
    method Walk(n: Node) returns (raised: Option<Exception>)
      modifies this
      ensures Reflects(raised, WalkNode(enumClassName, old(Fields()), n))
      decreases n, 1
    {
      match n
      case ClassDef(_, _, body) =>
        raised := VisitClassDef(n);
        if raised.Some? {
          return;
        }
        raised := WalkAll(body);
        if raised.Some? {
          return;
        }
        Leave();
      case FunctionDef(_, _, _, _, body) =>
        VisitFunctionDef(n);
        raised := WalkAll(body);
        if raised.Some? {
          return;
        }
        Leave();
      case _ =>
        raised := None;
    }

    method WalkAll(ns: seq<Node>) returns (raised: Option<Exception>)
      modifies this
      ensures Reflects(raised, WalkNodes(enumClassName, old(Fields()), ns))
      decreases ns, 0
    {
      var i := 0;
      while i < |ns|
        invariant 0 <= i <= |ns|
        invariant WalkNodes(enumClassName, old(Fields()), ns[..i]) == Ok(Fields())
      {
        assert ns[..i + 1][..i] == ns[..i];
        raised := Walk(ns[i]);
        if raised.Some? {
          WalkErrPersists(enumClassName, old(Fields()), ns, i + 1);
          return;
        }
        i := i + 1;
      }
      assert ns[..i] == ns;
      return None;
    }
  }

  /** An exception raised on a prefix of the statements ends the walk with it. */
  lemma {:induction false} WalkErrPersists(target: string, st: Finder, ns: seq<Node>, k: nat)
    requires k <= |ns| && WalkNodes(target, st, ns[..k]).Err?
    ensures WalkNodes(target, st, ns) == WalkNodes(target, st, ns[..k])
    decreases |ns| - k
  {
    if k < |ns| {
      assert ns[..k + 1][..k] == ns[..k];
      WalkErrPersists(target, st, ns, k + 1);
    } else {
      assert ns[..k] == ns;
    }
  }

  /** Runs a fresh visitor looking for `enumClass` over a parsed module. */
  method FindEnumClass(enumClass: string, stub: seq<Node>) returns (raised: Option<Exception>, found: Finder)
    ensures var spec := WalkNodes(enumClass, Initial(), stub);
            if spec.Ok? then raised == None && found == spec.value else raised == Some(spec.error)
  {
    var visitor := new QFlagFinder(enumClass);
    raised := visitor.WalkAll(stub);
    found := visitor.Fields();
  }
}
