/**
  The signal fixer: inside each top-level class of a stub module, a method
  that the runtime library exposes as a `pyqtSignal` is replaced by the
  class-level annotation `name: typing.ClassVar[QtCore.pyqtSignal]`; later
  overloads of the same signal are removed. Methods of nested classes,
  functions outside classes and methods that are not signals are left as
  they are.

  The runtime library is a parameter: a map from class names to the kinds
  of their attributes.
*/
module SignalFixer {
  import opened Wrappers
  import opened Text
  import opened StubTree

  /** What `getattr(cls, name)` finds on a runtime class. */
  datatype Attribute = PyqtSignal | OtherAttribute

  /** The imported runtime module: its classes and their attributes. */
  type Runtime = map<string, map<string, Attribute>>

  /**
    Whether `cls.f` is a signal at runtime. A missing attribute is not a
    signal; a missing class raises `AttributeError`, which nothing catches.
  */
  function IsSignal(runtime: Runtime, cls: string, f: string): (r: Result<bool>)
    ensures r.Err? <==> cls !in runtime
    ensures r.Err? ==> r.error == AttributeError
    ensures r == Ok(true) <==> cls in runtime && f in runtime[cls] && runtime[cls][f] == PyqtSignal
  {
    if cls !in runtime then Err(AttributeError)
    else if f !in runtime[cls] then Ok(false)
    else Ok(runtime[cls][f] == PyqtSignal)
  }

  /** The annotation a signal method becomes. */
  const SignalType := "typing.ClassVar[QtCore.pyqtSignal]"

  /** A copy of each leading blank or comment line, as statements of their own. */
  function LeadingCopies(lines: seq<string>): (r: seq<Node>)
    ensures |r| == |lines| && forall i :: 0 <= i < |lines| ==> r[i] == EmptyLine(lines[i])
  {
    seq(|lines|, i requires 0 <= i < |lines| => EmptyLine(lines[i]))
  }

  /** The signal key recorded for method `f` of class `cls`. */
  function FullName(cls: string, f: string): string {
    cls + "." + f
  }

  /** The transformer's fields: the names of the enclosing classes and the signals already rewritten. */
  datatype State = State(lastClass: seq<string>, fixedSignals: seq<string>)

  /**
    What leaving a function definition returns and the fields afterwards.
    The original node is returned, so changes made to the function's body
    are dropped.
  */
  function LeaveFunction(runtime: Runtime, st: State, original: Node): (r: Result<(seq<Node>, State)>)
    requires original.FunctionDef?
  {
    if |st.lastClass| == 0 || |st.lastClass| > 1 then Ok(([original], st))
    else
      var cls := st.lastClass[0];
      match IsSignal(runtime, cls, original.name)
      case Err(e) => Err(e)
      case Ok(signal) =>
        if !signal then Ok(([original], st))
        else if FullName(cls, original.name) in st.fixedSignals then Ok(([], st))
        else Ok((LeadingCopies(original.leadingLines) + [AnnAssign(original.name, SignalType)],
                 State(st.lastClass, st.fixedSignals + [FullName(cls, original.name)])))
  }

  /** The statements a node becomes and the fields afterwards, in the library's traversal order. */
  function WalkNode(runtime: Runtime, st: State, n: Node): (r: Result<(seq<Node>, State)>)
    ensures r.Ok? ==> r.value.1.lastClass == st.lastClass
    decreases n
  {
    match n
    case ClassDef(name, bases, body) =>
      (match WalkNodes(runtime, State(st.lastClass + [name], st.fixedSignals), body)
       case Err(e) => Err(e)
       case Ok(inner) => Ok(([ClassDef(name, bases, inner.0)], State(st.lastClass, inner.1.fixedSignals))))
    case FunctionDef(_, _, _, _, body) =>
      (match WalkNodes(runtime, st, body)
       case Err(e) => Err(e)
       case Ok(inner) => LeaveFunction(runtime, inner.1, n))
    case _ => Ok(([n], st))
  }

  function WalkNodes(runtime: Runtime, st: State, ns: seq<Node>): (r: Result<(seq<Node>, State)>)
    ensures r.Ok? ==> r.value.1.lastClass == st.lastClass
    decreases ns
  {
    if |ns| == 0 then Ok(([], st))
    else
      match WalkNodes(runtime, st, ns[..|ns| - 1])
      case Err(e) => Err(e)
      case Ok(init) =>
        match WalkNode(runtime, init.1, ns[|ns| - 1])
        case Err(e) => Err(e)
        case Ok(last) => Ok((init.0 + last.0, last.1))
  }

  /** A function outside any class, or in a nested class, is returned as it is and changes nothing. */
  lemma LeaveFunctionOutsideTopLevel(runtime: Runtime, st: State, original: Node)
    requires original.FunctionDef? && |st.lastClass| != 1
    ensures LeaveFunction(runtime, st, original) == Ok(([original], st))
  {
  }

  /** A method that is not a signal at runtime is returned as it is. */
  lemma LeaveFunctionNotSignal(runtime: Runtime, st: State, original: Node)
    requires original.FunctionDef? && |st.lastClass| == 1
    requires IsSignal(runtime, st.lastClass[0], original.name) == Ok(false)
    ensures LeaveFunction(runtime, st, original) == Ok(([original], st))
  {
  }

  /** The first occurrence of a signal becomes its annotation, after copies of its leading lines, and is recorded. */
  lemma LeaveFunctionFirstSignal(runtime: Runtime, st: State, original: Node)
    requires original.FunctionDef? && |st.lastClass| == 1
    requires IsSignal(runtime, st.lastClass[0], original.name) == Ok(true)
    requires FullName(st.lastClass[0], original.name) !in st.fixedSignals
    ensures LeaveFunction(runtime, st, original)
         == Ok((LeadingCopies(original.leadingLines) + [AnnAssign(original.name, SignalType)],
                State(st.lastClass, st.fixedSignals + [FullName(st.lastClass[0], original.name)])))
  {
  }

  /** A later overload of a signal already rewritten is removed. */
  lemma LeaveFunctionOverload(runtime: Runtime, st: State, original: Node)
    requires original.FunctionDef? && |st.lastClass| == 1
    requires IsSignal(runtime, st.lastClass[0], original.name) == Ok(true)
    requires FullName(st.lastClass[0], original.name) in st.fixedSignals
    ensures LeaveFunction(runtime, st, original) == Ok(([], st))
  {
  }

  /** The innermost enclosing class. */
  function Top(st: State): string
    requires |st.lastClass| > 0
  {
    st.lastClass[|st.lastClass| - 1]
  }

  /** Below the first class level nothing is rewritten and nothing is recorded. */
  lemma {:induction false} DeepNodeUnchanged(runtime: Runtime, st: State, n: Node)
    requires |st.lastClass| > 1
    ensures WalkNode(runtime, st, n) == Ok(([n], st))
    decreases n
  {
    match n
    case ClassDef(name, bases, body) =>
      DeepNodesUnchanged(runtime, State(st.lastClass + [name], st.fixedSignals), body);
    case FunctionDef(_, _, _, _, body) =>
      DeepNodesUnchanged(runtime, st, body);
    case _ =>
  }

  lemma {:induction false} DeepNodesUnchanged(runtime: Runtime, st: State, ns: seq<Node>)
    requires |st.lastClass| > 1
    ensures WalkNodes(runtime, st, ns) == Ok((ns, st))
    decreases ns
  {
    if |ns| > 0 {
      DeepNodesUnchanged(runtime, st, ns[..|ns| - 1]);
      DeepNodeUnchanged(runtime, st, ns[|ns| - 1]);
      assert ns[..|ns| - 1] + [ns[|ns| - 1]] == ns;
    }
  }

  /** A class nested in a top-level class is left as it is, with its methods. */
  lemma NestedClassUnchanged(runtime: Runtime, st: State, name: string, bases: seq<Base>, body: seq<Node>)
    requires |st.lastClass| > 0
    ensures WalkNode(runtime, st, ClassDef(name, bases, body)) == Ok(([ClassDef(name, bases, body)], st))
  {
    DeepNodesUnchanged(runtime, State(st.lastClass + [name], st.fixedSignals), body);
  }

  /** Outside any class, code without classes is left as it is and changes nothing. */
  lemma {:induction false} OutsideClassesUnchanged(runtime: Runtime, st: State, n: Node)
    requires |st.lastClass| == 0 && NoClassIn(n)
    ensures WalkNode(runtime, st, n) == Ok(([n], st))
    decreases n
  {
    if n.FunctionDef? {
      OutsideClassesUnchangedAll(runtime, st, n.body);
    }
  }

  lemma {:induction false} OutsideClassesUnchangedAll(runtime: Runtime, st: State, ns: seq<Node>)
    requires |st.lastClass| == 0 && NoClasses(ns)
    ensures WalkNodes(runtime, st, ns) == Ok((ns, st))
    decreases ns
  {
    if |ns| > 0 {
      NoClassesInit(ns);
      OutsideClassesUnchangedAll(runtime, st, ns[..|ns| - 1]);
      OutsideClassesUnchanged(runtime, st, ns[|ns| - 1]);
      assert ns[..|ns| - 1] + [ns[|ns| - 1]] == ns;
    }
  }

  /** Recording a signal only appends one not yet recorded. */
  lemma LeaveFunctionRecords(runtime: Runtime, st: State, original: Node)
    requires original.FunctionDef? && LeaveFunction(runtime, st, original).Ok?
    ensures var after := LeaveFunction(runtime, st, original).value.1.fixedSignals;
            after == st.fixedSignals
            || (|after| == |st.fixedSignals| + 1 && after[..|st.fixedSignals|] == st.fixedSignals
                && after[|st.fixedSignals|] !in st.fixedSignals)
  {
    var after := LeaveFunction(runtime, st, original).value.1.fixedSignals;
    if after != st.fixedSignals {
      assert after[..|st.fixedSignals|] == st.fixedSignals;
    }
  }

  /**
    The recorded signals only grow, and never twice the same: each signal is
    annotated once however many overloads it has.
  */
  lemma {:induction false} WalkNodeRecords(runtime: Runtime, st: State, n: Node)
    requires NoDuplicates(st.fixedSignals) && WalkNode(runtime, st, n).Ok?
    ensures var after := WalkNode(runtime, st, n).value.1.fixedSignals;
            NoDuplicates(after) && |st.fixedSignals| <= |after| && after[..|st.fixedSignals|] == st.fixedSignals
    decreases n
  {
    match n
    case ClassDef(name, bases, body) =>
      WalkNodesRecords(runtime, State(st.lastClass + [name], st.fixedSignals), body);
    case FunctionDef(_, _, _, _, body) =>
      WalkNodesRecords(runtime, st, body);
      var inner := WalkNodes(runtime, st, body).value.1;
      LeaveFunctionRecords(runtime, inner, n);
      AppendFresh(st.fixedSignals, inner.fixedSignals, LeaveFunction(runtime, inner, n).value.1.fixedSignals);
    case _ =>
  }

  lemma {:induction false} WalkNodesRecords(runtime: Runtime, st: State, ns: seq<Node>)
    requires NoDuplicates(st.fixedSignals) && WalkNodes(runtime, st, ns).Ok?
    ensures var after := WalkNodes(runtime, st, ns).value.1.fixedSignals;
            NoDuplicates(after) && |st.fixedSignals| <= |after| && after[..|st.fixedSignals|] == st.fixedSignals
    decreases ns
  {
    if |ns| > 0 {
      WalkNodesRecords(runtime, st, ns[..|ns| - 1]);
      var init := WalkNodes(runtime, st, ns[..|ns| - 1]).value.1;
      WalkNodeRecords(runtime, init, ns[|ns| - 1]);
      PrefixTrans(st.fixedSignals, init.fixedSignals, WalkNode(runtime, init, ns[|ns| - 1]).value.1.fixedSignals);
    }
  }

  lemma AppendFresh(a: seq<string>, b: seq<string>, c: seq<string>)
    requires NoDuplicates(b) && |a| <= |b| && b[..|a|] == a
    requires c == b || (|c| == |b| + 1 && c[..|b|] == b && c[|b|] !in b)
    ensures NoDuplicates(c) && |a| <= |c| && c[..|a|] == a
  {
    if c != b {
      assert c == b + [c[|b|]];
    }
  }

  lemma PrefixTrans(a: seq<string>, b: seq<string>, c: seq<string>)
    requires |a| <= |b| && b[..|a|] == a && |b| <= |c| && c[..|b|] == b
    ensures c[..|a|] == a
  {
    assert c[..|a|] == c[..|b|][..|a|];
  }

  /** A stub method definition without leading lines or body statements. */
  function Overload(f: string, params: seq<Param>): Node {
    FunctionDef(f, params, None, [], [])
  }

  /**
    A signal declared twice with different arguments (an overloaded signal)
    in a top-level class becomes a single annotation.
  */
  lemma OverloadedSignalAnnotatedOnce(runtime: Runtime, cls: string, bases: seq<Base>, f: string,
                                      p1: seq<Param>, p2: seq<Param>)
    requires cls in runtime && f in runtime[cls] && runtime[cls][f] == PyqtSignal
    ensures WalkNode(runtime, State([], []), ClassDef(cls, bases, [Overload(f, p1), Overload(f, p2)]))
         == Ok(([ClassDef(cls, bases, [AnnAssign(f, SignalType)])], State([], [FullName(cls, f)])))
  {
    var entered := State([cls], []);
    var s1 := State([cls], [FullName(cls, f)]);
    FirstOverload(runtime, entered, f, p1);
    LaterOverload(runtime, s1, f, p2);
    var body := [Overload(f, p1), Overload(f, p2)];
    assert body[..1] == [Overload(f, p1)];
    assert [Overload(f, p1)][..0] == [];
    assert WalkNodes(runtime, entered, []) == Ok(([], entered));
    assert WalkNodes(runtime, entered, [Overload(f, p1)]) == Ok(([AnnAssign(f, SignalType)], s1));
    assert [AnnAssign(f, SignalType)] + [] == [AnnAssign(f, SignalType)];
    assert WalkNodes(runtime, entered, body) == Ok(([AnnAssign(f, SignalType)], s1));
    assert State([] + [cls], []) == entered;
  }

  lemma FirstOverload(runtime: Runtime, st: State, f: string, params: seq<Param>)
    requires |st.lastClass| == 1 && st.fixedSignals == []
    requires st.lastClass[0] in runtime && f in runtime[st.lastClass[0]] && runtime[st.lastClass[0]][f] == PyqtSignal
    ensures WalkNode(runtime, st, Overload(f, params))
         == Ok(([AnnAssign(f, SignalType)], State(st.lastClass, [FullName(st.lastClass[0], f)])))
  {
    assert WalkNodes(runtime, st, []) == Ok(([], st));
    LeaveFunctionFirstSignal(runtime, st, Overload(f, params));
    assert LeadingCopies([]) + [AnnAssign(f, SignalType)] == [AnnAssign(f, SignalType)];
    assert st.fixedSignals + [FullName(st.lastClass[0], f)] == [FullName(st.lastClass[0], f)];
  }

  lemma LaterOverload(runtime: Runtime, st: State, f: string, params: seq<Param>)
    requires |st.lastClass| == 1 && st.fixedSignals == [FullName(st.lastClass[0], f)]
    requires st.lastClass[0] in runtime && f in runtime[st.lastClass[0]] && runtime[st.lastClass[0]][f] == PyqtSignal
    ensures WalkNode(runtime, st, Overload(f, params)) == Ok(([], st))
  {
    assert WalkNodes(runtime, st, []) == Ok(([], st));
    LeaveFunctionOverload(runtime, st, Overload(f, params));
  }

  // ---------------------------------------------------------------------
  // A flat top-level class, for all inputs

  /** A statement that defines nothing: neither a class nor a function. */
  predicate PlainStatement(n: Node) {
    !n.ClassDef? && !n.FunctionDef?
  }

  /** A member of a stub class body: not a class, and a method's own body holds plain statements only. */
  predicate FlatMember(n: Node) {
    !n.ClassDef? && (n.FunctionDef? ==> forall j :: 0 <= j < |n.body| ==> PlainStatement(n.body[j]))
  }

  predicate FlatBody(ns: seq<Node>) {
    forall i :: 0 <= i < |ns| ==> FlatMember(ns[i])
  }

  /** The number of annotations `f: typing.ClassVar[QtCore.pyqtSignal]` among `ns`. */
  function CountSignalAnnotations(ns: seq<Node>, f: string): nat
    decreases |ns|
  {
    if |ns| == 0 then 0
    else CountSignalAnnotations(ns[..|ns| - 1], f) + (if ns[|ns| - 1] == AnnAssign(f, SignalType) then 1 else 0)
  }

  /**
    What the fixer promises about name `f` when the body `ns` of top-level
    class `cls` becomes `out` and the recorded signals become `after`,
    starting from `fixed`: no method `f` is left if `f` is a signal and
    every method `f` is kept otherwise; a signal method adds exactly one
    annotation, unless the signal was recorded before; and the signal is
    recorded exactly when it was before or the body declares it.
  */
  predicate SignalFixedOnce(runtime: Runtime, cls: string, fixed: seq<string>, ns: seq<Node>,
                            out: seq<Node>, after: seq<string>, f: string)
  {
    var signal := IsSignal(runtime, cls, f) == Ok(true);
    && CountFunctionDefs(out, f) == (if signal then 0 else CountFunctionDefs(ns, f))
    && CountSignalAnnotations(out, f)
       == CountSignalAnnotations(ns, f) + (if signal && CountFunctionDefs(ns, f) > 0 && FullName(cls, f) !in fixed then 1 else 0)
    && (FullName(cls, f) in after <==> FullName(cls, f) in fixed || (signal && CountFunctionDefs(ns, f) > 0))
  }

  /**
    In a flat top-level class body, whatever its methods: every signal ends
    up annotated exactly once however many overloads it has, the other
    methods are kept, and the walk cannot fail.
  */
  lemma {:induction false} FlatBodySignals(runtime: Runtime, cls: string, fixed: seq<string>, ns: seq<Node>)
    requires cls in runtime && FlatBody(ns)
    ensures WalkNodes(runtime, State([cls], fixed), ns).Ok?
    ensures var r := WalkNodes(runtime, State([cls], fixed), ns).value;
      forall f :: SignalFixedOnce(runtime, cls, fixed, ns, r.0, r.1.fixedSignals, f)
    decreases |ns|
  {
    var st := State([cls], fixed);
    if |ns| == 0 {
      forall f ensures SignalFixedOnce(runtime, cls, fixed, ns, [], fixed, f) {
      }
    } else {
      var init := ns[..|ns| - 1];
      var x := ns[|ns| - 1];
      FlatBodySignals(runtime, cls, fixed, init);
      var ri := WalkNodes(runtime, st, init).value;
      FlatStep(runtime, cls, ri.1, x);
      var rx := WalkNode(runtime, ri.1, x).value;
      assert WalkNodes(runtime, st, ns) == Ok((ri.0 + rx.0, rx.1));
      forall f ensures SignalFixedOnce(runtime, cls, fixed, ns, ri.0 + rx.0, rx.1.fixedSignals, f) {
        CountFunctionDefsAppend(ri.0, rx.0, f);
        CountSignalAnnotationsAppend(ri.0, rx.0, f);
        assert SignalFixedOnce(runtime, cls, fixed, init, ri.0, ri.1.fixedSignals, f);
        assert FlatStepOutcome(runtime, cls, ri.1.fixedSignals, x, rx.0, rx.1.fixedSignals, f);
        SnocFixedOnce(runtime, cls, fixed, init, x, ri.0, ri.1.fixedSignals, rx.0, rx.1.fixedSignals, f);
      }
    }
  }

  /** One step of the induction: `SignalFixedOnce` for `init` and the step for `x` give it for `init + [x]`. */
  lemma SnocFixedOnce(runtime: Runtime, cls: string, fixed: seq<string>, init: seq<Node>, x: Node,
                      out1: seq<Node>, mid: seq<string>, out2: seq<Node>, after: seq<string>, f: string)
    requires |init + [x]| > 0
    requires SignalFixedOnce(runtime, cls, fixed, init, out1, mid, f)
    requires FlatStepOutcome(runtime, cls, mid, x, out2, after, f)
    requires CountFunctionDefs(out1 + out2, f) == CountFunctionDefs(out1, f) + CountFunctionDefs(out2, f)
    requires CountSignalAnnotations(out1 + out2, f) == CountSignalAnnotations(out1, f) + CountSignalAnnotations(out2, f)
    ensures SignalFixedOnce(runtime, cls, fixed, init + [x], out1 + out2, after, f)
  {
    var ns := init + [x];
    assert ns[..|ns| - 1] == init && ns[|ns| - 1] == x;
  }

  /** What one member `x` of a flat body does for name `f`, with the signals recorded so far `before`. */
  predicate FlatStepOutcome(runtime: Runtime, cls: string, before: seq<string>, x: Node,
                            out: seq<Node>, after: seq<string>, f: string)
  {
    var signal := IsSignal(runtime, cls, f) == Ok(true);
    var declares := x.FunctionDef? && x.name == f;
    && CountInNode(x, f) == (if declares then 1 else 0)
    && CountFunctionDefs(out, f) == (if signal then 0 else CountInNode(x, f))
    && CountSignalAnnotations(out, f)
       == (if x == AnnAssign(f, SignalType) then 1 else 0) + (if signal && declares && FullName(cls, f) !in before then 1 else 0)
    && (FullName(cls, f) in after <==> FullName(cls, f) in before || (signal && declares))
  }

  /** A member of a flat body, walked inside top-level class `cls`. */
  lemma FlatStep(runtime: Runtime, cls: string, st: State, x: Node)
    requires st.lastClass == [cls] && cls in runtime && FlatMember(x)
    ensures WalkNode(runtime, st, x).Ok?
    ensures var r := WalkNode(runtime, st, x).value;
      forall f :: FlatStepOutcome(runtime, cls, st.fixedSignals, x, r.0, r.1.fixedSignals, f)
  {
    if x.FunctionDef? {
      PlainUnchanged(runtime, st, x.body);
      assert WalkNode(runtime, st, x) == LeaveFunction(runtime, st, x);
      var r := WalkNode(runtime, st, x).value;
      forall f ensures FlatStepOutcome(runtime, cls, st.fixedSignals, x, r.0, r.1.fixedSignals, f) {
        PlainCount(x.body, f);
        FullNameInjective(cls, f, x.name);
        FunctionStep(runtime, cls, st, x, f);
      }
    } else {
      assert WalkNode(runtime, st, x) == Ok(([x], st));
      forall f ensures FlatStepOutcome(runtime, cls, st.fixedSignals, x, [x], st.fixedSignals, f) {
        assert [x][..0] == [];
      }
    }
  }

  /** The step for a method whose body defines nothing, split by what `LeaveFunction` does. */
  lemma FunctionStep(runtime: Runtime, cls: string, st: State, x: Node, f: string)
    requires st.lastClass == [cls] && cls in runtime && x.FunctionDef?
    requires CountFunctionDefs(x.body, f) == 0
    requires FullName(cls, f) == FullName(cls, x.name) <==> f == x.name
    ensures LeaveFunction(runtime, st, x).Ok?
    ensures var r := LeaveFunction(runtime, st, x).value;
      FlatStepOutcome(runtime, cls, st.fixedSignals, x, r.0, r.1.fixedSignals, f)
  {
    var r := LeaveFunction(runtime, st, x).value;
    assert [x][..0] == [];
    if IsSignal(runtime, cls, x.name) == Ok(true) {
      if FullName(cls, x.name) !in st.fixedSignals {
        var copies := LeadingCopies(x.leadingLines);
        assert r.0 == copies + [AnnAssign(x.name, SignalType)];
        EmptyLinesCount(copies, f);
        CountFunctionDefsAppend(copies, [AnnAssign(x.name, SignalType)], f);
        CountSignalAnnotationsAppend(copies, [AnnAssign(x.name, SignalType)], f);
        assert [AnnAssign(x.name, SignalType)][..0] == [];
      }
    }
  }

  /** Copied leading lines define no method and hold no annotation. */
  lemma {:induction false} EmptyLinesCount(ns: seq<Node>, f: string)
    requires forall i :: 0 <= i < |ns| ==> ns[i].EmptyLine?
    ensures CountFunctionDefs(ns, f) == 0 && CountSignalAnnotations(ns, f) == 0
    decreases |ns|
  {
    if |ns| > 0 {
      EmptyLinesCount(ns[..|ns| - 1], f);
    }
  }

  /** Plain statements define no method. */
  lemma {:induction false} PlainCount(ns: seq<Node>, f: string)
    requires forall i :: 0 <= i < |ns| ==> PlainStatement(ns[i])
    ensures CountFunctionDefs(ns, f) == 0
    decreases |ns|
  {
    if |ns| > 0 {
      PlainCount(ns[..|ns| - 1], f);
    }
  }

  /** Plain statements are walked unchanged, in any state. */
  lemma {:induction false} PlainUnchanged(runtime: Runtime, st: State, ns: seq<Node>)
    requires forall i :: 0 <= i < |ns| ==> PlainStatement(ns[i])
    ensures WalkNodes(runtime, st, ns) == Ok((ns, st))
    decreases |ns|
  {
    if |ns| > 0 {
      PlainUnchanged(runtime, st, ns[..|ns| - 1]);
      assert ns[..|ns| - 1] + [ns[|ns| - 1]] == ns;
    }
  }

  lemma {:induction false} CountSignalAnnotationsAppend(a: seq<Node>, b: seq<Node>, f: string)
    ensures CountSignalAnnotations(a + b, f) == CountSignalAnnotations(a, f) + CountSignalAnnotations(b, f)
    decreases |b|
  {
    if |b| > 0 {
      CountSignalAnnotationsAppend(a, b[..|b| - 1], f);
      assert (a + b)[..|a + b| - 1] == a + b[..|b| - 1];
    } else {
      assert a + b == a;
    }
  }

  /** Within one class, the recorded key determines the method name. */
  lemma FullNameInjective(cls: string, f: string, g: string)
    ensures FullName(cls, f) == FullName(cls, g) <==> f == g
  {
    if FullName(cls, f) == FullName(cls, g) {
      assert FullName(cls, f)[|cls| + 1..] == f;
      assert FullName(cls, g)[|cls| + 1..] == g;
    }
  }

  /** The transformer object of the script. */
  class TypingTransformer {
    var lastClass: seq<string>
    var fixedSignals: seq<string>
    const runtime: Runtime

    function Fields(): State
      reads this
    {
      State(lastClass, fixedSignals)
    }

    /** Whether a hook's or a walk's outcome `r` and the fields now are those `spec` describes. */
    predicate Reflects(r: Result<seq<Node>>, spec: Result<(seq<Node>, State)>)
      reads this
    {
      if spec.Ok? then r == Ok(spec.value.0) && Fields() == spec.value.1 else r == Err(spec.error)
    }

    constructor (runtime: Runtime)
      ensures Fields() == State([], []) && this.runtime == runtime
    {
      lastClass := [];
      fixedSignals := [];
      this.runtime := runtime;
    }

    method VisitClassDef(node: Node)
      requires node.ClassDef?
      modifies this
      ensures Fields() == State(old(lastClass) + [node.name], old(fixedSignals))
    {
      lastClass := lastClass + [node.name];
    }

    method LeaveFunctionDef(original: Node) returns (r: Result<seq<Node>>)
      requires original.FunctionDef?
      modifies this
      ensures Reflects(r, LeaveFunction(runtime, old(Fields()), original))
    {
      if |lastClass| == 0 {
        return Ok([original]);
      }
      if |lastClass| > 1 {
        return Ok([original]);
      }
      var fName := original.name;
      var signal := IsSignal(runtime, lastClass[0], fName);
      if signal.Err? {
        return Err(signal.error);
      }
      if signal.value {
        var fullName := FullName(lastClass[0], fName);
        if fullName in fixedSignals {
          return Ok([]);
        }
        fixedSignals := fixedSignals + [fullName];
        var node := AnnAssign(fName, SignalType);
        if |original.leadingLines| > 0 {
          return Ok(LeadingCopies(original.leadingLines) + [node]);
        }
        assert LeadingCopies(original.leadingLines) + [node] == [node];
        return Ok([node]);
      }
      return Ok([original]);
    }

    method LeaveClassDef(original: Node, updated: Node) returns (r: Node)
      requires |lastClass| > 0
      modifies this
      ensures r == updated
      ensures Fields() == State(old(lastClass)[..|old(lastClass)| - 1], old(fixedSignals))
    {
      lastClass := lastClass[..|lastClass| - 1];
      return updated;
    }

    /** The library's depth-first walk: visit on entry, children in order, leave on exit. */
    method Walk(n: Node) returns (r: Result<seq<Node>>)
      modifies this
      ensures Reflects(r, WalkNode(runtime, old(Fields()), n))
      decreases n, 1
    {
      match n
      case ClassDef(name, bases, body) =>
        VisitClassDef(n);
        var inner := WalkAll(body);
        if inner.Err? {
          return Err(inner.error);
        }
        var updated := LeaveClassDef(n, ClassDef(name, bases, inner.value));
        r := Ok([updated]);
      case FunctionDef(_, _, _, _, body) =>
        var inner := WalkAll(body);
        if inner.Err? {
          return Err(inner.error);
        }
        r := LeaveFunctionDef(n);
      case _ =>
        r := Ok([n]);
    }

    method WalkAll(ns: seq<Node>) returns (r: Result<seq<Node>>)
      modifies this
      ensures Reflects(r, WalkNodes(runtime, old(Fields()), ns))
      decreases ns, 0
    {
      var out := [];
      var i := 0;
      while i < |ns|
        invariant 0 <= i <= |ns|
        invariant WalkNodes(runtime, old(Fields()), ns[..i]) == Ok((out, Fields()))
      {
        assert ns[..i + 1][..i] == ns[..i];
        var step := Walk(ns[i]);
        if step.Err? {
          WalkErrPersists(runtime, old(Fields()), ns, i + 1);
          return Err(step.error);
        }
        out := out + step.value;
        i := i + 1;
      }
      assert ns[..i] == ns;
      r := Ok(out);
    }
  }

  /** An exception raised on a prefix of the statements ends the walk with it. */
  lemma {:induction false} WalkErrPersists(runtime: Runtime, st: State, ns: seq<Node>, k: nat)
    requires k <= |ns| && WalkNodes(runtime, st, ns[..k]).Err?
    ensures WalkNodes(runtime, st, ns) == WalkNodes(runtime, st, ns[..k])
    decreases |ns| - k
  {
    if k < |ns| {
      assert ns[..k + 1][..k] == ns[..k];
      WalkErrPersists(runtime, st, ns, k + 1);
    } else {
      assert ns[..k] == ns;
    }
  }

  /** Runs a fresh transformer over one parsed stub module. */
  method FixStub(runtime: Runtime, stub: seq<Node>) returns (r: Result<seq<Node>>)
    ensures var spec := WalkNodes(runtime, State([], []), stub);
            if spec.Ok? then r == Ok(spec.value.0) else r == Err(spec.error)
  {
    var transformer := new TypingTransformer(runtime);
    r := transformer.WalkAll(stub);
  }
}
