/**
  The flags fixer: in every class that is a flags container (its
  constructor takes one parameter `f` annotated `typing.Union['M.Flags', 'M.Flag']`),
  it appends the bitwise operator methods the class does not define yet.
*/
module FlagsFixer {
  import opened Wrappers
  import opened Text
  import opened StubTree

  /** The operator methods every flags container must define, in the order they are added. */
  const MethodsToAdd: seq<string> := ["__and__", "__iand__", "__or__", "__ior__", "__xor__", "__ixor__"]

  /** A flag type: the container type and the type of one flag. */
  type FlagType = (string, string)

  const Quote: set<char> := {'\''}

  predicate AllStringLiterals(elements: seq<SliceElement>) {
    forall i :: 0 <= i < |elements| ==> elements[i].StringLiteral?
  }

  /** The string literals of a subscript with their single quotes stripped. */
  function Unquoted(elements: seq<SliceElement>): (r: seq<string>)
    requires AllStringLiterals(elements)
    ensures |r| == |elements|
    ensures forall i :: 0 <= i < |r| ==> r[i] == Strip(elements[i].raw, Quote)
    decreases |elements|
  {
    if |elements| == 0 then [] else [Strip(elements[0].raw, Quote)] + Unquoted(elements[1..])
  }

  /**
    The flag type a constructor of class `cName` reveals: its parameters are
    `self` and `f`, and `f` is annotated with a subscript of exactly two
    string literals, the first naming the class itself.
  */
  function GetFlagConstructorFlagType(cName: string, params: seq<Param>): Option<FlagType>
  {
    if |params| != 2 then None
    else
      var param := params[|params| - 1];
      if param.name != "f" || param.annotation.None? || !param.annotation.value.Subscript?
         || !AllStringLiterals(param.annotation.value.elements)
      then None
      else
        var unionValues := Unquoted(param.annotation.value.elements);
        if |unionValues| != 2 || !EndsWith(unionValues[0], "." + cName) then None
        else Some((unionValues[0], unionValues[1]))
  }

  /** The flag type is revealed exactly by constructors of that shape, and it is the two stripped literals. */
  lemma GetFlagConstructorFlagTypeSpec(cName: string, params: seq<Param>)
    ensures GetFlagConstructorFlagType(cName, params).Some? <==>
              |params| == 2 && params[1].name == "f" && params[1].annotation.Some?
              && params[1].annotation.value.Subscript?
              && AllStringLiterals(params[1].annotation.value.elements)
              && |params[1].annotation.value.elements| == 2
              && EndsWith(Strip(params[1].annotation.value.elements[0].raw, Quote), "." + cName)
    ensures GetFlagConstructorFlagType(cName, params).Some? ==>
              GetFlagConstructorFlagType(cName, params).value
              == (Strip(params[1].annotation.value.elements[0].raw, Quote),
                  Strip(params[1].annotation.value.elements[1].raw, Quote))
  {
  }

  /** A name with no single quote at either end survives quoting and `strip("'")`. */
  predicate Unquotable(s: string) {
    |s| > 0 && s[0] != '\'' && s[|s| - 1] != '\''
  }

  /** The parameters of `def __init__(self, f: typing.Union['<container>', '<flag>'])`. */
  function FlagConstructorParams(container: string, flag: string): seq<Param>
  {
    [Param("self", None), Param("f", Some(Subscript(QuotedPair(container, flag))))]
  }

  /** The subscript elements `'<container>', '<flag>'`. */
  function QuotedPair(container: string, flag: string): seq<SliceElement>
  {
    [StringLiteral("'" + container + "'"), StringLiteral("'" + flag + "'")]
  }

  lemma UnquotedPair(container: string, flag: string)
    requires Unquotable(container) && Unquotable(flag)
    ensures AllStringLiterals(QuotedPair(container, flag))
    ensures Unquoted(QuotedPair(container, flag)) == [container, flag]
  {
    var e := QuotedPair(container, flag);
    UnquotedLiteral(e[0], container);
    UnquotedLiteral(e[1], flag);
    UnquotedOfTwo(e, container, flag);
  }

  lemma UnquotedLiteral(e: SliceElement, s: string)
    requires Unquotable(s) && e == StringLiteral("'" + s + "'")
    ensures e.StringLiteral? && Strip(e.raw, Quote) == s
  {
    StripQuoted(s);
  }

  lemma UnquotedOfTwo(elements: seq<SliceElement>, a: string, b: string)
    requires |elements| == 2 && AllStringLiterals(elements)
    requires Strip(elements[0].raw, Quote) == a && Strip(elements[1].raw, Quote) == b
    ensures Unquoted(elements) == [a, b]
  {
    var u := Unquoted(elements);
    assert u[0] == a && u[1] == b;
  }

  /** The constructor of a flags container reveals exactly the two types it is annotated with. */
  lemma FlagConstructorRoundTrip(cName: string, container: string, flag: string)
    requires Unquotable(container) && Unquotable(flag) && EndsWith(container, "." + cName)
    ensures GetFlagConstructorFlagType(cName, FlagConstructorParams(container, flag)) == Some((container, flag))
  {
    UnquotedPair(container, flag);
  }

  lemma StripQuoted(s: string)
    requires Unquotable(s)
    ensures Strip("'" + s + "'", Quote) == s
  {
    StripPadding("'", s, "'", Quote);
  }

  lemma GetFlagOfShape(cName: string, self: Param, elements: seq<SliceElement>)
    requires |elements| == 2 && AllStringLiterals(elements)
    requires EndsWith(Strip(elements[0].raw, Quote), "." + cName)
    ensures GetFlagConstructorFlagType(cName, [self, Param("f", Some(Subscript(elements)))])
         == Some((Strip(elements[0].raw, Quote), Strip(elements[1].raw, Quote)))
  {
    var unionValues := Unquoted(elements);
    assert unionValues[0] == Strip(elements[0].raw, Quote);
  }

  /** `def <name>(self, other: typing.Union['<container>', '<flag>']) -> '<container>': ...` */
  function MethodStub(name: string, flagType: FlagType): Node
  {
    FunctionDef(name,
                [Param("self", None),
                 Param("other", Some(Subscript([StringLiteral("'" + flagType.0 + "'"),
                                                StringLiteral("'" + flagType.1 + "'")])))],
                Some(StringAnnotation("'" + flagType.0 + "'")),
                [], [OtherStatement("...")])
  }

  function MethodStubs(names: seq<string>, flagType: FlagType): (r: seq<Node>)
    ensures |r| == |names|
    decreases |names|
  {
    if |names| == 0 then [] else MethodStubs(names[..|names| - 1], flagType) + [MethodStub(names[|names| - 1], flagType)]
  }

  /**
    The stub for the `i`-th missing name is that method, taking `self` and
    `other: typing.Union['<container>', '<flag>']`, returning the container
    class named as a forward reference, with `...` as its body.
  */
  lemma {:induction false} MethodStubsShape(names: seq<string>, flagType: FlagType, i: nat)
    requires i < |names|
    ensures var stub := MethodStubs(names, flagType)[i];
      && stub.FunctionDef? && stub.name == names[i]
      && stub.params == [Param("self", None), Param("other", Some(Subscript(QuotedPair(flagType.0, flagType.1))))]
      && stub.returnAnnotation == Some(StringAnnotation("'" + flagType.0 + "'"))
      && stub.leadingLines == [] && stub.body == [OtherStatement("...")]
    decreases |names|
  {
    var front := names[..|names| - 1];
    if i < |front| {
      MethodStubsShape(front, flagType, i);
      assert MethodStubs(names, flagType)[i] == MethodStubs(front, flagType)[i];
    }
  }

  /** Python's `list.remove(x)` for a present `x`: drops its first occurrence. */
  function RemoveFirst(s: seq<string>, x: string): (r: seq<string>)
    ensures x !in s ==> r == s
    ensures x in s ==> |r| == |s| - 1 && multiset(r) == multiset(s) - multiset{x}
    decreases |s|
  {
    if |s| == 0 then []
    else
      assert s == [s[0]] + s[1..];
      if s[0] == x then s[1..]
      else [s[0]] + RemoveFirst(s[1..], x)
  }

  /** The elements of `s` not in `names`, in order. */
  function Without(s: seq<string>, names: set<string>): seq<string>
    decreases |s|
  {
    if |s| == 0 then []
    else (if s[0] in names then [] else [s[0]]) + Without(s[1..], names)
  }

  /** The elements of `s` also in `t`, in the order of `s`: the comprehension `m for m in s if m in t`. */
  function FilterIn(s: seq<string>, t: seq<string>): seq<string>
    decreases |s|
  {
    if |s| == 0 then []
    else (if s[0] in t then [s[0]] else []) + FilterIn(s[1..], t)
  }

  lemma {:induction false} WithoutMembers(s: seq<string>, names: set<string>, x: string)
    ensures x in Without(s, names) <==> x in s && x !in names
    decreases |s|
  {
    if |s| > 0 {
      WithoutMembers(s[1..], names, x);
      assert x in s <==> x == s[0] || x in s[1..] by {
        assert s == [s[0]] + s[1..];
      }
    }
  }

  /** The names of all function definitions in `ns`, nested ones included. */
  function DefinedNames(ns: seq<Node>): set<string>
    decreases ns
  {
    if |ns| == 0 then {} else DefinedNames(ns[..|ns| - 1]) + NamesIn(ns[|ns| - 1])
  }

  function NamesIn(n: Node): set<string>
    decreases n
  {
    match n
    case ClassDef(_, _, body) => DefinedNames(body)
    case FunctionDef(f, _, _, _, body) => {f} + DefinedNames(body)
    case _ => {}
  }

  /** The transformer's three fields, as one value. */
  datatype State = State(lastClass: seq<string>, lastFlagType: Option<FlagType>, missingMethods: seq<string>)

  /** The fields when a class is entered: the class pushed, the flag type forgotten, every method missing. */
  function EnterClass(st: State, name: string): State
  {
    State(st.lastClass + [name], None, MethodsToAdd)
  }

  /**
    The fields after a function definition is left: inside a class, its name
    is no longer missing, and a constructor revealing a flag type records it.
  */
  function LeaveFunction(st: State, f: Node): (r: State)
    requires f.FunctionDef?
    ensures r.lastClass == st.lastClass
  {
    if |st.lastClass| == 0 then st
    else State(st.lastClass, RevealedFlagType(Top(st), f, st.lastFlagType), StillMissing(st.missingMethods, f.name))
  }

  /** The missing list once a method called `name` is seen: its first occurrence goes. */
  function StillMissing(missing: seq<string>, name: string): seq<string>
  {
    if name in missing then RemoveFirst(missing, name) else missing
  }

  /** The flag type recorded once `f` is seen inside class `cName`: a revealing constructor replaces it. */
  function RevealedFlagType(cName: string, f: Node, flagType: Option<FlagType>): Option<FlagType>
    requires f.FunctionDef?
  {
    if f.name == "__init__" && GetFlagConstructorFlagType(cName, f.params).Some?
    then GetFlagConstructorFlagType(cName, f.params) else flagType
  }

  /**
    The class and the fields after a class definition is left: a flags
    container with methods missing gets a blank line and one stub per missing
    method, in the order of `MethodsToAdd`; the class is popped and the flag
    type forgotten, while the missing list is left as it is.
  */
  function LeaveClass(st: State, updated: Node): (r: (Node, State))
    requires |st.lastClass| > 0 && updated.ClassDef?
    ensures r.1.lastClass == st.lastClass[..|st.lastClass| - 1]
  {
    var node :=
      if st.lastFlagType.Some? && |st.missingMethods| > 0
      then ClassDef(updated.name, updated.bases,
                    updated.body + [Newline]
                    + MethodStubs(FilterIn(MethodsToAdd, st.missingMethods), st.lastFlagType.value))
      else updated;
    (node, State(st.lastClass[..|st.lastClass| - 1], None, st.missingMethods))
  }

  /** The node and the fields after the library's depth-first walk of `n`. */
  function WalkNode(st: State, n: Node): (r: (Node, State))
    ensures r.1.lastClass == st.lastClass
    decreases n
  {
    match n
    case ClassDef(name, bases, body) =>
      var inner := WalkNodes(EnterClass(st, name), body);
      LeaveClass(inner.1, ClassDef(name, bases, inner.0))
    case FunctionDef(name, params, ret, leading, body) =>
      var inner := WalkNodes(st, body);
      (FunctionDef(name, params, ret, leading, inner.0), LeaveFunction(inner.1, n))
    case _ => (n, st)
  }

  function WalkNodes(st: State, ns: seq<Node>): (r: (seq<Node>, State))
    ensures r.1.lastClass == st.lastClass && |r.0| == |ns|
    decreases ns
  {
    if |ns| == 0 then ([], st)
    else
      var init := WalkNodes(st, ns[..|ns| - 1]);
      var last := WalkNode(init.1, ns[|ns| - 1]);
      (init.0 + [last.0], last.1)
  }

  /** The flag type recorded after walking `ns` inside class `cName`: the last constructor revealing one. */
  function FlagAfter(cName: string, flagType: Option<FlagType>, ns: seq<Node>): Option<FlagType>
    decreases ns
  {
    if |ns| == 0 then flagType
    else FlagAfterNode(cName, FlagAfter(cName, flagType, ns[..|ns| - 1]), ns[|ns| - 1])
  }

  function FlagAfterNode(cName: string, flagType: Option<FlagType>, n: Node): Option<FlagType>
    decreases n
  {
    match n
    case FunctionDef(_, _, _, _, body) =>
      RevealedFlagType(cName, n, FlagAfter(cName, flagType, body))
    case _ => flagType
  }

  /**
    What a class without nested classes gets appended: when one of its
    constructors reveals a flag type, a blank line and a stub for every
    operator method it does not define.
  */
  function Additions(name: string, body: seq<Node>): seq<Node>
  {
    var flagType := FlagAfter(name, None, body);
    var missing := Without(MethodsToAdd, DefinedNames(body));
    if flagType.Some? && |missing| > 0 then [Newline] + MethodStubs(missing, flagType.value) else []
  }

  lemma MethodsToAddDistinct()
    ensures NoDuplicates(MethodsToAdd)
  {
  }

  /** Removing one more name from a filtered list filters by one more name. */
  lemma StillMissingWithout(s: seq<string>, names: set<string>, f: string)
    requires NoDuplicates(s)
    ensures StillMissing(Without(s, names), f) == Without(s, names + {f})
  {
    RemoveFirstWithout(s, names, f);
  }

  lemma {:induction false} RemoveFirstWithout(s: seq<string>, names: set<string>, f: string)
    requires NoDuplicates(s)
    ensures RemoveFirst(Without(s, names), f) == Without(s, names + {f})
    decreases |s|
  {
    if |s| > 0 {
      NoDuplicatesTail(s);
      RemoveFirstWithout(s[1..], names, f);
      var rest := Without(s[1..], names);
      if s[0] in names {
        assert Without(s, names) == rest;
      } else if s[0] == f {
        assert Without(s, names) == [f] + rest;
        assert RemoveFirst([f] + rest, f) == rest;
        HeadNotInTail(s);
        WithoutIgnoresAbsent(s[1..], names, f);
      } else {
        assert Without(s, names) == [s[0]] + rest;
        assert ([s[0]] + rest)[1..] == rest;
        assert RemoveFirst([s[0]] + rest, f) == [s[0]] + RemoveFirst(rest, f);
      }
    }
  }

  lemma NoDuplicatesTail(s: seq<string>)
    requires |s| > 0 && NoDuplicates(s)
    ensures NoDuplicates(s[1..])
  {
    forall i, j | 0 <= i < j < |s| - 1 ensures s[1..][i] != s[1..][j] {
      assert s[1..][i] == s[i + 1] && s[1..][j] == s[j + 1];
    }
  }

  lemma HeadNotInTail(s: seq<string>)
    requires |s| > 0 && NoDuplicates(s)
    ensures s[0] !in s[1..]
  {
    forall j | 0 <= j < |s| - 1 ensures s[1..][j] != s[0] {
      assert s[1..][j] == s[j + 1];
    }
  }

  lemma {:induction false} WithoutIgnoresAbsent(s: seq<string>, names: set<string>, f: string)
    requires f !in s
    ensures Without(s, names + {f}) == Without(s, names)
    decreases |s|
  {
    if |s| > 0 {
      WithoutIgnoresAbsent(s[1..], names, f);
    }
  }

  /** Filtering a list by a sub-list of itself keeps that sub-list's elements in the list's order. */
  lemma {:induction false} FilterInWithout(s: seq<string>, names: set<string>)
    ensures FilterIn(s, Without(s, names)) == Without(s, names)
    decreases |s|
  {
    if |s| > 0 {
      var tail := s[1..];
      var rest := Without(tail, names);
      FilterInWithout(tail, names);
      WithoutMembers(tail, names, s[0]);
      if s[0] in names {
        assert Without(s, names) == rest;
      } else {
        assert Without(s, names) == [s[0]] + rest;
        forall i | 0 <= i < |tail| ensures tail[i] in [s[0]] + rest <==> tail[i] in rest {
          WithoutMembers(tail, names, tail[i]);
        }
        FilterInAgrees(tail, [s[0]] + rest, rest);
      }
    }
  }

  /** `FilterIn` only looks at which elements of `s` are members. */
  lemma {:induction false} FilterInAgrees(s: seq<string>, t: seq<string>, u: seq<string>)
    requires forall i :: 0 <= i < |s| ==> (s[i] in t <==> s[i] in u)
    ensures FilterIn(s, t) == FilterIn(s, u)
    decreases |s|
  {
    if |s| > 0 {
      FilterInAgrees(s[1..], t, u);
    }
  }

  lemma WithoutNothing(s: seq<string>)
    ensures Without(s, {}) == s
    decreases |s|
  {
  }

  function Top(st: State): string
    requires |st.lastClass| > 0
  {
    st.lastClass[|st.lastClass| - 1]
  }

  /**
    Inside a class, walking nodes that hold no class leaves them unchanged,
    records the flag type of their last revealing constructor and removes
    the names they define from the missing list.
  */
  lemma {:induction false} WalkNodeNoClasses(st: State, n: Node, defined: set<string>)
    requires NoClassIn(n) && |st.lastClass| > 0 && st.missingMethods == Without(MethodsToAdd, defined)
    ensures WalkNode(st, n) == (n, State(st.lastClass, FlagAfterNode(Top(st), st.lastFlagType, n),
                                         Without(MethodsToAdd, defined + NamesIn(n))))
    decreases n, 1
  {
    if n.FunctionDef? {
      WalkFunctionNoClasses(st, n, defined);
    } else {
      assert defined + NamesIn(n) == defined;
    }
  }

  lemma {:induction false} WalkFunctionNoClasses(st: State, n: Node, defined: set<string>)
    requires n.FunctionDef? && NoClasses(n.body)
    requires |st.lastClass| > 0 && st.missingMethods == Without(MethodsToAdd, defined)
    ensures WalkNode(st, n) == (n, State(st.lastClass, FlagAfterNode(Top(st), st.lastFlagType, n),
                                         Without(MethodsToAdd, defined + NamesIn(n))))
    decreases n, 0
  {
    var inner := defined + DefinedNames(n.body);
    WalkNodesNoClasses(st, n.body, defined);
    var st' := State(st.lastClass, FlagAfter(Top(st), st.lastFlagType, n.body), Without(MethodsToAdd, inner));
    assert WalkNodes(st, n.body) == (n.body, st');
    MethodsToAddDistinct();
    StillMissingWithout(MethodsToAdd, inner, n.name);
    assert inner + {n.name} == defined + NamesIn(n);
  }

  lemma {:induction false} WalkNodesNoClasses(st: State, ns: seq<Node>, defined: set<string>)
    requires NoClasses(ns) && |st.lastClass| > 0 && st.missingMethods == Without(MethodsToAdd, defined)
    ensures WalkNodes(st, ns) == (ns, State(st.lastClass, FlagAfter(Top(st), st.lastFlagType, ns),
                                            Without(MethodsToAdd, defined + DefinedNames(ns))))
    decreases ns
  {
    if |ns| == 0 {
      assert defined + DefinedNames(ns) == defined;
    } else {
      var init := ns[..|ns| - 1];
      var last := ns[|ns| - 1];
      NoClassesInit(ns);
      WalkNodesNoClasses(st, init, defined);
      var r1 := WalkNodes(st, init);
      assert Top(r1.1) == Top(st);
      WalkNodeNoClasses(r1.1, last, defined + DefinedNames(init));
      var r2 := WalkNode(r1.1, last);
      assert r1.0 + [r2.0] == ns;
      var names := defined + DefinedNames(ns);
      assert defined + DefinedNames(init) + NamesIn(last) == names;
      assert r2.1 == State(st.lastClass, FlagAfter(Top(st), st.lastFlagType, ns), Without(MethodsToAdd, names));
    }
  }

  /**
    A class without nested classes gets exactly `Additions` appended to its
    body; afterwards the flag type is forgotten and the missing list holds
    the operator methods it lacked.
  */
  lemma ClassFix(st: State, name: string, bases: seq<Base>, body: seq<Node>)
    requires NoClasses(body)
    ensures WalkNode(st, ClassDef(name, bases, body))
         == (ClassDef(name, bases, body + Additions(name, body)),
             State(st.lastClass, None, Without(MethodsToAdd, DefinedNames(body))))
  {
    var entered := EnterClass(st, name);
    var defined := DefinedNames(body);
    var missing := Without(MethodsToAdd, defined);
    var flagType := FlagAfter(name, None, body);
    var left := State(st.lastClass + [name], flagType, missing);
    assert WalkNodes(entered, body) == (body, left) by {
      WithoutNothing(MethodsToAdd);
      WalkNodesNoClasses(entered, body, {});
      assert {} + defined == defined;
    }
    LeaveClassAdditions(st.lastClass, name, bases, body);
  }

  /** Leaving a class after its body was walked appends `Additions` and restores the outer stack. */
  lemma LeaveClassAdditions(outer: seq<string>, name: string, bases: seq<Base>, body: seq<Node>)
    ensures LeaveClass(State(outer + [name], FlagAfter(name, None, body), Without(MethodsToAdd, DefinedNames(body))),
                       ClassDef(name, bases, body))
         == (ClassDef(name, bases, body + Additions(name, body)),
             State(outer, None, Without(MethodsToAdd, DefinedNames(body))))
  {
    var missing := Without(MethodsToAdd, DefinedNames(body));
    var flagType := FlagAfter(name, None, body);
    FilterInWithout(MethodsToAdd, DefinedNames(body));
    assert (outer + [name])[..|outer|] == outer;
    if flagType.Some? && |missing| > 0 {
      AppendAssoc(body, [Newline], MethodStubs(missing, flagType.value));
    } else {
      assert body + [] == body;
    }
  }

  lemma AppendAssoc(a: seq<Node>, b: seq<Node>, c: seq<Node>)
    ensures a + b + c == a + (b + c)
  {
  }

  lemma {:induction false} MethodStubsHaveNoClasses(names: seq<string>, flagType: FlagType)
    ensures NoClasses(MethodStubs(names, flagType))
    decreases |names|
  {
    var r := MethodStubs(names, flagType);
    if |names| > 0 {
      MethodStubsHaveNoClasses(names[..|names| - 1], flagType);
      forall i | 0 <= i < |r| ensures NoClassIn(r[i]) {
        if i < |r| - 1 {
          assert r[i] == MethodStubs(names[..|names| - 1], flagType)[i];
        } else {
          assert r[i] == MethodStub(names[|names| - 1], flagType);
          assert NoClasses([OtherStatement("...")]);
        }
      }
    }
  }

  /** The stubs define exactly the methods they are made for. */
  lemma {:induction false} MethodStubsDefine(names: seq<string>, flagType: FlagType, x: string)
    ensures x in DefinedNames(MethodStubs(names, flagType)) <==> x in names
    decreases |names|
  {
    if |names| > 0 {
      var init := names[..|names| - 1];
      var last := names[|names| - 1];
      MethodStubsDefine(init, flagType, x);
      var stub := MethodStub(last, flagType);
      assert DefinedNames(stub.body) == {} by {
        assert stub.body[..0] == [];
      }
      var r := MethodStubs(names, flagType);
      assert r[..|r| - 1] == MethodStubs(init, flagType);
      assert x in names <==> x in init || x == last by {
        assert names == init + [last];
      }
    }
  }

  /** Running the fixer again on a fixed class without nested classes changes nothing. */
  lemma ClassFixIdempotent(st: State, st2: State, name: string, bases: seq<Base>, body: seq<Node>)
    requires NoClasses(body)
    ensures WalkNode(st2, WalkNode(st, ClassDef(name, bases, body)).0).0 == WalkNode(st, ClassDef(name, bases, body)).0
  {
    ClassFix(st, name, bases, body);
    AdditionsComplete(name, body);
    var body' := body + Additions(name, body);
    ClassFix(st2, name, bases, body');
    assert body' + [] == body';
  }

  /** Once the additions are appended, a class needs no more. */
  lemma AdditionsComplete(name: string, body: seq<Node>)
    requires NoClasses(body)
    ensures NoClasses(body + Additions(name, body))
    ensures Additions(name, body + Additions(name, body)) == []
  {
    var missing := Without(MethodsToAdd, DefinedNames(body));
    var flagType := FlagAfter(name, None, body);
    if flagType.Some? && |missing| > 0 {
      StubsComplete(body, missing, flagType.value);
    } else {
      assert body + [] == body;
    }
  }

  lemma StubsComplete(body: seq<Node>, missing: seq<string>, flagType: FlagType)
    requires NoClasses(body) && missing == Without(MethodsToAdd, DefinedNames(body))
    ensures NoClasses(body + ([Newline] + MethodStubs(missing, flagType)))
    ensures Without(MethodsToAdd, DefinedNames(body + ([Newline] + MethodStubs(missing, flagType)))) == []
  {
    var stubs := MethodStubs(missing, flagType);
    var adds := [Newline] + stubs;
    var body' := body + adds;
    MethodStubsHaveNoClasses(missing, flagType);
    assert NoClasses([Newline]) && DefinedNames([Newline]) == {} by {
      assert [Newline][..0] == [];
    }
    NoClassesAppend([Newline], stubs);
    NoClassesAppend(body, adds);
    DefinedNamesAppend([Newline], stubs);
    DefinedNamesAppend(body, adds);
    forall i | 0 <= i < |MethodsToAdd| ensures MethodsToAdd[i] in DefinedNames(body') {
      WithoutMembers(MethodsToAdd, DefinedNames(body), MethodsToAdd[i]);
      MethodStubsDefine(missing, flagType, MethodsToAdd[i]);
    }
    WithoutAll(MethodsToAdd, DefinedNames(body'));
  }

  /** Filtering out every element leaves nothing. */
  lemma {:induction false} WithoutAll(s: seq<string>, names: set<string>)
    requires forall i :: 0 <= i < |s| ==> s[i] in names
    ensures Without(s, names) == []
    decreases |s|
  {
    if |s| > 0 {
      WithoutAll(s[1..], names);
    }
  }

  lemma {:induction false} NoClassesAppend(a: seq<Node>, b: seq<Node>)
    requires NoClasses(a) && NoClasses(b)
    ensures NoClasses(a + b)
  {
    forall i | 0 <= i < |a + b| ensures NoClassIn((a + b)[i]) {
      if i < |a| {
        assert (a + b)[i] == a[i];
      } else {
        assert (a + b)[i] == b[i - |a|];
      }
    }
  }

  lemma {:induction false} DefinedNamesAppend(a: seq<Node>, b: seq<Node>)
    ensures DefinedNames(a + b) == DefinedNames(a) + DefinedNames(b)
    decreases |b|
  {
    if |b| == 0 {
      assert a + b == a;
    } else {
      DefinedNamesAppend(a, b[..|b| - 1]);
      assert (a + b)[..|a + b| - 1] == a + b[..|b| - 1];
    }
  }

  /** Fields that agree on everything the hooks read: the flag type, the missing list and the innermost class. */
  predicate Agree(s1: State, s2: State) {
    s1.lastFlagType == s2.lastFlagType && s1.missingMethods == s2.missingMethods
    && (|s1.lastClass| == 0 <==> |s2.lastClass| == 0)
    && (|s1.lastClass| > 0 ==> Top(s1) == Top(s2))
  }

  /** The walk reads the fields only through what `Agree` compares. */
  lemma {:induction false} WalkNodeAgree(s1: State, s2: State, n: Node)
    requires Agree(s1, s2)
    ensures WalkNode(s1, n).0 == WalkNode(s2, n).0 && Agree(WalkNode(s1, n).1, WalkNode(s2, n).1)
    decreases n, 1
  {
    if n.ClassDef? {
      WalkClassAgree(s1, s2, n);
    } else if n.FunctionDef? {
      WalkFunctionAgree(s1, s2, n);
    }
  }

  lemma {:induction false} WalkClassAgree(s1: State, s2: State, n: Node)
    requires Agree(s1, s2) && n.ClassDef?
    ensures WalkNode(s1, n).0 == WalkNode(s2, n).0 && Agree(WalkNode(s1, n).1, WalkNode(s2, n).1)
    decreases n, 0
  {
    var i1 := WalkNodes(EnterClass(s1, n.name), n.body);
    var i2 := WalkNodes(EnterClass(s2, n.name), n.body);
    WalkNodesAgree(EnterClass(s1, n.name), EnterClass(s2, n.name), n.body);
    assert i1.0 == i2.0 && i1.1.lastFlagType == i2.1.lastFlagType && i1.1.missingMethods == i2.1.missingMethods;
  }

  lemma {:induction false} WalkFunctionAgree(s1: State, s2: State, n: Node)
    requires Agree(s1, s2) && n.FunctionDef?
    ensures WalkNode(s1, n).0 == WalkNode(s2, n).0 && Agree(WalkNode(s1, n).1, WalkNode(s2, n).1)
    decreases n, 0
  {
    WalkNodesAgree(s1, s2, n.body);
    LeaveFunctionAgree(WalkNodes(s1, n.body).1, WalkNodes(s2, n.body).1, n);
  }

  lemma LeaveFunctionAgree(s1: State, s2: State, f: Node)
    requires Agree(s1, s2) && f.FunctionDef?
    ensures Agree(LeaveFunction(s1, f), LeaveFunction(s2, f))
  {
  }

  lemma {:induction false} WalkNodesAgree(s1: State, s2: State, ns: seq<Node>)
    requires Agree(s1, s2)
    ensures WalkNodes(s1, ns).0 == WalkNodes(s2, ns).0 && Agree(WalkNodes(s1, ns).1, WalkNodes(s2, ns).1)
    decreases ns, 2
  {
    if |ns| > 0 {
      WalkNodesAgree(s1, s2, ns[..|ns| - 1]);
      WalkNodeAgree(WalkNodes(s1, ns[..|ns| - 1]).1, WalkNodes(s2, ns[..|ns| - 1]).1, ns[|ns| - 1]);
    }
  }

  /**
    Entering a class resets the flag type and the missing list, so how a
    class is rewritten does not depend on anything walked before it.
  */
  lemma ClassIndependentOfState(s1: State, s2: State, name: string, bases: seq<Base>, body: seq<Node>)
    ensures WalkNode(s1, ClassDef(name, bases, body)).0 == WalkNode(s2, ClassDef(name, bases, body)).0
  {
    WalkNodesAgree(EnterClass(s1, name), EnterClass(s2, name), body);
  }

  /** Outside any class, the walk changes neither nodes without classes nor the fields. */
  lemma {:induction false} OutsideClassesUnchanged(st: State, n: Node)
    requires |st.lastClass| == 0 && NoClassIn(n)
    ensures WalkNode(st, n) == (n, st)
    decreases n
  {
    if n.FunctionDef? {
      OutsideClassesUnchangedAll(st, n.body);
    }
  }

  lemma {:induction false} OutsideClassesUnchangedAll(st: State, ns: seq<Node>)
    requires |st.lastClass| == 0 && NoClasses(ns)
    ensures WalkNodes(st, ns) == (ns, st)
    decreases ns
  {
    if |ns| > 0 {
      NoClassesInit(ns);
      OutsideClassesUnchangedAll(st, ns[..|ns| - 1]);
      OutsideClassesUnchanged(st, ns[|ns| - 1]);
      assert ns[..|ns| - 1] + [ns[|ns| - 1]] == ns;
    }
  }

  /**
    The missing list is shared by nested classes: a nested class that
    defines `__and__` takes it off the list of the enclosing flags
    container, which then gets stubs for the five other operators only.
  */
  lemma NestedClassLeaksMissingList(outer: string, inner: string, container: string, flag: string)
    requires Unquotable(container) && Unquotable(flag) && EndsWith(container, "." + outer)
    ensures WalkNode(State([], None, []), ClassDef(outer, [], [AndOnlyClass(inner), FlagsInit(container, flag)])).0
         == ClassDef(outer, [], [AndOnlyClass(inner), FlagsInit(container, flag), Newline]
                                + MethodStubs(MethodsToAdd[1..], (container, flag)))
  {
    OuterBodyWalk(outer, inner, container, flag);
    LeakGeneral(outer, AndOnlyClass(inner), FlagsInit(container, flag), (container, flag));
  }

  /** A top-level class whose two members leave `__and__` and `__init__` off the list and reveal `ft` gets the five other stubs. */
  lemma LeakGeneral(outer: string, a: Node, b: Node, ft: FlagType)
    requires WalkNodes(State([outer], None, MethodsToAdd), [a, b])
          == ([a, b], State([outer], Some(ft), Without(MethodsToAdd, {"__and__", "__init__"})))
    ensures WalkNode(State([], None, []), ClassDef(outer, [], [a, b])).0
         == ClassDef(outer, [], [a, b, Newline] + MethodStubs(MethodsToAdd[1..], ft))
  {
    var body := [a, b];
    var left := State([outer], Some(ft), Without(MethodsToAdd, {"__and__", "__init__"}));
    assert EnterClass(State([], None, []), outer) == State([outer], None, MethodsToAdd);
    WalkClassStep(State([], None, []), outer, body, body, left);
    LeaveFlagsContainer(outer, body, ft);
    assert body + [Newline] == [a, b, Newline];
  }

  /** Walking a class: enter it, walk its body, leave it. */
  lemma WalkClassStep(st: State, name: string, body: seq<Node>, body': seq<Node>, st': State)
    requires WalkNodes(EnterClass(st, name), body) == (body', st')
    ensures |st'.lastClass| > 0
    ensures WalkNode(st, ClassDef(name, [], body)) == LeaveClass(st', ClassDef(name, [], body'))
  {
  }

  lemma OuterBodyWalk(outer: string, inner: string, container: string, flag: string)
    requires Unquotable(container) && Unquotable(flag) && EndsWith(container, "." + outer)
    ensures WalkNodes(State([outer], None, MethodsToAdd), [AndOnlyClass(inner), FlagsInit(container, flag)])
         == ([AndOnlyClass(inner), FlagsInit(container, flag)],
             State([outer], Some((container, flag)), Without(MethodsToAdd, {"__and__", "__init__"})))
  {
    var entered := State([outer], None, MethodsToAdd);
    var s1 := State([outer], None, Without(MethodsToAdd, {"__and__"}));
    AndOnlyClassStep(entered, inner);
    FlagsInitStep(s1, container, flag);
    WalkTwo(entered, AndOnlyClass(inner), FlagsInit(container, flag));
  }

  lemma WalkTwo(st: State, a: Node, b: Node)
    ensures WalkNodes(st, [a, b]) == ([WalkNode(st, a).0, WalkNode(WalkNode(st, a).1, b).0], WalkNode(WalkNode(st, a).1, b).1)
  {
    var first := WalkNode(st, a);
    assert [a][..0] == [];
    assert WalkNodes(st, [a][..0]) == ([], st);
    assert [] + [first.0] == [first.0];
    assert WalkNodes(st, [a]) == ([first.0], first.1);
    assert [a, b][..1] == [a];
    var second := WalkNode(first.1, b);
    assert [first.0] + [second.0] == [first.0, second.0];
  }

  lemma LeaveFlagsContainer(outer: string, body: seq<Node>, flagType: FlagType)
    ensures LeaveClass(State([outer], Some(flagType), Without(MethodsToAdd, {"__and__", "__init__"})), ClassDef(outer, [], body)).0
         == ClassDef(outer, [], body + [Newline] + MethodStubs(MethodsToAdd[1..], flagType))
  {
    WithoutAndInit();
    FilterInWithout(MethodsToAdd, {"__and__", "__init__"});
  }

  /** A class whose only member is a stub `__and__`. */
  function AndOnlyClass(name: string): Node {
    ClassDef(name, [], [FunctionDef("__and__", [Param("self", None)], None, [], [OtherStatement("...")])])
  }

  /** The constructor of a flags container, with a stub body. */
  function FlagsInit(container: string, flag: string): Node {
    FunctionDef("__init__", FlagConstructorParams(container, flag), None, [], [OtherStatement("...")])
  }

  /** A stub body of one method named `f` defines `f` and, unless `f` is a constructor, reveals no flag type. */
  lemma SingleMethodBody(cName: string, f: string, params: seq<Param>)
    ensures DefinedNames([FunctionDef(f, params, None, [], [OtherStatement("...")])]) == {f}
    ensures f != "__init__" ==> FlagAfter(cName, None, [FunctionDef(f, params, None, [], [OtherStatement("...")])]) == None
  {
    var n := FunctionDef(f, params, None, [], [OtherStatement("...")]);
    assert [n][..0] == [];
    assert n.body[..0] == [];
    assert DefinedNames(n.body) == {};
    assert NamesIn(n) == {f};
    assert FlagAfter(cName, None, n.body) == None;
  }

  lemma AndOnlyClassStep(st: State, name: string)
    requires |st.lastClass| > 0 && st.missingMethods == MethodsToAdd && st.lastFlagType.None?
    ensures WalkNode(st, AndOnlyClass(name)) == (AndOnlyClass(name), State(st.lastClass, None, Without(MethodsToAdd, {"__and__"})))
  {
    var body := AndOnlyClass(name).body;
    ClassFix(st, name, [], body);
    SingleMethodBody(name, "__and__", [Param("self", None)]);
    assert Additions(name, body) == [];
    assert body + [] == body;
  }

  lemma FlagsInitStep(st: State, container: string, flag: string)
    requires |st.lastClass| > 0 && st.missingMethods == Without(MethodsToAdd, {"__and__"}) && st.lastFlagType.None?
    requires Unquotable(container) && Unquotable(flag) && EndsWith(container, "." + Top(st))
    ensures WalkNode(st, FlagsInit(container, flag))
         == (FlagsInit(container, flag), State(st.lastClass, Some((container, flag)), Without(MethodsToAdd, {"__and__", "__init__"})))
  {
    FlagConstructorRoundTrip(Top(st), container, flag);
    InitStep(st, FlagsInit(container, flag), (container, flag), {"__and__"});
    assert {"__and__"} + {"__init__"} == {"__and__", "__init__"};
  }

  /** Walking a stub constructor that reveals `ft` records `ft` and takes `__init__` off the list. */
  lemma InitStep(st: State, n: Node, ft: FlagType, defined: set<string>)
    requires n.FunctionDef? && n.name == "__init__" && n.body == [OtherStatement("...")]
    requires |st.lastClass| > 0 && st.missingMethods == Without(MethodsToAdd, defined) && st.lastFlagType.None?
    requires GetFlagConstructorFlagType(Top(st), n.params) == Some(ft)
    ensures WalkNode(st, n) == (n, State(st.lastClass, Some(ft), Without(MethodsToAdd, defined + {"__init__"})))
  {
    WalkStubFunction(st, n);
    MethodsToAddDistinct();
    StillMissingWithout(MethodsToAdd, defined, "__init__");
  }

  /** A function whose body is a stub walks to itself, then is left. */
  lemma WalkStubFunction(st: State, n: Node)
    requires n.FunctionDef? && n.body == [OtherStatement("...")]
    ensures WalkNode(st, n) == (n, LeaveFunction(st, n))
  {
    var stmt := OtherStatement("...");
    assert n.body[..0] == [];
    assert WalkNodes(st, n.body[..0]) == ([], st);
    assert WalkNode(st, stmt) == (stmt, st);
    assert [] + [stmt] == n.body;
    assert WalkNodes(st, n.body) == (n.body, st);
  }

  lemma WithoutAndInit()
    ensures Without(MethodsToAdd, {"__and__", "__init__"}) == MethodsToAdd[1..]
  {
  }

  /** The transformer object of the script. */
  class TypingTransformer {
    var lastClass: seq<string>
    var lastFlagType: Option<FlagType>
    var missingMethods: seq<string>

    function Fields(): State
      reads this
    {
      State(lastClass, lastFlagType, missingMethods)
    }

    constructor ()
      ensures Fields() == State([], None, [])
    {
      lastClass := [];
      lastFlagType := None;
      missingMethods := [];
    }

    method VisitClassDef(node: Node)
      requires node.ClassDef?
      modifies this
      ensures Fields() == EnterClass(old(Fields()), node.name)
    {
      lastClass := lastClass + [node.name];
      lastFlagType := None;
      missingMethods := MethodsToAdd;
    }

    method LeaveFunctionDef(original: Node, updated: Node) returns (r: Node)
      requires original.FunctionDef?
      modifies this
      ensures r == updated
      ensures Fields() == LeaveFunction(old(Fields()), original)
    {
      r := updated;
      if |lastClass| > 0 {
        var cName := lastClass[|lastClass| - 1];
        var fName := original.name;
        var missing := StillMissing(missingMethods, fName);
        var flag := lastFlagType;
        if fName == "__init__" {
          var flagType := GetFlagConstructorFlagType(cName, original.params);
          if flagType.Some? {
            flag := flagType;
          }
        }
        assert flag == RevealedFlagType(cName, original, lastFlagType);
        missingMethods, lastFlagType := missing, flag;
      }
    }

    method LeaveClassDef(original: Node, updated: Node) returns (r: Node)
      requires updated.ClassDef? && |lastClass| > 0
      modifies this
      ensures (r, Fields()) == LeaveClass(old(Fields()), updated)
    {
      r := updated;
      if lastFlagType.Some? && |missingMethods| > 0 {
        var stubs := MethodStubs(FilterIn(MethodsToAdd, missingMethods), lastFlagType.value);
        r := ClassDef(updated.name, updated.bases, updated.body + [Newline] + stubs);
      }
      lastClass := lastClass[..|lastClass| - 1];
      lastFlagType := None;
    }

    /** The library's depth-first walk: visit on entry, children in order, leave on exit. */
    method Walk(n: Node) returns (r: Node)
      modifies this
      ensures (r, Fields()) == WalkNode(old(Fields()), n)
      decreases n, 1
    {
      match n
      case ClassDef(name, bases, body) =>
        VisitClassDef(n);
        var body' := WalkAll(body);
        r := LeaveClassDef(n, ClassDef(name, bases, body'));
      case FunctionDef(name, params, ret, leading, body) =>
        var body' := WalkAll(body);
        r := LeaveFunctionDef(n, FunctionDef(name, params, ret, leading, body'));
      case _ =>
        r := n;
    }

    method WalkAll(ns: seq<Node>) returns (rs: seq<Node>)
      modifies this
      ensures (rs, Fields()) == WalkNodes(old(Fields()), ns)
      decreases ns, 0
    {
      rs := [];
      var i := 0;
      while i < |ns|
        invariant 0 <= i <= |ns|
        invariant (rs, Fields()) == WalkNodes(old(Fields()), ns[..i])
      {
        assert ns[..i + 1][..i] == ns[..i];
        var r := Walk(ns[i]);
        rs := rs + [r];
        i := i + 1;
      }
      assert ns[..i] == ns;
    }
  }

  /** Runs a fresh transformer over one parsed stub module. */
  method FixStub(stub: seq<Node>) returns (fixed: seq<Node>)
    ensures fixed == WalkNodes(State([], None, []), stub).0
  {
    var transformer := new TypingTransformer();
    fixed := transformer.WalkAll(stub);
  }

  /** The stub files the script leaves alone. */
  predicate Skipped(fileName: string) {
    StartsWith(fileName, "QtWebKit") || fileName in ["QtX11Extras.pyi", "sip.pyi", "__init__.pyi"]
  }

  /** The stub directory after the script: every stub not skipped is fixed on its own. */
  function FixStubDirectory(stubs: map<string, seq<Node>>): (r: map<string, seq<Node>>)
    ensures r.Keys == stubs.Keys
    ensures forall p :: p in stubs && Skipped(p) ==> r[p] == stubs[p]
    ensures forall p :: p in stubs && !Skipped(p) ==> r[p] == WalkNodes(State([], None, []), stubs[p]).0
  {
    map p | p in stubs :: if Skipped(p) then stubs[p] else WalkNodes(State([], None, []), stubs[p]).0
  }
}
