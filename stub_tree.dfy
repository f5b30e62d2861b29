/**
  An abstract concrete-syntax tree of a stub module, keeping only what the
  transformers and the visitor look at: class definitions with their base
  list, function definitions with their parameters, return annotation and
  the blank or comment lines that precede them, and their bodies. Every
  other statement is opaque.
*/
module StubTree {
  import opened Wrappers

  /** A base-class argument: a plain name such as `int`, or any other expression. */
  datatype Base = NameBase(id: string) | OtherBase

  /**
    One element of a subscript such as `typing.Union['A', 'B']`: a string
    literal, kept with its quotes, or any other expression.
  */
  datatype SliceElement = StringLiteral(raw: string) | OtherElement

  /**
    An annotation: a subscript expression, a quoted forward reference such
    as `'A.B'` (kept with its quotes), or anything else.
  */
  datatype Annotation = Subscript(elements: seq<SliceElement>) | StringAnnotation(raw: string) | OtherAnnotation

  datatype Param = Param(name: string, annotation: Option<Annotation>)

  datatype Node =
    | ClassDef(name: string, bases: seq<Base>, body: seq<Node>)
    | FunctionDef(name: string, params: seq<Param>, returnAnnotation: Option<Annotation>, leadingLines: seq<string>, body: seq<Node>)
      // `name: annotation`, a class-level annotated attribute
    | AnnAssign(target: string, annotation: string)
      // a blank or comment-only line kept as a statement of its own
    | EmptyLine(comment: string)
    | Newline
    | OtherStatement(text: string)

  /** The number of function definitions called `name` anywhere in `nodes`, nested ones included. */
  function CountFunctionDefs(nodes: seq<Node>, name: string): nat
    decreases nodes
  {
    if |nodes| == 0 then 0
    else CountFunctionDefs(nodes[..|nodes| - 1], name) + CountInNode(nodes[|nodes| - 1], name)
  }

  function CountInNode(n: Node, name: string): nat
    decreases n
  {
    match n
    case ClassDef(_, _, body) => CountFunctionDefs(body, name)
    case FunctionDef(f, _, _, _, body) => (if f == name then 1 else 0) + CountFunctionDefs(body, name)
    case _ => 0
  }

  lemma {:induction false} CountFunctionDefsAppend(a: seq<Node>, b: seq<Node>, name: string)
    ensures CountFunctionDefs(a + b, name) == CountFunctionDefs(a, name) + CountFunctionDefs(b, name)
    decreases |b|
  {
    if |b| > 0 {
      CountFunctionDefsAppend(a, b[..|b| - 1], name);
      assert (a + b)[..|a + b| - 1] == a + b[..|b| - 1];
    } else {
      assert a + b == a;
    }
  }

  /** No class definition occurs anywhere in `nodes`. */
  predicate NoClasses(nodes: seq<Node>)
    decreases nodes
  {
    forall i :: 0 <= i < |nodes| ==> NoClassIn(nodes[i])
  }

  /** A class-free list's front and last statement are class-free. */
  lemma NoClassesInit(ns: seq<Node>)
    requires |ns| > 0 && NoClasses(ns)
    ensures NoClasses(ns[..|ns| - 1]) && NoClassIn(ns[|ns| - 1])
  {
    var init := ns[..|ns| - 1];
    forall i | 0 <= i < |init| ensures NoClassIn(init[i]) {
      assert init[i] == ns[i];
    }
  }

  predicate NoClassIn(n: Node)
    decreases n
  {
    match n
    case ClassDef(_, _, _) => false
    case FunctionDef(_, _, _, _, body) => NoClasses(body)
    case _ => true
  }
}
