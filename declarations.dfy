/**
  The reading of one line of `rg Q_DECLARE_FLAGS` output over the Qt
  headers, as both QFlags inventory scripts do it: the line is split on `:`
  into a header path and a declaration statement, lines from the QFlags
  implementation header are skipped, and the QFlags class and its enum are
  read from between the parentheses of `Q_DECLARE_FLAGS(...)`.
*/
module QFlagDeclarations {
  import opened Wrappers
  import opened Text

  /** The header that implements QFlags itself; its grep lines are not declarations of a flag. */
  const QFlagSrc := "src\\corelib\\global\\qflags.h"

  const DeclareFlags := "Q_DECLARE_FLAGS"

  /** The characters stripped from both fields of a grep line. */
  const FieldBlanks: set<char> := {' ', '\t', '\n'}

  /** A flag declaration: the header it is in, the QFlags class and the enum class. */
  datatype Declaration = Declaration(fileName: string, qflagClass: string, enumClass: string)

  /**
    Reads one grep line. A line that does not split on `:` into exactly two
    fields raises `ValueError`; a line from the QFlags header gives nothing;
    otherwise the names come from the declaration statement.
  */
  function ParseDeclaration(line: string): (r: Result<Option<Declaration>>)
    ensures |Split(line, ':')| != 2 ==> r == Err(ValueError)
    ensures r.Ok? && r.value.None? ==> Strip(Split(line, ':')[0], FieldBlanks) == QFlagSrc
    ensures r.Ok? && r.value.Some? ==>
      && r.value.value.fileName != QFlagSrc
      && ',' !in r.value.value.qflagClass && ',' !in r.value.value.enumClass
  {
    var fields := Split(line, ':');
    if |fields| != 2 then Err(ValueError)
    else
      var qflagFname := Strip(fields[0], FieldBlanks);
      if qflagFname == QFlagSrc then Ok(None)
      else match DeclaredNames(Strip(fields[1], FieldBlanks))
        case Ok(names) => Ok(Some(Declaration(qflagFname, names.0, names.1)))
        case Err(e) => Err(e)
  }

  /**
    The QFlags class and enum named by a declaration statement: the
    statement must contain `Q_DECLARE_FLAGS` (an assertion), and the text
    between its first `(` and its first `)` must be two comma-separated
    names (`ValueError` otherwise).
  */
  function DeclaredNames(stmt: string): (r: Result<(string, string)>)
    ensures !Contains(stmt, DeclareFlags) ==> r == Err(AssertionError)
    ensures r.Ok? ==> ',' !in r.value.0 && ',' !in r.value.1
  {
    if !Contains(stmt, DeclareFlags) then Err(AssertionError)
    else match (IndexOf(stmt, '('), IndexOf(stmt, ')'))
      case (Some(open), Some(close)) => NamePair(Slice(stmt, open + 1, close))
      case _ => Err(ValueError)
  }

  /** Two comma-separated names, each stripped of spaces. */
  function NamePair(s: string): (r: Result<(string, string)>)
    ensures r.Ok? ==> ',' !in r.value.0 && ',' !in r.value.1
    ensures r.Err? <==> multiset(s)[','] != 1
  {
    var names := Split(s, ',');
    SplitCount(s, ',');
    if |names| != 2 then Err(ValueError)
    else
      StripKeepsBlock(names[0], {' '});
      StripKeepsBlock(names[1], {' '});
      BlockKeepsAbsence(names[0], Strip(names[0], {' '}), ',', |names[0]| - |StripLeft(names[0], {' '})|);
      BlockKeepsAbsence(names[1], Strip(names[1], {' '}), ',', |names[1]| - |StripLeft(names[1], {' '})|);
      Ok((Strip(names[0], {' '}), Strip(names[1], {' '})))
  }

  /** A character absent from a string is absent from every block of it. */
  lemma BlockKeepsAbsence(s: string, block: string, c: char, at: nat)
    requires OccursAt(s, block, at)
    requires c !in s
    ensures c !in block
  {
    forall j | 0 <= j < |block| ensures block[j] != c {
      assert block[j] == s[at + j];
    }
  }

  /** A name that strips to itself: empty, or neither starting nor ending with a stripped character. */
  predicate Trimmed(name: string, chars: set<char>) {
    |name| > 0 ==> name[0] !in chars && name[|name| - 1] !in chars
  }

  /** The declaration statement `Q_DECLARE_FLAGS(qflagClass, enumClass)`. */
  function Statement(qflagClass: string, enumClass: string): string {
    DeclareFlags + "(" + qflagClass + ", " + enumClass + ")"
  }

  /** The line `rg` prints for that statement in header `fileName`. */
  function GrepLine(fileName: string, qflagClass: string, enumClass: string): string {
    fileName + ": " + Statement(qflagClass, enumClass)
  }

  /** A name that can stand inside `Q_DECLARE_FLAGS(...)`: no separator or parenthesis in it, no surrounding space. */
  predicate PlainName(name: string) {
    ':' !in name && ',' !in name && '(' !in name && ')' !in name && Trimmed(name, {' '})
  }

  /** Reading back the grep line of a declaration gives that declaration. */
  lemma ParseGrepLineOfDeclaration(fileName: string, qflagClass: string, enumClass: string)
    requires ':' !in fileName && Trimmed(fileName, FieldBlanks) && fileName != QFlagSrc
    requires PlainName(qflagClass) && PlainName(enumClass)
    ensures ParseDeclaration(GrepLine(fileName, qflagClass, enumClass)) == Ok(Some(Declaration(fileName, qflagClass, enumClass)))
  {
    var stmt := Statement(qflagClass, enumClass);
    FieldsOfGrepLine(fileName, qflagClass, enumClass);
    StripTrimmed(fileName, FieldBlanks);
    StripStatement(qflagClass, enumClass);
    DeclaredNamesOfStatement(qflagClass, enumClass);
  }

  lemma StripTrimmed(s: string, chars: set<char>)
    requires Trimmed(s, chars)
    ensures Strip(s, chars) == s
  {
    assert StripLeft(s, chars) == s;
  }

  lemma StripStatement(qflagClass: string, enumClass: string)
    ensures Strip(" " + Statement(qflagClass, enumClass), FieldBlanks) == Statement(qflagClass, enumClass)
  {
    var stmt := Statement(qflagClass, enumClass);
    assert stmt[0] == 'Q' && stmt[|stmt| - 1] == ')';
    StripPadding(" ", stmt, "", FieldBlanks);
    assert " " + stmt + "" == " " + stmt;
  }

  lemma FieldsOfGrepLine(fileName: string, qflagClass: string, enumClass: string)
    requires ':' !in fileName && PlainName(qflagClass) && PlainName(enumClass)
    ensures Split(GrepLine(fileName, qflagClass, enumClass), ':') == [fileName, " " + Statement(qflagClass, enumClass)]
  {
    var rest := " " + Statement(qflagClass, enumClass);
    assert GrepLine(fileName, qflagClass, enumClass) == fileName + [':'] + rest;
    assert ':' !in DeclareFlags;
    assert ':' !in rest;
    SplitAfterPiece(fileName, ':', rest);
    SplitNoSep(rest, ':');
  }

  lemma DeclaredNamesOfStatement(qflagClass: string, enumClass: string)
    requires PlainName(qflagClass) && PlainName(enumClass)
    ensures DeclaredNames(Statement(qflagClass, enumClass)) == Ok((qflagClass, enumClass))
  {
    var stmt := Statement(qflagClass, enumClass);
    var inner := qflagClass + ", " + enumClass;
    StatementDeclares(qflagClass, enumClass);
    ParenthesesOfStatement(qflagClass, enumClass);
    assert Slice(stmt, |DeclareFlags| + 1, |stmt| - 1) == inner;
    NamesOfInner(qflagClass, enumClass);
  }

  lemma StatementDeclares(qflagClass: string, enumClass: string)
    ensures Contains(Statement(qflagClass, enumClass), DeclareFlags)
  {
    assert Statement(qflagClass, enumClass)[..|DeclareFlags|] == DeclareFlags;
  }

  lemma ParenthesesOfStatement(qflagClass: string, enumClass: string)
    requires PlainName(qflagClass) && PlainName(enumClass)
    ensures IndexOf(Statement(qflagClass, enumClass), '(') == Some(|DeclareFlags|)
    ensures IndexOf(Statement(qflagClass, enumClass), ')') == Some(|Statement(qflagClass, enumClass)| - 1)
  {
    var stmt := Statement(qflagClass, enumClass);
    assert stmt[..|DeclareFlags|] == DeclareFlags;
    assert '(' !in DeclareFlags;
    IndexOfFirst(stmt, '(', |DeclareFlags|);
    assert stmt[..|stmt| - 1] == DeclareFlags + "(" + qflagClass + ", " + enumClass;
    assert ')' !in DeclareFlags;
    IndexOfFirst(stmt, ')', |stmt| - 1);
  }

  lemma NamesOfInner(qflagClass: string, enumClass: string)
    requires PlainName(qflagClass) && PlainName(enumClass)
    ensures NamePair(qflagClass + ", " + enumClass) == Ok((qflagClass, enumClass))
  {
    SplitInner(qflagClass, enumClass);
    NamePairOf(qflagClass + ", " + enumClass, qflagClass, " " + enumClass);
    StripTrimmed(qflagClass, {' '});
    StripLeadingSpace(enumClass);
  }

  lemma SplitInner(qflagClass: string, enumClass: string)
    requires ',' !in qflagClass && ',' !in enumClass
    ensures Split(qflagClass + ", " + enumClass, ',') == [qflagClass, " " + enumClass]
  {
    var tail := " " + enumClass;
    assert qflagClass + [','] + tail == qflagClass + ", " + enumClass;
    SplitAfterPiece(qflagClass, ',', tail);
    SplitNoSep(tail, ',');
  }

  lemma StripLeadingSpace(name: string)
    requires Trimmed(name, {' '})
    ensures Strip(" " + name, {' '}) == name
  {
    StripPadding(" ", name, "", {' '});
    assert " " + name + "" == " " + name;
  }

  lemma NamePairOf(s: string, a: string, b: string)
    requires Split(s, ',') == [a, b]
    ensures NamePair(s) == Ok((Strip(a, {' '}), Strip(b, {' '})))
  {
  }

  /** Splitting `a:b` where neither side has a colon gives the two sides. */
  lemma SplitFields(a: string, b: string)
    requires ':' !in a && ':' !in b
    ensures Split(a + ":" + b, ':') == [a, b]
  {
    assert a + ":" + b == a + [':'] + b;
    SplitAfterPiece(a, ':', b);
    SplitNoSep(b, ':');
  }

  /** Every line of the QFlags header is skipped, whatever declaration text follows. */
  lemma QFlagSrcLineSkipped(stmt: string)
    requires ':' !in stmt
    ensures ParseDeclaration(QFlagSrc + ":" + stmt) == Ok(None)
  {
    var src := QFlagSrc;
    assert ':' !in src;
    SplitFields(src, stmt);
    assert Trimmed(src, FieldBlanks);
    StripTrimmed(src, FieldBlanks);
  }

  /** A declaration statement without the macro name fails the assertion. */
  lemma MissingMacroFails(fileName: string, stmt: string)
    requires ':' !in fileName && Trimmed(fileName, FieldBlanks) && fileName != QFlagSrc
    requires ':' !in stmt && !Contains(stmt, DeclareFlags) && Trimmed(stmt, FieldBlanks)
    ensures ParseDeclaration(fileName + ":" + stmt) == Err(AssertionError)
  {
    SplitFields(fileName, stmt);
    StripTrimmed(fileName, FieldBlanks);
    StripTrimmed(stmt, FieldBlanks);
  }

  /** A line with a second colon, such as one whose path has a drive letter, raises `ValueError`. */
  lemma SecondColonFails(a: string, b: string, c: string)
    ensures ParseDeclaration(a + ":" + b + ":" + c) == Err(ValueError)
  {
    var line := a + ":" + b + ":" + c;
    SplitCount(line, ':');
    assert multiset(line)[':'] == multiset(a)[':'] + 1 + multiset(b)[':'] + 1 + multiset(c)[':'] by {
      assert multiset(line) == multiset(a) + multiset(":") + multiset(b) + multiset(":") + multiset(c);
    }
  }
}
