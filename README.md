# PyQt5-stubs maintenance scripts, modelled in Dafny

PyQt5-stubs ships type stubs (`.pyi` files) for PyQt5. A handful of Python
scripts keep those stubs correct; this project models their logic and
proves what they promise.

- **Stub rewriting passes.** Each pass walks a stub module depth first, the
  way libcst does: a visit hook on entry, the children in order, then a
  leave hook on exit. The model keeps this order.
  - `TransformToIntEnumInheritance` (`IntEnumFix`) turns `class C(int)`
    into `class C(IntEnum)` for one nested class path.
  - The fixer's entry point reads the stub checker's report into a set of
    (stub, class path) fixes.
  - `flags_fixer.TypingTransformer` (`FlagsFixer`) appends the missing
    `__and__`/`__iand__`/`__or__`/`__ior__`/`__xor__`/`__ixor__` stubs to
    flag-container classes.
  - `signal_fixer.TypingTransformer` (`SignalFixer`) turns signal methods of
    top-level classes into `ClassVar` annotations and removes their later
    overloads.
  - The `QFlagFinder` visitor (`QFlagStubsHelper`) finds a class by name.
    It records the class's dotted path and classifies its `__or__`/`__ror__`
    operators.
  - Each transformer or visitor is a Dafny class whose fields are the
    script's fields. Its hook methods update those fields. Its recursive
    `Walk` method is proved equal to a pure function of the fields and the
    tree, and the lemmas are stated on that function.
- **QFlags inventory.** Two scripts build it:
  `generate_qflags_stubs_and_tests.py` (`QFlagsGenerator`) and
  `adjust_qflags.py` (`AdjustQFlags`).
  - Both read `rg Q_DECLARE_FLAGS` lines (`QFlagDeclarations`).
  - Both look for the classes in the module stubs by substring search.
  - They group the results by module count. The first script plans what
    to process and processes the head of the queue. The second tallies
    entries per module and class, and sorts each group.
  - Three scripts, `generate_qflags_tests.py` (`GenerateQFlagsTests`)
    included, cut a test template into three parts at marker lines. They
    then write test files made of part 1, a header and part 3
    (`QFlagTemplate`).
  - `adjust_qflags.py:122-173` is a copy of
    `generate_qflags_stubs_and_tests.py:234-285`, so one model serves both.
- **Operator result kinds.** The generated QFlags tests assert which kind a
  flag operation returns (`QFlagOps`): an int, a one-flag value or a
  multi-flag value, or a `TypeError`.
  - Each test file is one configuration of that table.
  - The RubberBand and ToolBarFeature files are modelled as lemmas about
    it.

Supporting modules:

- `Wrappers`: `Option`, `Result` and the Python exceptions raised.
- `Text`: Python's `str` operations on `seq<char>`: `in`, `count`,
  `split`, `join`, `strip`, `index` and slicing.
- `StubTree`: the abstract syntax tree of a stub module.
- `PyOrder`: Python's `<` on strings and on lists of strings.

Where the code and its documentation differ, the model follows the code:

- The `QFlag not found` loop of `extract_qflags_to_process` is nested
  inside the many-modules loop (see Findings).
- `adjust_qflags.py` splits the unstripped grep line.
- The missing-methods list of `flags_fixer.py` is shared by nested classes.
- `signal_fixer.py` returns the original node of a method, not the updated
  one.

## Model

| member | source | states |
|---|---|---|
| IntEnumFix.FixBasesSpec | fix_stubtest_error_for__new__.py:674-686 | only a lone `int` base becomes `IntEnum`; zero, several or other bases are kept; the rewrite is idempotent |
| IntEnumFix.TransformTarget | fix_stubtest_error_for__new__.py:679-684 | the target class based on `int` is rebased on `IntEnum` with its name kept and its body walked |
| IntEnumFix.TransformUnreachable | fix_stubtest_error_for__new__.py:663-672 | where the name stack cannot become the target path, the walk returns the tree unchanged |
| IntEnumFix.TransformAllUnreachable | fix_stubtest_error_for__new__.py:663-672 | the same for a statement list |
| IntEnumFix.TransformIdempotent | fix_stubtest_error_for__new__.py:674-677 | a second run of the transformer changes nothing |
| IntEnumFix.TransformAllIdempotent | fix_stubtest_error_for__new__.py:674-677 | the same for a statement list |
| IntEnumFix.TransformCommutes | fix_stubtest_error_for__new__.py:719-720 | fixes for two class paths commute |
| IntEnumFix.TransformAllCommutes | fix_stubtest_error_for__new__.py:719-720 | the same for a statement list |
| IntEnumFix.TransformOnlyChangesBases | fix_stubtest_error_for__new__.py:679-686 | the walk changes base lists only; names, parameters and bodies are kept |
| IntEnumFix.TransformAllOnlyChangesBases | fix_stubtest_error_for__new__.py:679-686 | the same for a statement list |
| IntEnumFix.TransformAll | fix_stubtest_error_for__new__.py:663-686 | the walk keeps the number of statements |
| IntEnumFix.EraseBasesAll | fix_stubtest_error_for__new__.py:663-686 | erasing bases keeps the number of statements |
| IntEnumFix.TransformToIntEnumInheritance.constructor | fix_stubtest_error_for__new__.py:654-657 | empty name stack; target is the dot-split class path |
| IntEnumFix.TransformToIntEnumInheritance.VisitClassDef | fix_stubtest_error_for__new__.py:659-661 | pushes the class name |
| IntEnumFix.TransformToIntEnumInheritance.LeaveClassDef | fix_stubtest_error_for__new__.py:663-686 | pops the stack; rewrites the bases exactly when the stack before popping equals the target |
| IntEnumFix.TransformToIntEnumInheritance.Walk | fix_stubtest_error_for__new__.py:659-686 | the depth-first walk restores the stack and returns `Transform` of the node |
| IntEnumFix.TransformToIntEnumInheritance.WalkAll | fix_stubtest_error_for__new__.py:659-686 | the walk of a statement list restores the stack and returns `TransformAll` |
| IntEnumFix.FixStubClassInheritanceToIntEnum | fix_stubtest_error_for__new__.py:691-705 | a fresh transformer rewrites the parsed stub as `TransformAll` from the empty stack |
| IntEnumFix.SplitAtSeparator | fix_stubtest_error_for__new__.py:714 | a line holding a space splits into at least two tokens, so `split(' ')[1]` exists |
| IntEnumFix.ParseErrorLineOfErrorLine | fix_stubtest_error_for__new__.py:711-717 | every `error: P.M.C1...Cn.__new__ is inconsistent,` line yields the fix (`PyQt5-stubs/M.pyi`, `C1...Cn`) |
| IntEnumFix.TokenPieces | fix_stubtest_error_for__new__.py:714-716 | the checker's dotted token splits into package, module, class names and `__new__`, and holds no space |
| IntEnumFix.ErrorLineShape | fix_stubtest_error_for__new__.py:712-714 | an error line starts with `error: ` and its second space-separated token is the class token |
| IntEnumFix.ErrorLineContains | fix_stubtest_error_for__new__.py:713 | an error line contains `__new__ is inconsistent,` |
| IntEnumFix.ClassTokenSpelled | fix_stubtest_error_for__new__.py:716 | the class token is the names joined with dots |
| IntEnumFix.FixesOfMembers | fix_stubtest_error_for__new__.py:709-717 | the collected set holds exactly the fixes of the individual lines |
| IntEnumFix.CollectFixes | fix_stubtest_error_for__new__.py:709-717 | the loop over the report's lines computes `FixesOf` of the split report |
| IntEnumFix.FixesOfErrPersists | fix_stubtest_error_for__new__.py:711-717 | once a line raises, the whole loop has raised with that exception |
| IntEnumFix.ApplyFixesSpecFrame | fix_stubtest_error_for__new__.py:719-720 | the run fails exactly when some fix names a missing stub, and then with `FileNotFoundError`; failed or not, it keeps the set of stubs and leaves unnamed stubs untouched |
| IntEnumFix.ApplyFixCommutes | fix_stubtest_error_for__new__.py:719-720 | two fixes give the same run, stubs written and exception alike, in either order unless exactly one of them names a missing stub |
| IntEnumFix.ApplyFixesSwap | fix_stubtest_error_for__new__.py:719 | swapping two neighbouring fixes leaves the run unchanged unless exactly one names a missing stub, so the set's iteration order is harmless when every stub exists |
| IntEnumFix.ApplyFixesOrderMatters | fix_stubtest_error_for__new__.py:698-720 | with one fix on a missing stub and one on an existing stub, the existing stub is rewritten before the failure exactly when its fix is listed first; the two orders differ exactly when that rewrite changes it |
| IntEnumFix.ApplyFixPairCommutes | fix_stubtest_error_for__new__.py:719-720 | two fixes of existing stubs give the same stub files in either order |
| IntEnumFix.ApplyFixesSameTail | fix_stubtest_error_for__new__.py:719-720 | runs that agree after a common prefix agree after any common continuation |
| IntEnumFix.ApplyFixes | fix_stubtest_error_for__new__.py:719-720 | the fixing loop computes `ApplyFixesSpec`, including the stubs already rewritten when a later stub is missing |
| IntEnumFix.ApplyFixesErrPersists | fix_stubtest_error_for__new__.py:719-720 | once a fix fails, later fixes change neither the stubs written nor the exception |
| IntEnumFix.FixesOfRepeated | fix_stubtest_error_for__new__.py:709 | lines that all ask for the same fix collect that one fix |
| IntEnumFix.SampleLine | fix_stubtest_error_for__new__.py:714-716 | a `QBluetoothDeviceInfo.Field` line asks to fix `PyQt5-stubs/QtBluetooth.pyi` |
| IntEnumFix.SampleReport | fix_stubtest_error_for__new__.py:709-717 | the four report lines about `QBluetoothDeviceInfo.Field` give a single fix |
| FlagsFixer.Unquoted | flags_fixer.py:49-52 | each string literal of the annotation with its single quotes stripped, one per element |
| FlagsFixer.GetFlagConstructorFlagTypeSpec | flags_fixer.py:34-56 | a flag type is found exactly for two parameters, the last `f` annotated with a subscript of two string literals, the first ending in `.` plus the class name; it is the stripped pair |
| FlagsFixer.FlagConstructorRoundTrip | flags_fixer.py:22-56 | the constructor annotated `typing.Union['<container>', '<flag>']` reveals exactly that pair |
| FlagsFixer.StripQuoted | flags_fixer.py:50 | stripping the quotes of a quoted name gives the name |
| FlagsFixer.GetFlagOfShape | flags_fixer.py:49-56 | a constructor of the right shape gives the two stripped literals |
| FlagsFixer.MethodStubs | flags_fixer.py:134-144 | one rendered method stub per missing name |
| FlagsFixer.MethodStubsShape | flags_fixer.py:7-11 | the stub for each missing name takes `self` and `other: typing.Union['<container>', '<flag>']`, returns the container class as a quoted forward reference, and has `...` as its body |
| FlagsFixer.RemoveFirst | flags_fixer.py:99-100 | `list.remove` drops one occurrence of a present name and nothing else |
| FlagsFixer.WithoutMembers | flags_fixer.py:99-100 | a name is still missing exactly when it was listed and has not been defined |
| FlagsFixer.LeaveFunction | flags_fixer.py:79-107 | leaving a function does not touch the class stack |
| FlagsFixer.LeaveClass | flags_fixer.py:109-151 | leaving a class pops the stack |
| FlagsFixer.WalkNode | flags_fixer.py:69-151 | a walk restores the class stack |
| FlagsFixer.WalkNodes | flags_fixer.py:69-151 | a walk of a statement list restores the stack and keeps the number of statements |
| FlagsFixer.MethodsToAddDistinct | flags_fixer.py:12-19 | the six operator names are distinct |
| FlagsFixer.StillMissingWithout | flags_fixer.py:99-100 | removing a defined name from the filtered list filters by one more name |
| FlagsFixer.RemoveFirstWithout | flags_fixer.py:99-100 | `remove` on a list without duplicates filters the name out |
| FlagsFixer.FilterInWithout | flags_fixer.py:142-143 | the comprehension over `METHODS_TO_ADD` yields the missing methods in `METHODS_TO_ADD` order |
| FlagsFixer.FilterInAgrees | flags_fixer.py:142-143 | the comprehension depends only on which names are members |
| FlagsFixer.WalkNodeNoClasses | flags_fixer.py:79-107 | walking a method body without classes leaves it unchanged, removes the defined names from the missing list and records the last revealed flag type |
| FlagsFixer.WalkFunctionNoClasses | flags_fixer.py:79-107 | the same for one function definition |
| FlagsFixer.WalkNodesNoClasses | flags_fixer.py:79-107 | the same for a statement list |
| FlagsFixer.ClassFix | flags_fixer.py:69-151 | a class without nested classes gets exactly `Additions` appended; afterwards the flag type is cleared and the missing list holds what the class lacked |
| FlagsFixer.LeaveClassAdditions | flags_fixer.py:122-151 | leaving such a class appends a newline and the stubs of the missing methods when a flag type was revealed and some are missing, else nothing |
| FlagsFixer.MethodStubsHaveNoClasses | flags_fixer.py:134-144 | added stubs contain no class |
| FlagsFixer.MethodStubsDefine | flags_fixer.py:134-144 | the stubs define exactly the methods they are made for |
| FlagsFixer.ClassFixIdempotent | flags_fixer.py:122 | running the fixer again on a fixed class without nested classes changes nothing |
| FlagsFixer.AdditionsComplete | flags_fixer.py:122 | once the additions are appended, the class needs none |
| FlagsFixer.StubsComplete | flags_fixer.py:129-147 | the body with the stubs appended defines every operator |
| FlagsFixer.WithoutAll | flags_fixer.py:99-100 | when every name is defined, nothing is missing |
| FlagsFixer.NoClassesAppend | flags_fixer.py:129-147 | appending class-free statements to a class-free body keeps it class-free |
| FlagsFixer.DefinedNamesAppend | flags_fixer.py:129-147 | the names defined by a concatenation are those of its parts |
| FlagsFixer.WalkNodeAgree | flags_fixer.py:69-151 | the walk reads its fields only through the flag type, the missing list and the innermost class |
| FlagsFixer.WalkClassAgree | flags_fixer.py:69-151 | the same for a class node |
| FlagsFixer.WalkFunctionAgree | flags_fixer.py:79-107 | the same for a function node |
| FlagsFixer.LeaveFunctionAgree | flags_fixer.py:79-107 | the leave hook preserves that agreement |
| FlagsFixer.WalkNodesAgree | flags_fixer.py:69-151 | the same for a statement list |
| FlagsFixer.ClassIndependentOfState | flags_fixer.py:73-76 | since entering a class resets its state, how a class is rewritten does not depend on what was walked before it |
| FlagsFixer.OutsideClassesUnchanged | flags_fixer.py:93-94 | outside any class, code without classes and the fields are left unchanged |
| FlagsFixer.OutsideClassesUnchangedAll | flags_fixer.py:93-94 | the same for a statement list |
| FlagsFixer.NestedClassLeaksMissingList | flags_fixer.py:73-76 | a nested class that defines `__and__` removes it from its container's missing list, so the container gets only the five other stubs |
| FlagsFixer.OuterBodyWalk | flags_fixer.py:73-105 | walking that container's body reveals the flag type and leaves `__and__` and `__init__` out of the missing list |
| FlagsFixer.LeaveFlagsContainer | flags_fixer.py:122-151 | leaving that container appends a newline and the five stubs |
| FlagsFixer.SingleMethodBody | flags_fixer.py:96-105 | a one-method body defines that method and, unless it is `__init__`, reveals no flag type |
| FlagsFixer.AndOnlyClassStep | flags_fixer.py:73-105 | walking a class holding only `__and__` clears the flag type and removes `__and__` from the missing list |
| FlagsFixer.FlagsInitStep | flags_fixer.py:102-105 | walking the container's `__init__` records the flag type |
| FlagsFixer.TypingTransformer.constructor | flags_fixer.py:62-67 | empty stack, no flag type, nothing missing |
| FlagsFixer.TypingTransformer.VisitClassDef | flags_fixer.py:69-77 | pushes the class, clears the flag type and resets the missing list to all six operators |
| FlagsFixer.TypingTransformer.LeaveFunctionDef | flags_fixer.py:79-107 | returns the updated node; the fields become `LeaveFunction` of the old fields |
| FlagsFixer.TypingTransformer.LeaveClassDef | flags_fixer.py:109-151 | node and fields become `LeaveClass` of the old fields |
| FlagsFixer.TypingTransformer.Walk | flags_fixer.py:69-151 | the depth-first walk computes `WalkNode` of the fields and the node |
| FlagsFixer.TypingTransformer.WalkAll | flags_fixer.py:69-151 | the walk of a statement list computes `WalkNodes` |
| FlagsFixer.FixStub | flags_fixer.py:168-173 | a fresh transformer rewrites a stub as `WalkNodes` from the initial fields |
| FlagsFixer.FixStubDirectory | flags_fixer.py:158-173 | every stub except `QtWebKit*`, `QtX11Extras.pyi`, `sip.pyi` and `__init__.pyi` is fixed on its own; the skipped ones are kept |
| SignalFixer.IsSignal | signal_fixer.py:12-20 | an unknown class raises `AttributeError`; otherwise true exactly for a `pyqtSignal` attribute, false for a missing attribute |
| SignalFixer.LeadingCopies | signal_fixer.py:66-68 | one copied blank or comment line per leading line |
| SignalFixer.WalkNode | signal_fixer.py:32-84 | a successful walk restores the class stack |
| SignalFixer.WalkNodes | signal_fixer.py:32-84 | the same for a statement list |
| SignalFixer.LeaveFunctionOutsideTopLevel | signal_fixer.py:45-48 | a function outside any class or in a nested class is returned unchanged and changes nothing |
| SignalFixer.LeaveFunctionNotSignal | signal_fixer.py:51-73 | a method that is not a signal is returned unchanged |
| SignalFixer.LeaveFunctionFirstSignal | signal_fixer.py:52-72 | the first occurrence of a signal becomes copies of its leading lines, then its `ClassVar` annotation, and is recorded |
| SignalFixer.LeaveFunctionOverload | signal_fixer.py:52-57 | a later overload of a recorded signal is removed |
| SignalFixer.DeepNodeUnchanged | signal_fixer.py:47-48 | below the first class level nothing is rewritten or recorded |
| SignalFixer.DeepNodesUnchanged | signal_fixer.py:47-48 | the same for a statement list |
| SignalFixer.NestedClassUnchanged | signal_fixer.py:47-48 | a class nested in a top-level class is kept with its methods |
| SignalFixer.OutsideClassesUnchanged | signal_fixer.py:45-46 | outside any class, code without classes is kept and changes nothing |
| SignalFixer.OutsideClassesUnchangedAll | signal_fixer.py:45-46 | the same for a statement list |
| SignalFixer.LeaveFunctionRecords | signal_fixer.py:53-58 | recording a signal appends only a name not yet recorded |
| SignalFixer.WalkNodeRecords | signal_fixer.py:53-58 | the recorded signals stay free of duplicates and only grow |
| SignalFixer.WalkNodesRecords | signal_fixer.py:53-58 | the same for a statement list |
| SignalFixer.OverloadedSignalAnnotatedOnce | signal_fixer.py:52-60 | a class with two overloads of one signal ends with a single annotation |
| SignalFixer.FlatBodySignals | signal_fixer.py:32-85 | for every body of a top-level class without nested classes or nested functions, and every name: the walk succeeds; a signal keeps no method and gains exactly one annotation unless it was already recorded, while any other name keeps all its methods; the signal is recorded exactly when it was before or the body declares it |
| SignalFixer.FlatStep | signal_fixer.py:37-73 | one member of such a body: a non-signal method or any other statement is kept; the first method of a signal becomes one annotation and is recorded; a later one leaves nothing |
| SignalFixer.FullNameInjective | signal_fixer.py:52 | within one class, the recorded `Class.method` key determines the method |
| SignalFixer.FirstOverload | signal_fixer.py:58-60 | the first overload becomes the annotation and is recorded |
| SignalFixer.LaterOverload | signal_fixer.py:53-57 | the second overload is removed |
| SignalFixer.TypingTransformer.constructor | signal_fixer.py:26-30 | empty stack and record; the runtime module is a parameter |
| SignalFixer.TypingTransformer.VisitClassDef | signal_fixer.py:32-35 | pushes the class |
| SignalFixer.TypingTransformer.LeaveFunctionDef | signal_fixer.py:37-73 | outcome and fields are `LeaveFunction` of the old fields |
| SignalFixer.TypingTransformer.LeaveClassDef | signal_fixer.py:75-84 | pops the class and returns the updated node |
| SignalFixer.TypingTransformer.Walk | signal_fixer.py:32-84 | the depth-first walk computes `WalkNode` |
| SignalFixer.TypingTransformer.WalkAll | signal_fixer.py:32-84 | the walk of a statement list computes `WalkNodes` |
| SignalFixer.WalkErrPersists | signal_fixer.py:14-19 | an exception raised on a prefix of the statements ends the walk with it |
| SignalFixer.FixStub | signal_fixer.py:98-101 | a fresh transformer rewrites a stub as `WalkNodes` from the empty fields |
| QFlagStubsHelper.Classify | tests/qflags/qflag_stubs_helper.py:105-109 | 0 definitions give Not, 1 Partial, 2 All, more a `KeyError` |
| QFlagStubsHelper.CheckMethodPresent | tests/qflags/qflag_stubs_helper.py:101-117 | classification keeps the name stack and the recorded path |
| QFlagStubsHelper.CheckMethodPresentSpec | tests/qflags/qflag_stubs_helper.py:101-117 | classification counts `__or__` and `__ror__` anywhere in the class; Partial appends exactly one message naming the class, the present and the absent operator |
| QFlagStubsHelper.VisitClass | tests/qflags/qflag_stubs_helper.py:89-99 | visiting a class pushes its name |
| QFlagStubsHelper.WalkNode | tests/qflags/qflag_stubs_helper.py:89-127 | a successful walk restores the name stack |
| QFlagStubsHelper.WalkNodes | tests/qflags/qflag_stubs_helper.py:89-127 | the same for a statement list |
| QFlagStubsHelper.NoTargetUnchanged | tests/qflags/qflag_stubs_helper.py:89-99 | code without the class looked for leaves every field unchanged |
| QFlagStubsHelper.NoTargetUnchangedAll | tests/qflags/qflag_stubs_helper.py:89-99 | the same for a statement list |
| QFlagStubsHelper.FindClass | tests/qflags/qflag_stubs_helper.py:91-98 | the class looked for records its dotted path from the outermost name, its node and its classification |
| QFlagStubsHelper.SecondMatchRaises | tests/qflags/qflag_stubs_helper.py:93-94 | meeting the class again once a path is recorded raises `ValueError` |
| QFlagStubsHelper.TwoMatchesRaise | tests/qflags/qflag_stubs_helper.py:93-94 | two classes of that name in a row raise `ValueError` |
| QFlagStubsHelper.FindInOuter | tests/qflags/qflag_stubs_helper.py:89-98 | the class found inside a top-level class, before or after a sibling, has the path `outer.target` |
| QFlagStubsHelper.TestFindTiti | tests/qflags/qflag_stubs_helper.py:151-153 | the unit test's lookup of `Titi` finds `Toto.Titi`, which defines neither operator |
| QFlagStubsHelper.TestFindQFlagExample | tests/qflags/qflag_stubs_helper.py:157-159 | the lookup of `QFlagExample` finds `Toto.QFlagExample`, which defines both |
| QFlagStubsHelper.QFlagFinder.constructor | tests/qflags/qflag_stubs_helper.py:67-86 | empty stack, no path, no node, Unset, empty message |
| QFlagStubsHelper.QFlagFinder.VisitClassDef | tests/qflags/qflag_stubs_helper.py:89-99 | outcome and fields are `VisitClass` of the old fields |
| QFlagStubsHelper.QFlagFinder.CheckMethodPresentOf | tests/qflags/qflag_stubs_helper.py:101-117 | outcome and fields are `CheckMethodPresent` of the old fields |
| QFlagStubsHelper.QFlagFinder.VisitFunctionDef | tests/qflags/qflag_stubs_helper.py:119-121 | pushes the function name |
| QFlagStubsHelper.QFlagFinder.Leave | tests/qflags/qflag_stubs_helper.py:123-127 | pops the stack |
| QFlagStubsHelper.QFlagFinder.Walk | tests/qflags/qflag_stubs_helper.py:89-127 | the depth-first walk computes `WalkNode` |
| QFlagStubsHelper.QFlagFinder.WalkAll | tests/qflags/qflag_stubs_helper.py:89-127 | the walk of a statement list computes `WalkNodes` |
| QFlagStubsHelper.WalkErrPersists | tests/qflags/qflag_stubs_helper.py:93-94 | an exception raised on a prefix ends the walk with it |
| QFlagStubsHelper.FindEnumClass | tests/qflags/qflag_stubs_helper.py:151-152 | a fresh visitor over a module gives `WalkNodes` from the initial fields |
| QFlagDeclarations.ParseDeclaration | tests/qflags/generate_qflags_stubs_and_tests.py:78-86 | a line not splitting into two fields raises `ValueError`; `QFLAG_SRC` lines are skipped; a record carries the stripped header path |
| QFlagDeclarations.DeclaredNames | tests/qflags/generate_qflags_stubs_and_tests.py:82-84 | a statement without `Q_DECLARE_FLAGS` fails the assertion; the names hold no comma |
| QFlagDeclarations.NamePair | tests/qflags/generate_qflags_stubs_and_tests.py:84 | unpacking fails exactly unless there is one comma |
| QFlagDeclarations.ParseGrepLineOfDeclaration | tests/qflags/generate_qflags_stubs_and_tests.py:78-86 | reading back the grep line of a declaration gives that declaration |
| QFlagDeclarations.FieldsOfGrepLine | tests/qflags/generate_qflags_stubs_and_tests.py:78 | a grep line splits on `:` into the path and the statement |
| QFlagDeclarations.DeclaredNamesOfStatement | tests/qflags/generate_qflags_stubs_and_tests.py:82-84 | `Q_DECLARE_FLAGS(A, B)` yields `(A, B)` |
| QFlagDeclarations.ParenthesesOfStatement | tests/qflags/generate_qflags_stubs_and_tests.py:83 | `index('(')` and `index(')')` find the macro's parentheses |
| QFlagDeclarations.NamesOfInner | tests/qflags/generate_qflags_stubs_and_tests.py:84 | `A, B` splits and strips to `(A, B)` |
| QFlagDeclarations.QFlagSrcLineSkipped | tests/qflags/generate_qflags_stubs_and_tests.py:79-81 | every line of the QFlags header is skipped |
| QFlagDeclarations.MissingMacroFails | tests/qflags/generate_qflags_stubs_and_tests.py:82 | a statement without the macro name fails the assertion |
| QFlagDeclarations.SecondColonFails | tests/qflags/generate_qflags_stubs_and_tests.py:78 | a line with a second colon, such as a drive letter, raises `ValueError` |
| QFlagsGenerator.ParseGrepLine | tests/qflags/generate_qflags_stubs_and_tests.py:75-87 | blank lines give nothing; a record keeps the stripped line and has no module |
| QFlagsGenerator.ParseGrepLines | tests/qflags/generate_qflags_stubs_and_tests.py:72-87 | at most one record per line, none with a module |
| QFlagsGenerator.ParseErrPersists | tests/qflags/generate_qflags_stubs_and_tests.py:82-84 | a failing prefix makes the whole reading fail with that exception |
| QFlagsGenerator.ParseGrepLinesOfDeclarations | tests/qflags/generate_qflags_stubs_and_tests.py:72-87 | reading the grep lines of well-formed declarations gives one record per declaration, in order |
| QFlagsGenerator.ParseGrepLineOfRecord | tests/qflags/generate_qflags_stubs_and_tests.py:75-87 | the grep line of a well-formed declaration reads back as its record |
| QFlagsGenerator.GrepLineTrimmed | tests/qflags/generate_qflags_stubs_and_tests.py:75 | such a grep line is already stripped |
| QFlagsGenerator.LoadModules | tests/qflags/generate_qflags_stubs_and_tests.py:90-91 | loading succeeds exactly when every stub exists, otherwise raises `FileNotFoundError`; each module gets its own stub text |
| QFlagsGenerator.CopiesBounds | tests/qflags/generate_qflags_stubs_and_tests.py:98-109 | a module is listed exactly when both declarations occur, and never more often than either occurs |
| QFlagsGenerator.Repeat | tests/qflags/generate_qflags_stubs_and_tests.py:107-109 | the extra copies are copies of one module |
| QFlagsGenerator.MatchesMultiplicity | tests/qflags/generate_qflags_stubs_and_tests.py:96-109 | each module appears `Copies` times in a record's list and nothing else appears |
| QFlagsGenerator.MatchesEmpty | tests/qflags/generate_qflags_stubs_and_tests.py:96-98 | a record is found nowhere exactly when no stub declares both of its classes |
| QFlagsGenerator.LocateAll | tests/qflags/generate_qflags_stubs_and_tests.py:93-109 | one located record per parsed record |
| QFlagsGenerator.IdentifyRecords | tests/qflags/generate_qflags_stubs_and_tests.py:59-111 | each identified record keeps its grep line and classes and lists exactly the modules declaring them |
| QFlagsGenerator.IdentifyQFlagLocation | tests/qflags/generate_qflags_stubs_and_tests.py:59-111 | the function's loops compute `Identify` |
| QFlagsGenerator.ReadGrepResult | tests/qflags/generate_qflags_stubs_and_tests.py:72-87 | the reading loop computes `ParseGrepLines` |
| QFlagsGenerator.LocateQFlags | tests/qflags/generate_qflags_stubs_and_tests.py:93-109 | the matching loops compute `LocateAll` |
| QFlagsGenerator.ModulesDeclaring | tests/qflags/generate_qflags_stubs_and_tests.py:96-109 | the inner loop appends `Matches` to the record's modules |
| QFlagsGenerator.Select | tests/qflags/generate_qflags_stubs_and_tests.py:123-136 | a group is no longer than the input |
| QFlagsGenerator.SelectMembers | tests/qflags/generate_qflags_stubs_and_tests.py:123-136 | a record is in a group exactly when it is in the input with that group's module count |
| QFlagsGenerator.SelectAppend | tests/qflags/generate_qflags_stubs_and_tests.py:123-136 | grouping keeps input order |
| QFlagsGenerator.GroupPartition | tests/qflags/generate_qflags_stubs_and_tests.py:123-136 | the three groups together hold each record exactly as often as the input |
| QFlagsGenerator.SkipsFor | tests/qflags/generate_qflags_stubs_and_tests.py:157-173 | one skip per record |
| QFlagsGenerator.AsWrittenSkips | tests/qflags/generate_qflags_stubs_and_tests.py:157-173 | with the nesting as written there are `many * (1 + notFound)` skips |
| QFlagsGenerator.ExtractQFlagsToProcessAsWritten | tests/qflags/generate_qflags_stubs_and_tests.py:151-176 | the plan as written: the single-module records, and `AsWrittenSkips` |
| QFlagsGenerator.ExtractQFlagsToProcess | tests/qflags/generate_qflags_stubs_and_tests.py:151-176 | corrected plan: process the single-module group unchanged; skip each many-modules record, then each not-found record, once and with its reason; the result is `IntendedPlan`, which accounts for every record exactly once |
| QFlagsGenerator.IntendedPlanAccountsForAll | tests/qflags/generate_qflags_stubs_and_tests.py:143-147 | with the corrected plan every record is processed or skipped exactly once |
| QFlagsGenerator.AsWrittenLosesNotFound | tests/qflags/generate_qflags_stubs_and_tests.py:157-173 | as written, an inventory whose only record was found nowhere gets no skip |
| QFlagsGenerator.AsWrittenRepeatsNotFound | tests/qflags/generate_qflags_stubs_and_tests.py:157-173 | as written, two many-modules records report a not-found record twice |
| QFlagsGenerator.ProcessQFlag | tests/qflags/generate_qflags_stubs_and_tests.py:200-231 | done exactly for an empty queue; `IndexError` without a module, `FileNotFoundError` without its stub, an assertion unless each class is declared once, else not done; the empty result lists are written exactly when the queue is non-empty, errors included, since the empty-queue return precedes the `try`/`finally` |
| QFlagTemplate.FirstWith | tests/qflags/generate_qflags_stubs_and_tests.py:248-264 | the first line from a position containing a marker, or the end |
| QFlagTemplate.FirstWithIs | tests/qflags/generate_qflags_stubs_and_tests.py:248-264 | that line is determined by the property alone |
| QFlagTemplate.EndLine | tests/qflags/generate_qflags_stubs_and_tests.py:253-257 | the END line lies after the START line, or at the end when there is no START line |
| QFlagTemplate.TemplateParts | tests/qflags/generate_qflags_stubs_and_tests.py:246-266 | the three parts concatenate to the template |
| QFlagTemplate.ReadQFlagTestTemplate | tests/qflags/generate_qflags_stubs_and_tests.py:246-266 | the loop with its two flags computes `TemplateParts` |
| QFlagTemplate.TemplatePartsMarkers | tests/qflags/generate_qflags_stubs_and_tests.py:253-264 | part 1 ends with the first START line; part 2 has no END line; part 3, when not empty, starts with the first END line after it |
| QFlagTemplate.TemplatePartsNoStart | tests/qflags/generate_qflags_stubs_and_tests.py:262-264 | without a START line everything is part 1 |
| QFlagTemplate.TemplatePartsNoEnd | tests/qflags/generate_qflags_stubs_and_tests.py:253-260 | without a later END line, part 2 runs to the end and part 3 is empty |
| QFlagTemplate.HeaderSplitsIntoLines | tests/qflags/generate_qflags_stubs_and_tests.py:274-283 | the header is the comment line, the class and value assignments and blank lines, each ended by a line break |
| QFlagTemplate.GenerateOneQFlagFile | tests/qflags/generate_qflags_stubs_and_tests.py:269-284 | the file written is the one named |
| QFlagTemplate.GenerateReplacesSpecificPart | tests/qflags/generate_qflags_stubs_and_tests.py:269-284 | the generated file is part 1, the header and part 3, one line plus the template less part 2 |
| QFlagTemplate.GenerateWithoutStart | tests/qflags/generate_qflags_stubs_and_tests.py:269-284 | without a START line the header follows the whole template |
| QFlagTemplate.RegenerateReplacesHeader | tests/qflags/generate_qflags_stubs_and_tests.py:269-284 | a generated file used as template has the header as its part 2, so regenerating replaces the header |
| AdjustQFlags.ParseDeclaredLine | tests/qflags/adjust_qflags.py:42-52 | blank lines give nothing; an entry has no module and is not from `QFLAG_SRC` |
| AdjustQFlags.ParseDeclaredLines | tests/qflags/adjust_qflags.py:39-52 | at most one entry per line, none with a module |
| AdjustQFlags.ParseDeclaredErrPersists | tests/qflags/adjust_qflags.py:44-51 | a failing prefix makes the whole reading fail with that exception |
| AdjustQFlags.ReadDeclaredQFlags | tests/qflags/adjust_qflags.py:39-52 | the reading loop computes `ParseDeclaredLines` |
| AdjustQFlags.ParseDeclaredLineOfDeclaration | tests/qflags/adjust_qflags.py:42-52 | a well-formed grep line comes back as one entry with its names |
| AdjustQFlags.FirstUnfillable | tests/qflags/adjust_qflags.py:57-59 | the first entry that does not unpack or has no stub, or the length |
| AdjustQFlags.Filled | tests/qflags/adjust_qflags.py:57-59 | one extended entry per entry |
| AdjustQFlags.QtbaseModuleTable.constructor | tests/qflags/adjust_qflags.py:16-27 | the table holds the given entries |
| AdjustQFlags.QtbaseModuleTable.FillContents | tests/qflags/adjust_qflags.py:57-59 | entries before the first unfillable one get their stub text appended; success exactly when all can; else `ValueError` or `FileNotFoundError` |
| AdjustQFlags.SecondFillFails | tests/qflags/adjust_qflags.py:57-59 | a filled table no longer unpacks, so a second fill raises `ValueError` on its first entry |
| AdjustQFlags.ModulesOf | tests/qflags/adjust_qflags.py:68 | one module per filled entry |
| AdjustQFlags.AttachedNames | tests/qflags/adjust_qflags.py:68-73 | no more names than modules |
| AdjustQFlags.AttachAll | tests/qflags/adjust_qflags.py:63-73 | one located entry per entry |
| AdjustQFlags.AttachedNamesCount | tests/qflags/adjust_qflags.py:66-73 | a module is attached exactly when its stub declares both classes, then exactly once |
| AdjustQFlags.AttachedNamesFrom | tests/qflags/adjust_qflags.py:68-73 | only searched modules are attached |
| AdjustQFlags.EntriesIn | tests/qflags/adjust_qflags.py:61-74 | the count is at most the number of entries |
| AdjustQFlags.BumpAllLookup | tests/qflags/adjust_qflags.py:74 | bumping adds one per attached occurrence of the module, for that class only |
| AdjustQFlags.TallyCountsEntries | tests/qflags/adjust_qflags.py:61-74 | `mod_qflags[mod][cls]` is the number of entries of class `cls` attached to `mod` |
| AdjustQFlags.AttachedAtMostOnce | tests/qflags/adjust_qflags.py:66-73 | with distinct module names each is attached at most once |
| AdjustQFlags.AttachModules | tests/qflags/adjust_qflags.py:61-74 | the matching loops compute `AttachAll` and `Tally` |
| AdjustQFlags.AttachToEntry | tests/qflags/adjust_qflags.py:68-74 | the inner loop attaches `AttachedNames` and bumps each |
| AdjustQFlags.Group | tests/qflags/adjust_qflags.py:77-82 | a group is no longer than the input |
| AdjustQFlags.GroupMembers | tests/qflags/adjust_qflags.py:77-82 | an entry is in a group exactly when it is in the input and in that category |
| AdjustQFlags.GroupCount | tests/qflags/adjust_qflags.py:77-82 | a group holds each entry of its category as often as the input |
| AdjustQFlags.GroupsPartition | tests/qflags/adjust_qflags.py:77-82 | the four groups together hold each entry exactly as often as the input |
| AdjustQFlags.KeyLtIrreflexive | tests/qflags/adjust_qflags.py:84-87 | the sort key order is irreflexive |
| AdjustQFlags.KeyLtAsymmetric | tests/qflags/adjust_qflags.py:84-87 | it is asymmetric |
| AdjustQFlags.KeyLtTransitive | tests/qflags/adjust_qflags.py:84-87 | it is transitive |
| AdjustQFlags.KeyLtTotal | tests/qflags/adjust_qflags.py:84-87 | any two keys are equal or ordered |
| AdjustQFlags.KeyLeTransitive | tests/qflags/adjust_qflags.py:84-87 | not-above is transitive |
| AdjustQFlags.Insert | tests/qflags/adjust_qflags.py:84-87 | insertion adds exactly the one entry |
| AdjustQFlags.InsertSorted | tests/qflags/adjust_qflags.py:84-87 | insertion keeps a list sorted |
| AdjustQFlags.InsertWithKey | tests/qflags/adjust_qflags.py:84-87 | insertion places the entry after the existing ones of its key |
| AdjustQFlags.SortByKeySorted | tests/qflags/adjust_qflags.py:84-87 | each group comes out sorted by (module list, QFlags class) |
| AdjustQFlags.SortByKeyPermutes | tests/qflags/adjust_qflags.py:84-87 | the sort is a permutation |
| AdjustQFlags.SortByKeyStable | tests/qflags/adjust_qflags.py:84-87 | the sort is stable |
| AdjustQFlags.ParseDeclaredQFlagsOf | tests/qflags/adjust_qflags.py:29-120 | computes `DeclaredQFlags`; a parse error leaves the table alone; otherwise the table is filled as far as it can be |
| AdjustQFlags.DeclaredQFlagsResult | tests/qflags/adjust_qflags.py:77-120 | the result is sorted and holds exactly the entries in one module that are the only entry of their class there |
| AdjustQFlags.QtbaseNamesDistinct | tests/qflags/adjust_qflags.py:16-27 | the ten qtbase module names are distinct |
| GenerateQFlagsTests.TestsGenerator.constructor | tests/generate_qflags_tests.py:19 | the three parts start empty |
| GenerateQFlagsTests.TestsGenerator.GenerateQFlagsFiles | tests/generate_qflags_tests.py:21-47 | the globals become the template's three parts; one file per table entry, in order, each the file generated from the template for that entry |
| GenerateQFlagsTests.TestsGenerator.GenerateOneQFlagFileFrom | tests/generate_qflags_tests.py:50-63 | writes part 1, the header and part 3 of the globals |
| GenerateQFlagsTests.AlignmentFlagsFile | tests/generate_qflags_tests.py:13-16 | the table has one entry, for the alignment flags, and its file is the template with the alignment header |
| QFlagOps.InPlaceIsBinary | tests/qflags/test_QtChart_RubberBands_RubberBand.py:97-137 | an in-place operator gives the kind of the binary one |
| QFlagOps.TypeErrorIff | tests/qflags/test_QtChart_RubberBands_RubberBand.py:232-271 | `TypeError` exactly for `+`/`-` with a multi-flag operand, an int left of one, or a flag left of one without flag-op-multi support |
| QFlagOps.MultiIff | tests/qflags/test_QtChart_RubberBands_RubberBand.py:156-176 | no operator gives a one-flag value; multi-flag results come exactly from bitwise ops on a multi-flag value or a converting `\|` |
| QFlagOps.NoMultiOperands | tests/qflags/test_QtChart_RubberBands_RubberBand.py:68-95 | without multi-flag operands nothing raises and only `\|` can leave the int kind |
| QFlagOps.RubberBandOneFlag | tests/qflags/test_QtChart_RubberBands_RubberBand.py:68-137 | with no converting `\|`, every operator between flags and ints gives an int, in place too, and `~` of a flag is an int |
| QFlagOps.RubberBandMultiFlag | tests/qflags/test_QtChart_RubberBands_RubberBand.py:156-224 | bitwise ops keep the multi-flag kind on either side of a flag, in place too; conversions give their target kind, whatever the configuration |
| QFlagOps.RubberBandErrors | tests/qflags/test_QtChart_RubberBands_RubberBand.py:237-271 | an int left of a multi-flag value raises, as do `+` and `-` with one, in place too |
| QFlagOps.OneOpMultiUnsupported | tests/qflags/test_QtChart_RubberBands_RubberBand.py:232-235 | without flag-op-multi support, a flag left of a multi-flag value raises |
| QFlagOps.ToolBarFeatureOneFlag | tests/qflags/test_QtWidgets_ToolBarFeatures_ToolBarFeature.py:58-121 | flag `\|` flag and int `\|` flag give multi-flag values, flag `\|` int an int, every other operator an int, in place too |
| QFlagOps.ToolBarFeatureMultiFlag | tests/qflags/test_QtWidgets_ToolBarFeatures_ToolBarFeature.py:140-221 | bitwise ops between multi-flag values and flags, or an int on the right, give multi-flag values; an int on the left raises |
| QFlagOps.ToolBarFeatureErrors | tests/qflags/test_QtWidgets_ToolBarFeatures_ToolBarFeature.py:223-250 | `+` and `-` with a multi-flag value raise, in place too |
| PyOrder.StrLtTransitive | tests/qflags/adjust_qflags.py:84-87 | Python's string `<` is transitive |
| PyOrder.StrLtTotal | tests/qflags/adjust_qflags.py:84-87 | two different strings are ordered |
| PyOrder.ListLtTransitive | tests/qflags/adjust_qflags.py:84-87 | Python's list `<` is transitive |
| PyOrder.ListLtTotal | tests/qflags/adjust_qflags.py:84-87 | two different lists are ordered |
| Text.JoinSplit | fix_stubtest_error_for__new__.py:716 | joining the pieces of a split with the separator gives the string back |
| Text.SplitJoin | fix_stubtest_error_for__new__.py:714-716 | splitting a join of separator-free pieces gives the pieces |
| Text.Split | tests/qflags/generate_qflags_stubs_and_tests.py:78 | at least one piece, none holding the separator |
| Text.SplitCount | tests/qflags/generate_qflags_stubs_and_tests.py:78 | one more piece than separators |
| Text.Strip | tests/qflags/generate_qflags_stubs_and_tests.py:75 | the result neither starts nor ends with a stripped character |
| Text.StripKeepsBlock | tests/qflags/generate_qflags_stubs_and_tests.py:75 | `strip` keeps a block of the string and drops only stripped characters |
| Text.StripPadding | tests/qflags/generate_qflags_stubs_and_tests.py:84 | stripping padding around a trimmed core gives the core |
| Text.IndexOf | tests/qflags/generate_qflags_stubs_and_tests.py:83 | the first occurrence, or none exactly when absent |
| Text.IndexOfFirst | tests/qflags/generate_qflags_stubs_and_tests.py:83 | any occurrence with none before it is what `index` finds |
| Text.CountPositiveIffContains | tests/qflags/generate_qflags_stubs_and_tests.py:98-104 | `count > 0` exactly when `in` holds |
| Text.ContainsIffOccurs | tests/qflags/generate_qflags_stubs_and_tests.py:98 | `in` holds exactly when the substring occurs at some index |
| Text.Slice | tests/qflags/generate_qflags_stubs_and_tests.py:83 | Python slicing, empty when the end precedes the start |

## Findings

| source | as written | input that shows it | evidently intended | confidence | as-written member | corrected member |
|---|---|---|---|---|---|---|
| tests/qflags/generate_qflags_stubs_and_tests.py:157-173 | the `QFlag not found` loop is indented inside the loop over the many-modules records | an inventory whose one record is in no module gets an empty skip list; two many-modules records and one lost record give the lost one twice | each many-modules record skipped once, then each not-found record skipped once | not executed | QFlagsGenerator.ExtractQFlagsToProcessAsWritten | QFlagsGenerator.ExtractQFlagsToProcess |

`QFlagsGenerator.AsWrittenLosesNotFound` and
`QFlagsGenerator.AsWrittenRepeatsNotFound` exhibit the two inputs.
`QFlagsGenerator.IntendedPlanAccountsForAll` proves that with the corrected
plan every record is processed or skipped exactly once.

## Left out

- libcst itself is not modelled: parsing, printing code, whitespace nodes
  and `matchers.findall`. Stubs are the abstract tree of `StubTree`, and
  rendered stubs and annotations are tree nodes.
- Compound statements other than class and function definitions (`if`,
  `try`, `with` blocks and the like) are single opaque `OtherStatement`
  nodes. The model does not walk into them. libcst visits class and
  function definitions nested there, and `matchers.findall` counts
  them; the model neither rewrites nor counts such definitions.
- PyQt5 runtime introspection is a parameter: `importlib` and the
  attribute lookup of `is_signal`. Its printed warning is left out.
- File and JSON I/O and console output: `open`, `json.load`/`json.dump`,
  and `print` (such as `Already fixed!`). File contents are inputs and
  written files are outputs.
- Directory scans are not modelled. `FlagsFixer.FixStubDirectory` takes
  the stubs as a map; the signal fixer's loop over the directory is not
  modelled, since `SignalFixer.FixStub` fixes one stub.
- `functools.lru_cache` on `read_qflag_test_template` is not modelled; the
  template parts are recomputed from the same lines.
- The 640-line report constant of the `__new__` fixer is not modelled; a
  sample line stands for it.
- `check_qflag_in_module` and the module-level call at the end of
  `qflag_stubs_helper.py` read a hard-coded file and are not modelled.
- The unused `json_encode_qflaglocationinfo` is not modelled.
- The fixed JSON comment in the plan (`'__'`) is not modelled.
- `AdjustQFlags.SortByKey`: `list.sort` is modelled as a function that
  returns the sorted list, not as an in-place update. It is proved sorted,
  a permutation and stable.
- `Text.Strip`: `str.strip()` without arguments is modelled with the ASCII
  characters for which `str.isspace()` holds (space, tab, the line breaks
  `\n`, `\r`, U+000B and U+000C, and the separators U+001C-U+001F). White
  space outside ASCII, such as U+00A0 or U+2028, is not stripped.
- `QFlagOps.Binary`: the tests do not assert some operator combinations.
  For flag `+` flag and int op int the model gives an int. For a
  multi-flag value op= a multi-flag value it falls back to the binary
  operator.
- QFlagOps.RubberBandOneFlag: the RubberBand test file checks its int results with
  `isinstance(value, int)` only (tests/qflags/test_QtChart_RubberBands_RubberBand.py:27-29),
  which a one-flag value also passes. The lemma's `Value(Int)` for one-flag
  operations and their in-place forms is the runtime's behaviour, not
  something that file asserts. The file itself accepts `Value(One)` as well.
- `QFlagOps`: the ToolBarFeature test file has no `SUPPORTS_ONE_OP_MULTI`
  flag. Its configuration takes flag-op-multi as supported, because the
  file asserts that result.
- The display loop of `adjust_qflags.py` (lines 89-118) only prints and is
  not modelled.
- `process_qflag` does not process anything yet, so its work is not
  modelled. The model covers removing the queue head, the checks it makes
  and whether it writes the (always empty) result file.
- The build and packaging scripts, the mypy wrapper and the typing-only
  test files are not modelled: they are integration, not logic.
