/**
  The test-template handling shared by the three QFlags test generators.
  A template file is cut into three parts at its marker lines: part 1 runs
  up to and including the first line containing `### Specific part`, part 2
  runs up to the first later line containing `### End of specific part`,
  and part 3 is that line and everything after it. A generated test file is
  part 1, then a header naming the flag classes and two flag values, then
  part 3: part 2 is dropped.
*/
module QFlagTemplate {
  import opened Text

  const MarkerSpecificStart := "### Specific part"
  const MarkerSpecificEnd := "### End of specific part"

  /** The index of the first line at or after `from` that contains `marker`, or `|lines|` if none does. */
  function FirstWith(lines: seq<string>, marker: string, from: nat): (k: nat)
    requires from <= |lines|
    ensures from <= k <= |lines|
    ensures forall i :: from <= i < k ==> !Contains(lines[i], marker)
    ensures k < |lines| ==> Contains(lines[k], marker)
    decreases |lines| - from
  {
    if from == |lines| || Contains(lines[from], marker) then from
    else FirstWith(lines, marker, from + 1)
  }

  /** The first line containing a marker is determined by that property alone. */
  lemma {:induction false} FirstWithIs(lines: seq<string>, marker: string, from: nat, k: nat)
    requires from <= k <= |lines|
    requires forall i :: from <= i < k ==> !Contains(lines[i], marker)
    requires k < |lines| ==> Contains(lines[k], marker)
    ensures FirstWith(lines, marker, from) == k
    decreases k - from
  {
    if from < k {
      FirstWithIs(lines, marker, from + 1, k);
    }
  }

  /** The index of the first START-marker line, `|lines|` if there is none. */
  function StartLine(lines: seq<string>): nat {
    FirstWith(lines, MarkerSpecificStart, 0)
  }

  /** The index of the first END-marker line after the START line, `|lines|` if there is none. */
  function EndLine(lines: seq<string>): (e: nat)
    ensures StartLine(lines) < |lines| ==> StartLine(lines) < e <= |lines|
    ensures StartLine(lines) == |lines| ==> e == |lines|
  {
    var s := StartLine(lines);
    if s == |lines| then |lines| else FirstWith(lines, MarkerSpecificEnd, s + 1)
  }

  datatype Parts = Parts(part1: seq<string>, part2: seq<string>, part3: seq<string>)

  /** The three parts of a template, defined by the positions of its marker lines. */
  function TemplateParts(lines: seq<string>): (p: Parts)
    ensures p.part1 + p.part2 + p.part3 == lines
  {
    var s := StartLine(lines);
    if s == |lines| then Parts(lines, [], [])
    else
      var e := EndLine(lines);
      assert lines[..s + 1] + lines[s + 1..e] + lines[e..] == lines;
      Parts(lines[..s + 1], lines[s + 1..e], lines[e..])
  }

  /**
    The template split: each line goes to part 1 until a START-marker line
    (kept in part 1) switches to part 2; in part 2 an END-marker line
    switches to part 3, which takes that line and every later one.
  */
  method ReadQFlagTestTemplate(lines: seq<string>) returns (sourcePart1: seq<string>, sourcePart2: seq<string>, sourcePart3: seq<string>)
    ensures Parts(sourcePart1, sourcePart2, sourcePart3) == TemplateParts(lines)
  {
    ghost var s := StartLine(lines);
    ghost var e := EndLine(lines);
    sourcePart1, sourcePart2, sourcePart3 := [], [], [];
    var fillPart2, fillPart3 := false, false;
    for i := 0 to |lines|
      invariant i <= s ==> !fillPart2 && !fillPart3 && sourcePart1 == lines[..i] && sourcePart2 == [] && sourcePart3 == []
      invariant s < i <= e ==> fillPart2 && !fillPart3 && sourcePart1 == lines[..s + 1] && sourcePart2 == lines[s + 1..i] && sourcePart3 == []
      invariant e < i ==> fillPart2 && fillPart3 && sourcePart1 == lines[..s + 1] && sourcePart2 == lines[s + 1..e] && sourcePart3 == lines[e..i]
    {
      var l := lines[i];
      if fillPart3 {
        sourcePart3 := sourcePart3 + [l];
        continue;
      }
      if fillPart2 {
        if Contains(l, MarkerSpecificEnd) {
          fillPart3 := true;
          sourcePart3 := sourcePart3 + [l];
          continue;
        }
        sourcePart2 := sourcePart2 + [l];
        continue;
      }
      sourcePart1 := sourcePart1 + [l];
      if Contains(l, MarkerSpecificStart) {
        fillPart2 := true;
      }
    }
  }

  /**
    Where the markers sit: the START-marker line is the last line of part 1
    and no earlier line carries it; no line of part 2 carries the END marker;
    part 3, when not empty, begins with the END-marker line.
  */
  lemma TemplatePartsMarkers(lines: seq<string>)
    requires exists i :: 0 <= i < |lines| && Contains(lines[i], MarkerSpecificStart)
    ensures var p := TemplateParts(lines);
      && |p.part1| > 0
      && Contains(p.part1[|p.part1| - 1], MarkerSpecificStart)
      && (forall i :: 0 <= i < |p.part1| - 1 ==> !Contains(p.part1[i], MarkerSpecificStart))
      && (forall i :: 0 <= i < |p.part2| ==> !Contains(p.part2[i], MarkerSpecificEnd))
      && (|p.part3| > 0 ==> Contains(p.part3[0], MarkerSpecificEnd))
  {
    var s := StartLine(lines);
    var e := EndLine(lines);
    var p := TemplateParts(lines);
    assert s < |lines|;
    assert p.part1 == lines[..s + 1];
    assert p.part2 == lines[s + 1..e];
    assert p.part3 == lines[e..];
    forall i | 0 <= i < |p.part2| ensures !Contains(p.part2[i], MarkerSpecificEnd) {
      assert p.part2[i] == lines[s + 1 + i];
    }
  }

  /** Without a START-marker line the whole template is part 1. */
  lemma TemplatePartsNoStart(lines: seq<string>)
    requires forall i :: 0 <= i < |lines| ==> !Contains(lines[i], MarkerSpecificStart)
    ensures TemplateParts(lines) == Parts(lines, [], [])
  {
    FirstWithIs(lines, MarkerSpecificStart, 0, |lines|);
  }

  /** Without an END-marker line after the START line, part 3 is empty and part 2 runs to the end. */
  lemma TemplatePartsNoEnd(lines: seq<string>, s: nat)
    requires s < |lines| && Contains(lines[s], MarkerSpecificStart)
    requires forall i :: 0 <= i < s ==> !Contains(lines[i], MarkerSpecificStart)
    requires forall i :: s < i < |lines| ==> !Contains(lines[i], MarkerSpecificEnd)
    ensures TemplateParts(lines) == Parts(lines[..s + 1], lines[s + 1..], [])
  {
    FirstWithIs(lines, MarkerSpecificStart, 0, s);
    FirstWithIs(lines, MarkerSpecificEnd, s + 1, |lines|);
  }

  /** The header's lines, one per assignment or comment. */
  function HeaderLines(source: string, multiFlagName: string, oneFlagName: string, oneFlagValue1: string, oneFlagValue2: string): seq<string> {
    [ "# file generated from " + source + " for QFlags class \"" + multiFlagName + "\" and flag class \"" + oneFlagName + "\"",
      "",
      "OneFlagClass = " + oneFlagName,
      "MultiFlagClass = " + multiFlagName,
      "",
      "oneFlagRefValue1 = " + oneFlagValue1,
      "oneFlagRefValue2 = " + oneFlagValue2,
      "" ]
  }

  /** The header written between part 1 and part 3 of a generated test file: its lines, each ended by a line break. */
  function Header(source: string, multiFlagName: string, oneFlagName: string, oneFlagValue1: string, oneFlagValue2: string): string {
    Join(HeaderLines(source, multiFlagName, oneFlagName, oneFlagValue1, oneFlagValue2), "\n")
  }

  /**
    Read line by line, the header is a comment naming the template and both
    classes, then the assignments of `OneFlagClass`, `MultiFlagClass` and
    the two reference values, each followed by a line break.
  */
  lemma HeaderSplitsIntoLines(source: string, multiFlagName: string, oneFlagName: string, oneFlagValue1: string, oneFlagValue2: string)
    requires '\n' !in source && '\n' !in multiFlagName && '\n' !in oneFlagName
    requires '\n' !in oneFlagValue1 && '\n' !in oneFlagValue2
    ensures Split(Header(source, multiFlagName, oneFlagName, oneFlagValue1, oneFlagValue2), '\n')
         == HeaderLines(source, multiFlagName, oneFlagName, oneFlagValue1, oneFlagValue2)
  {
    var ls := HeaderLines(source, multiFlagName, oneFlagName, oneFlagValue1, oneFlagValue2);
    forall i | 0 <= i < |ls| ensures '\n' !in ls[i] {
      NoBreakIn(ls, i, source, multiFlagName, oneFlagName, oneFlagValue1, oneFlagValue2);
    }
    SplitJoin(ls, '\n');
  }

  lemma NoBreakIn(ls: seq<string>, i: nat, source: string, multiFlagName: string, oneFlagName: string, oneFlagValue1: string, oneFlagValue2: string)
    requires ls == HeaderLines(source, multiFlagName, oneFlagName, oneFlagValue1, oneFlagValue2)
    requires '\n' !in source && '\n' !in multiFlagName && '\n' !in oneFlagName
    requires '\n' !in oneFlagValue1 && '\n' !in oneFlagValue2
    requires i < |ls|
    ensures '\n' !in ls[i]
  {
    if i == 0 {
      var parts := ["# file generated from ", source, " for QFlags class \"", multiFlagName, "\" and flag class \"", oneFlagName, "\""];
      assert ls[0] == parts[0] + parts[1] + parts[2] + parts[3] + parts[4] + parts[5] + parts[6];
    }
  }

  /** A generated test file: its name and the text chunks written to it, in order. */
  datatype GeneratedFile = GeneratedFile(fileName: string, chunks: seq<string>)

  /** The chunks of a generated file: part 1, the header, part 3. */
  function Generate(template: seq<string>, header: string): seq<string> {
    var p := TemplateParts(template);
    p.part1 + [header] + p.part3
  }

  /** Writes one test file for a QFlags class and its flag class from the template. */
  function GenerateOneQFlagFile(template: seq<string>, source: string, qflagFname: string, multiFlagName: string,
                                oneFlagName: string, oneFlagValue1: string, oneFlagValue2: string): (f: GeneratedFile)
    ensures f.fileName == qflagFname
  {
    GeneratedFile(qflagFname, Generate(template, Header(source, multiFlagName, oneFlagName, oneFlagValue1, oneFlagValue2)))
  }

  /**
    A generated file keeps the template up to and including the START line
    and from the END line on, and replaces exactly the lines strictly
    between them by the header.
  */
  lemma GenerateReplacesSpecificPart(template: seq<string>, header: string)
    requires StartLine(template) < |template|
    ensures Generate(template, header)
         == template[..StartLine(template) + 1] + [header] + template[EndLine(template)..]
    ensures |Generate(template, header)| == |template| - |TemplateParts(template).part2| + 1
  {
  }

  /** Without a START line the header is appended after the whole template. */
  lemma GenerateWithoutStart(template: seq<string>, header: string)
    requires forall i :: 0 <= i < |template| ==> !Contains(template[i], MarkerSpecificStart)
    ensures Generate(template, header) == template + [header]
  {
    TemplatePartsNoStart(template);
  }

  /**
    Regenerating from a generated file replaces only the header: when the
    template has both markers and the first header carries no END marker,
    the header of the generated file is exactly its new part 2.
  */
  lemma RegenerateReplacesHeader(template: seq<string>, header1: string, header2: string)
    requires StartLine(template) < |template| && EndLine(template) < |template|
    requires !Contains(header1, MarkerSpecificEnd)
    ensures TemplateParts(Generate(template, header1))
         == Parts(TemplateParts(template).part1, [header1], TemplateParts(template).part3)
    ensures Generate(Generate(template, header1), header2) == Generate(template, header2)
  {
    var s := StartLine(template);
    var e := EndLine(template);
    var g := Generate(template, header1);
    GeneratedMarkers(template, header1);
    SpliceSlices(template, g, s, e, header1);
  }

  lemma SpliceSlices(t: seq<string>, g: seq<string>, s: nat, e: nat, h: string)
    requires s < e <= |t| && g == t[..s + 1] + [h] + t[e..]
    ensures g[..s + 1] == t[..s + 1] && g[s + 1..s + 2] == [h] && g[s + 2..] == t[e..]
  {
  }

  /** In a generated file the START line stays where it was and the END line follows the header. */
  lemma GeneratedMarkers(template: seq<string>, header: string)
    requires StartLine(template) < |template| && EndLine(template) < |template|
    requires !Contains(header, MarkerSpecificEnd)
    ensures var g := Generate(template, header);
      && g == template[..StartLine(template) + 1] + [header] + template[EndLine(template)..]
      && StartLine(g) == StartLine(template) && EndLine(g) == StartLine(template) + 2
  {
    var s := StartLine(template);
    var e := EndLine(template);
    var g := Generate(template, header);
    assert g == template[..s + 1] + [header] + template[e..];
    assert g[s] == template[s];
    forall i | 0 <= i < s ensures !Contains(g[i], MarkerSpecificStart) {
      assert g[i] == template[i];
    }
    FirstWithIs(g, MarkerSpecificStart, 0, s);
    assert g[s + 1] == header;
    assert g[s + 2] == template[e];
    FirstWithIs(g, MarkerSpecificEnd, s + 1, s + 2);
  }

}
