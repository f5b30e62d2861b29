/**
  `generate_qflags_tests.py`: the template `windowFlags.py` is cut into
  three parts kept in module-level globals, then one test file is written
  for each entry of the flag table, from parts 1 and 3 of the globals and a
  header naming the entry's classes and values.
*/
module GenerateQFlagsTests {
  import opened QFlagTemplate

  const Source := "windowFlags.py"

  /** An entry of the flag table: file to write, QFlags class, flag class, two flag values. */
  datatype FlagsFile = FlagsFile(qflagFname: string, multiFlagName: string, oneFlagName: string, oneFlagValue1: string, oneFlagValue2: string)

  const FlagsFiles: seq<FlagsFile> := [
    FlagsFile("qflags_alignmentflags.py", "QtCore.Qt.Alignment", "QtCore.Qt.AlignmentFlag", "QtCore.Qt.AlignLeft", "QtCore.Qt.AlignRight")
  ]

  /** The script's globals: the three parts of the template last read. */
  class TestsGenerator {
    var sourcePart1: seq<string>
    var sourcePart2: seq<string>
    var sourcePart3: seq<string>

    constructor ()
      ensures sourcePart1 == [] && sourcePart2 == [] && sourcePart3 == []
    {
      sourcePart1, sourcePart2, sourcePart3 := [], [], [];
    }

    /** The file written for one entry from the current globals: part 1, the header, part 3. */
    function FileFor(entry: FlagsFile): GeneratedFile
      reads this
    {
      GeneratedFile(entry.qflagFname,
        sourcePart1 + [Header(Source, entry.multiFlagName, entry.oneFlagName, entry.oneFlagValue1, entry.oneFlagValue2)] + sourcePart3)
    }

    /**
      Cuts the template into the globals, then writes one file per table
      entry, in table order; each is the file generated from the template
      for that entry.
    */
    method GenerateQFlagsFiles(lines: seq<string>, flagsFiles: seq<FlagsFile>) returns (written: seq<GeneratedFile>)
      modifies this
      ensures Parts(sourcePart1, sourcePart2, sourcePart3) == TemplateParts(lines)
      ensures |written| == |flagsFiles|
      ensures forall i :: 0 <= i < |flagsFiles| ==>
        written[i] == GenerateOneQFlagFile(lines, Source, flagsFiles[i].qflagFname, flagsFiles[i].multiFlagName,
                                           flagsFiles[i].oneFlagName, flagsFiles[i].oneFlagValue1, flagsFiles[i].oneFlagValue2)
    {
      sourcePart1, sourcePart2, sourcePart3 := ReadQFlagTestTemplate(lines);
      written := [];
      for i := 0 to |flagsFiles|
        invariant Parts(sourcePart1, sourcePart2, sourcePart3) == TemplateParts(lines)
        invariant |written| == i
        invariant forall j :: 0 <= j < i ==> written[j] == FileFor(flagsFiles[j])
      {
        var f := GenerateOneQFlagFileFrom(flagsFiles[i]);
        written := written + [f];
      }
    }

    /** Writes one file from the globals. */
    method GenerateOneQFlagFileFrom(entry: FlagsFile) returns (f: GeneratedFile)
      ensures f == FileFor(entry)
    {
      var chunks := sourcePart1;
      chunks := chunks + [Header(Source, entry.multiFlagName, entry.oneFlagName, entry.oneFlagValue1, entry.oneFlagValue2)];
      chunks := chunks + sourcePart3;
      f := GeneratedFile(entry.qflagFname, chunks);
    }
  }

  /** The flag table has the single alignment-flags entry, and its file is the template with that entry's header. */
  lemma AlignmentFlagsFile(lines: seq<string>)
    ensures |FlagsFiles| == 1 && FlagsFiles[0].qflagFname == "qflags_alignmentflags.py"
    ensures GenerateOneQFlagFile(lines, Source, FlagsFiles[0].qflagFname, FlagsFiles[0].multiFlagName, FlagsFiles[0].oneFlagName,
                                 FlagsFiles[0].oneFlagValue1, FlagsFiles[0].oneFlagValue2).chunks
         == Generate(lines, Header(Source, "QtCore.Qt.Alignment", "QtCore.Qt.AlignmentFlag", "QtCore.Qt.AlignLeft", "QtCore.Qt.AlignRight"))
  {
  }
}
