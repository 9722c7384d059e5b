/** The cases of test_fdusers.py, stated over the model of fd_users.py:
    readlink results of one descriptor directory and the ignore lists.
    Lemmas take their test strings as parameters fixed by `requires x ==
    "..."` rather than as literals in their bodies: the verifier expands
    functions applied to literals eagerly, and this keeps it from expanding
    every string operation on the long test strings. */
module FdUsersExamples {
  import opened Wrappers
  import opened Text
  import opened Glob
  import opened Common
  import opened FdUsers

  const File: string := "/some/other/file"

  /** One deleted descriptor and one live one, as in the mixed-state cases. */
  const Mixed: seq<Readlink> := [Target(File + DelSuffix), Target("/some/other/file2")]

  lemma LiveTarget(t: string, patterns: seq<string>, literals: seq<string>)
    requires t == File || t == "/some/other/file2"
    ensures Kept(t, patterns, literals) == None
  {
    assert t[|t| - 1] != DelSuffix[|DelSuffix| - 1];
  }

  lemma DeletedTarget(patterns: seq<string>, literals: seq<string>)
    requires File !in literals && !AnyMatch(File, patterns)
    ensures Kept(File + DelSuffix, patterns, literals) == Some(File)
  {
    KeptIff(File + DelSuffix, patterns, literals, File);
  }

  lemma IgnoredTarget(patterns: seq<string>, literals: seq<string>)
    requires File in literals || AnyMatch(File, patterns)
    ensures Kept(File + DelSuffix, patterns, literals) == None
  {
    var t := File + DelSuffix;
    assert t[|t| - |DelSuffix|..] == DelSuffix;
    assert t[..|t| - |DelSuffix|] == File;
  }

  /** The mixed directory gives the deleted file when it is not ignored,
      and nothing when it is. */
  lemma MixedStates(patterns: seq<string>, literals: seq<string>)
    ensures File !in literals && !AnyMatch(File, patterns) ==> DeletedFiles(Mixed, patterns, literals) == Some([File])
    ensures File in literals || AnyMatch(File, patterns) ==> DeletedFiles(Mixed, patterns, literals) == Some([])
  {
    var a := [Mixed[0]];
    var b := [Mixed[1]];
    assert Mixed == a + b;
    DeletedFilesOne(File + DelSuffix, patterns, literals);
    DeletedFilesOne("/some/other/file2", patterns, literals);
    LiveTarget("/some/other/file2", patterns, literals);
    if File !in literals && !AnyMatch(File, patterns) {
      DeletedTarget(patterns, literals);
    } else {
      IgnoredTarget(patterns, literals);
    }
    DeletedFilesAppend(a, b, patterns, literals);
  }

  /** A link that does not carry the suffix is not reported. */
  lemma SimpleCase()
    ensures DeletedFiles([Target(File)], [], []) == Some([])
  {
    DeletedFilesOne(File, [], []);
    LiveTarget(File, [], []);
  }

  /** A link that carries the suffix is reported without it. */
  lemma OneDeletedFile()
    ensures DeletedFiles([Target(File + DelSuffix)], [], []) == Some([File])
  {
    DeletedFilesOne(File + DelSuffix, [], []);
    DeletedTarget([], []);
  }

  lemma MixedFileStates()
    ensures DeletedFiles(Mixed, [], []) == Some([File])
  {
    MixedStates([], []);
  }

  lemma MixedWithLiteral()
    ensures DeletedFiles(Mixed, [], [File]) == Some([])
  {
    MixedStates([], [File]);
  }

  lemma MixedWithLiteralNomatch(literals: seq<string>)
    requires literals == ["/literal/doesnt/match"]
    ensures DeletedFiles(Mixed, [], literals) == Some([File])
  {
    assert File[1] != literals[0][1];
    MixedStates([], literals);
  }

  lemma MixedWithPattern(patterns: seq<string>)
    requires patterns == ["/some/other/fil*"]
    ensures DeletedFiles(Mixed, patterns, []) == Some([])
  {
    var prefix := "/some/other/fil";
    assert patterns[0] == prefix + "*";
    assert NoMeta(prefix);
    PrefixStarMatch(File, prefix);
    assert File[..|prefix|] == prefix;
    MixedStates(patterns, []);
  }

  lemma MixedWithPatternNomatch(patterns: seq<string>)
    requires patterns == ["/pattern/doesnt/match*"]
    ensures DeletedFiles(Mixed, patterns, []) == Some([File])
  {
    var prefix := "/pattern/doesnt/match";
    assert patterns[0] == prefix + "*";
    assert NoMeta(prefix);
    PrefixStarMatch(File, prefix);
    DiffersAt(File, prefix, 1);
    MixedStates(patterns, []);
  }

  /** Two descriptors of one deleted file give it twice. */
  lemma SameFileTwice()
    ensures DeletedFiles([Target(File + DelSuffix), Target(File + DelSuffix)], [], []) == Some([File, File])
  {
    var a := [Target(File + DelSuffix)];
    assert [Target(File + DelSuffix), Target(File + DelSuffix)] == a + a;
    OneDeletedFile();
    DeletedFilesAppend(a, a, [], []);
    assert [File] + [File] == [File, File];
  }

  /** A command line without NUL is shown as it is. */
  lemma PlainCommandLine(argv: string)
    requires NUL !in argv
    ensures ProgArgs(Some(argv)) == Some(argv)
  {
    var r := ProgArgs(Some(argv)).value;
    forall i | 0 <= i < |argv|
      ensures r[i] == argv[i]
    {
      assert argv[i] in argv;
    }
    assert r == argv;
  }

  lemma SelfEntry(e: FdEntry, argv: string)
    requires e == FdEntry("/proc/" + "self" + "/fd", [Target(File + DelSuffix)], Some(argv))
    ensures FdObservation(e, "7", [], []) == Skipped
  {
    OwnDirIff("self", "7");
  }

  /** Another process's directory holding the deleted file is found,
      under its pid and its command line. */
  lemma OtherPidEntry(e: FdEntry, pid: string, argv: string)
    requires '/' !in pid && pid != "self" && pid != "thread-self" && pid != "7"
    requires NUL !in argv && argv != []
    requires e == FdEntry("/proc/" + pid + "/fd", [Target(File + DelSuffix)], Some(argv))
    ensures FdObservation(e, "7", [], []) == Found(pid, argv, {File})
  {
    OwnDirIff(pid, "7");
    OneDeletedFile();
    PlainCommandLine(argv);
    PidOfProcPath(pid, "fd");
    assert "/proc/" + pid + "/fd" == "/proc/" + pid + "/" + "fd";
    assert (set x | x in [File]) == {File};
  }

  lemma OtherEntry(e: FdEntry, argv: string)
    requires argv == "/usr/bin/python4" + " spam.py --eggs --ham jam"
    requires e == FdEntry("/proc/" + "42" + "/fd", [Target(File + DelSuffix)], Some(argv))
    ensures FdObservation(e, "7", [], []) == Found("42", argv, {File})
  {
    assert NUL !in "/usr/bin/python4" && NUL !in " spam.py --eggs --ham jam";
    OtherPidEntry(e, "42", argv);
  }

  lemma TallySkipFound(obs: seq<Observation>, argv: string, pid: string, items: set<string>)
    requires obs == [Skipped, Found(pid, argv, items)]
    ensures Tally(obs) == Scan(Users([argv], map[argv := Usage({pid}, items)]), false)
  {
    assert obs[..1] == [Skipped] && [Skipped][..0] == [];
    var u := Record(NoUsers, argv, pid, items);
    assert u.groups == map[argv := Usage({pid}, items)];
  }

  /** main over the scanner's own directory and one other process holding
      a deleted file: only the other process is recorded, under its
      command line, with its pid and the file. */
  lemma ScanSkipsSelf(entries: seq<FdEntry>, argv: string)
    requires argv == "/usr/bin/python4" + " spam.py --eggs --ham jam"
    requires entries == [FdEntry("/proc/" + "self" + "/fd", [Target(File + DelSuffix)], Some(argv)),
                         FdEntry("/proc/" + "42" + "/fd", [Target(File + DelSuffix)], Some(argv))]
    ensures FdScan(entries, "7", [], []) == Scan(Users([argv], map[argv := Usage({"42"}, {File})]), false)
  {
    SelfEntry(entries[0], argv);
    OtherEntry(entries[1], argv);
    var obs := FdOutcomes(entries, "7", [], []);
    assert obs == [Skipped, Found("42", argv, {File})];
    TallySkipFound(obs, argv, "42", {File});
  }
}
