/** fd_users.py: the scanner that reads the targets of the descriptor
    links under /proc/<pid>/fd and reports the processes that still hold
    deleted files open, grouped by command line. */
module FdUsers {
  import opened Wrappers
  import opened Text
  import opened Glob
  import opened Common

  /** What the kernel appends to the target of a link to an unlinked file. */
  const DelSuffix: string := " (deleted)"

  // ---------------------------------------------------------------------
  // match_any

  /** Some ignore glob matches the name. */
  predicate AnyMatch(name: string, patterns: seq<string>)
  {
    exists k :: 0 <= k < |patterns| && Fnmatch(name, patterns[k])
  }

  /** match_any: the patterns are tried in order and the first match
      answers true; an empty list answers false. */
  method MatchAny(name: string, patterns: seq<string>) returns (b: bool)
    ensures b <==> AnyMatch(name, patterns)
    ensures |patterns| == 0 ==> !b
  {
    for i := 0 to |patterns|
      invariant forall k :: 0 <= k < i ==> !Fnmatch(name, patterns[k])
    {
      if Fnmatch(name, patterns[i]) {
        return true;
      }
    }
    return false;
  }

  // ---------------------------------------------------------------------
  // get_deleted_files

  /** What os.readlink gave for one descriptor of the directory: the link's
      target, or an OSError (IOError in Python 3). */
  datatype Readlink = Target(path: string) | LinkError

  /** The file one descriptor contributes: a target carrying the kernel's
      suffix, with the suffix cut off, unless that name is an ignore
      literal or matches an ignore glob. */
  function Kept(target: string, patterns: seq<string>, literals: seq<string>): Option<string>
  {
    if EndsWith(target, DelSuffix) then
      var actual := target[..|target| - |DelSuffix|];
      if actual in literals || AnyMatch(actual, patterns) then None else Some(actual)
    else None
  }

  /** Exactly the targets x + " (deleted)" contribute x, and only when x
      is neither ignored literally nor by a glob. */
  lemma KeptIff(target: string, patterns: seq<string>, literals: seq<string>, x: string)
    ensures Kept(target, patterns, literals) == Some(x) <==>
            target == x + DelSuffix && x !in literals && !AnyMatch(x, patterns)
  {
    if target == x + DelSuffix {
      assert target[|target| - |DelSuffix|..] == DelSuffix;
      assert target[..|target| - |DelSuffix|] == x;
    }
    if EndsWith(target, DelSuffix) {
      assert target == target[..|target| - |DelSuffix|] + DelSuffix;
    }
  }

  /** A target without the suffix contributes nothing. */
  lemma UnsuffixedIgnored(target: string, patterns: seq<string>, literals: seq<string>)
    requires !EndsWith(target, DelSuffix)
    ensures Kept(target, patterns, literals) == None
  {
  }

  /** The files get_deleted_files returns for these readlink results, in
      descriptor order and with repeats, or None when a readlink raised
      (the exception leaves the function and the list is lost). */
  function DeletedFiles(links: seq<Readlink>, patterns: seq<string>, literals: seq<string>): (r: Option<seq<string>>)
    decreases |links|
  {
    if |links| == 0 then Some([])
    else
      match DeletedFiles(links[..|links| - 1], patterns, literals)
      case None => None
      case Some(files) =>
        match links[|links| - 1]
        case LinkError => None
        case Target(t) =>
          match Kept(t, patterns, literals)
          case None => Some(files)
          case Some(x) => Some(files + [x])
  }

  /** The call succeeds exactly when every readlink does. */
  lemma {:induction false} DeletedFilesOk(links: seq<Readlink>, patterns: seq<string>, literals: seq<string>)
    ensures DeletedFiles(links, patterns, literals).Some? <==> forall k :: 0 <= k < |links| ==> links[k].Target?
    decreases |links|
  {
    if |links| > 0 {
      var init := links[..|links| - 1];
      DeletedFilesOk(init, patterns, literals);
      assert forall k :: 0 <= k < |init| ==> init[k] == links[k];
    }
  }

  /** Every returned name is the contribution of some descriptor, and every
      descriptor's contribution is returned. */
  lemma {:induction false} DeletedFilesMembers(links: seq<Readlink>, patterns: seq<string>, literals: seq<string>, x: string)
    requires DeletedFiles(links, patterns, literals).Some?
    ensures x in DeletedFiles(links, patterns, literals).value <==>
            exists k :: 0 <= k < |links| && links[k].Target? && Kept(links[k].path, patterns, literals) == Some(x)
    decreases |links|
  {
    if |links| > 0 {
      var init := links[..|links| - 1];
      DeletedFilesMembers(init, patterns, literals, x);
      assert forall k :: 0 <= k < |init| ==> init[k] == links[k];
      var last := |links| - 1;
      if exists k :: 0 <= k < |links| && links[k].Target? && Kept(links[k].path, patterns, literals) == Some(x) {
        var k :| 0 <= k < |links| && links[k].Target? && Kept(links[k].path, patterns, literals) == Some(x);
        if k < last {
          assert init[k] == links[k];
        }
      }
    }
  }

  /** The list of a run of descriptors is the list of its first part
      followed by the list of the rest: order is kept and nothing is
      merged, so two descriptors of one deleted file give two entries. */
  lemma {:induction false} DeletedFilesAppend(a: seq<Readlink>, b: seq<Readlink>, patterns: seq<string>, literals: seq<string>)
    requires DeletedFiles(a, patterns, literals).Some? && DeletedFiles(b, patterns, literals).Some?
    ensures DeletedFiles(a + b, patterns, literals) ==
            Some(DeletedFiles(a, patterns, literals).value + DeletedFiles(b, patterns, literals).value)
    decreases |b|
  {
    if |b| == 0 {
      assert a + b == a;
      assert DeletedFiles(b, patterns, literals) == Some([]);
      assert DeletedFiles(a, patterns, literals).value + [] == DeletedFiles(a, patterns, literals).value;
    } else {
      var b0 := b[..|b| - 1];
      assert (a + b)[..|a + b| - 1] == a + b0;
      assert (a + b)[|a + b| - 1] == b[|b| - 1];
      assert DeletedFiles(b0, patterns, literals).Some?;
      DeletedFilesAppend(a, b0, patterns, literals);
      var fa := DeletedFiles(a, patterns, literals).value;
      var fb0 := DeletedFiles(b0, patterns, literals).value;
      match b[|b| - 1]
      case Target(t) =>
        match Kept(t, patterns, literals)
        case None =>
        case Some(x) => assert fa + (fb0 + [x]) == (fa + fb0) + [x];
    }
  }

  /** One descriptor: its contribution, if any. */
  lemma DeletedFilesOne(t: string, patterns: seq<string>, literals: seq<string>)
    ensures DeletedFiles([Target(t)], patterns, literals) ==
            Some(if Kept(t, patterns, literals).Some? then [Kept(t, patterns, literals).value] else [])
  {
    var links := [Target(t)];
    assert links[..0] == [] && links[0] == Target(t);
    assert DeletedFiles(links[..0], patterns, literals) == Some([]);
    match Kept(t, patterns, literals)
    case None =>
    case Some(x) => assert [] + [x] == [x];
  }

  lemma FilesStep(links: seq<Readlink>, i: nat, patterns: seq<string>, literals: seq<string>, files: seq<string>)
    requires i < |links| && DeletedFiles(links[..i], patterns, literals) == Some(files)
    ensures links[i].LinkError? ==> DeletedFiles(links, patterns, literals) == None
    ensures links[i].Target? && Kept(links[i].path, patterns, literals).None? ==>
            DeletedFiles(links[..i + 1], patterns, literals) == Some(files)
    ensures links[i].Target? && Kept(links[i].path, patterns, literals).Some? ==>
            DeletedFiles(links[..i + 1], patterns, literals) == Some(files + [Kept(links[i].path, patterns, literals).value])
  {
    assert links[..i + 1][..i] == links[..i];
    assert links[..i + 1][i] == links[i];
    if links[i].LinkError? {
      DeletedFilesOk(links, patterns, literals);
    }
  }

  /** get_deleted_files over the readlink results of one directory, with
      the ignore globs and literals of the command line. */
  method GetDeletedFiles(links: seq<Readlink>, patterns: seq<string>, literals: seq<string>) returns (r: Option<seq<string>>)
    ensures r == DeletedFiles(links, patterns, literals)
  {
    var deletedfds: seq<string> := [];
    for i := 0 to |links|
      invariant DeletedFiles(links[..i], patterns, literals) == Some(deletedfds)
    {
      FilesStep(links, i, patterns, literals, deletedfds);
      if links[i].LinkError? {
        return None;
      }
      var target := links[i].path;
      if EndsWith(target, DelSuffix) {
        var actual := target[..|target| - |DelSuffix|];
        if actual in literals {
          continue;
        }
        var m := MatchAny(actual, patterns);
        if m {
          continue;
        }
        deletedfds := deletedfds + [actual];
      }
    }
    assert links[..|links|] == links;
    return Some(deletedfds);
  }

  // ---------------------------------------------------------------------
  // The main loop

  /** One directory the procfs glob matched: its (normalised) path, the
      readlink results of its descriptors, and what reading the process's
      cmdline produced. */
  datatype FdEntry = FdEntry(dir: string, links: seq<Readlink>, cmdline: Option<string>)

  /** The directories main passes over: the scanner's own, under any of
      its three names. */
  predicate IsOwnDir(dir: string, ownPid: string)
  {
    StartsWith(dir, "/proc/self/fd") || StartsWith(dir, "/proc/thread-self/fd") || StartsWith(dir, "/proc/" + ownPid + "/fd")
  }

  /** For a directory /proc/<p>/fd the three prefix tests are name
      comparisons: no other process's directory starts with the scanner's
      own (the "/fd" ends the pid). */
  lemma OwnDirIff(p: string, ownPid: string)
    requires '/' !in p && '/' !in ownPid
    ensures IsOwnDir("/proc/" + p + "/fd", ownPid) <==> p == "self" || p == "thread-self" || p == ownPid
  {
    assert "/proc/self/fd" == "/proc/" + "self" + "/fd";
    assert "/proc/thread-self/fd" == "/proc/" + "thread-self" + "/fd";
    ProcDirPrefix(p, "self");
    ProcDirPrefix(p, "thread-self");
    ProcDirPrefix(p, ownPid);
  }

  lemma ProcDirPrefix(p: string, q: string)
    requires '/' !in p && '/' !in q
    ensures StartsWith("/proc/" + p + "/fd", "/proc/" + q + "/fd") <==> p == q
  {
    var s := "/proc/" + p + "/fd";
    var t := "/proc/" + q + "/fd";
    if StartsWith(s, t) {
      if |q| < |p| {
        SlashAfterPrefix(p, q);
        assert false;
      }
      assert s[..|t|] == s;
      assert s[6..6 + |p|] == p && t[6..6 + |q|] == q;
    }
  }

  lemma SlashAfterPrefix(p: string, q: string)
    requires |q| < |p| && StartsWith("/proc/" + p + "/fd", "/proc/" + q + "/fd")
    ensures p[|q|] == '/'
  {
    var s := "/proc/" + p + "/fd";
    var t := "/proc/" + q + "/fd";
    assert s[..|t|][6 + |q|] == t[6 + |q|];
  }

  /** A process main records: not the scanner itself, every descriptor
      readable, some deleted file kept, and a non-empty command line. */
  predicate FdUser(e: FdEntry, ownPid: string, patterns: seq<string>, literals: seq<string>)
  {
    && !IsOwnDir(e.dir, ownPid)
    && DeletedFiles(e.links, patterns, literals).Some?
    && |DeletedFiles(e.links, patterns, literals).value| > 0
    && Truthy(ProgArgs(e.cmdline))
  }

  /** What one iteration of main contributes. */
  function FdObservation(e: FdEntry, ownPid: string, patterns: seq<string>, literals: seq<string>): (r: Observation)
    ensures r.Found? <==> FdUser(e, ownPid, patterns, literals)
    ensures r.Unreadable? <==> !IsOwnDir(e.dir, ownPid) && DeletedFiles(e.links, patterns, literals).None?
  {
    if IsOwnDir(e.dir, ownPid) then Skipped
    else
      match DeletedFiles(e.links, patterns, literals)
      case None => Unreadable
      case Some(files) =>
        if |files| == 0 then Skipped
        else
          var argv := ProgArgs(e.cmdline);
          if Truthy(argv) then Found(PidOf(e.dir), argv.value, set x | x in files) else Skipped
  }

  function FdOutcomes(entries: seq<FdEntry>, ownPid: string, patterns: seq<string>, literals: seq<string>): (r: seq<Observation>)
    ensures |r| == |entries|
  {
    seq(|entries|, k requires 0 <= k < |entries| => FdObservation(entries[k], ownPid, patterns, literals))
  }

  /** main's users and read_failure after the loop over all directories. */
  function FdScan(entries: seq<FdEntry>, ownPid: string, patterns: seq<string>, literals: seq<string>): Scan
  {
    Tally(FdOutcomes(entries, ownPid, patterns, literals))
  }

  /** The body of main's loop for one directory. */
  method ScanFdEntry(e: FdEntry, ownPid: string, patterns: seq<string>, literals: seq<string>, sc: Scan) returns (r: Scan)
    requires Valid(sc.users)
    ensures r == Observe(sc, FdObservation(e, ownPid, patterns, literals))
  {
    if IsOwnDir(e.dir, ownPid) {
      return sc;
    }
    var pid := PidOf(e.dir);
    var files := GetDeletedFiles(e.links, patterns, literals);
    if files.None? {
      assert FdObservation(e, ownPid, patterns, literals) == Unreadable;
      return Scan(sc.users, true);
    }
    if |files.value| > 0 {
      var argv := ProgArgs(e.cmdline);
      if Truthy(argv) {
        var found := Found(pid, argv.value, set x | x in files.value);
        assert FdObservation(e, ownPid, patterns, literals) == found;
        return Observe(sc, found);
      }
    }
    assert FdObservation(e, ownPid, patterns, literals) == Skipped;
    return sc;
  }

  /** main: the loop over all descriptor directories. */
  method ScanFds(entries: seq<FdEntry>, ownPid: string, patterns: seq<string>, literals: seq<string>) returns (sc: Scan)
    ensures sc == FdScan(entries, ownPid, patterns, literals)
  {
    ghost var outcomes := FdOutcomes(entries, ownPid, patterns, literals);
    sc := Scan(NoUsers, false);
    for i := 0 to |entries|
      invariant sc == Tally(outcomes[..i])
    {
      assert outcomes[i] == FdObservation(entries[i], ownPid, patterns, literals);
      assert outcomes[..i + 1] == outcomes[..i] + [outcomes[i]];
      TallySnoc(outcomes[..i], outcomes[i]);
      sc := ScanFdEntry(entries[i], ownPid, patterns, literals, sc);
    }
    assert outcomes[..|entries|] == outcomes;
  }

  // ---------------------------------------------------------------------
  // What the scan reports

  /** The warning flag is raised exactly when some directory other than
      the scanner's own had a descriptor readlink could not read. */
  lemma FdScanReadFailure(entries: seq<FdEntry>, ownPid: string, patterns: seq<string>, literals: seq<string>)
    ensures FdScan(entries, ownPid, patterns, literals).readFailure <==>
            exists k :: 0 <= k < |entries| && !IsOwnDir(entries[k].dir, ownPid) &&
              exists j :: 0 <= j < |entries[k].links| && entries[k].links[j].LinkError?
  {
    var obs := FdOutcomes(entries, ownPid, patterns, literals);
    TallyFlag(obs);
    forall k | 0 <= k < |entries|
      ensures obs[k].Unreadable? <==>
                (!IsOwnDir(entries[k].dir, ownPid) &&
                 exists j :: 0 <= j < |entries[k].links| && entries[k].links[j].LinkError?)
    {
      assert obs[k] == FdObservation(entries[k], ownPid, patterns, literals);
      DeletedFilesOk(entries[k].links, patterns, literals);
    }
  }

  /** A pid is listed under a command line exactly when some recorded
      process has that pid and that command line. */
  lemma FdScanPids(entries: seq<FdEntry>, ownPid: string, patterns: seq<string>, literals: seq<string>, argv: string, pid: string)
    ensures (var g := FdScan(entries, ownPid, patterns, literals).users.groups;
             argv in g && pid in g[argv].pids) <==>
            exists k :: 0 <= k < |entries| && FdUser(entries[k], ownPid, patterns, literals) &&
              ProgArgs(entries[k].cmdline) == Some(argv) && PidOf(entries[k].dir) == pid
  {
    var obs := FdOutcomes(entries, ownPid, patterns, literals);
    TallyKeys(obs);
    forall k | 0 <= k < |entries|
      ensures (obs[k].Found? && obs[k].argv == argv && obs[k].pid == pid) <==>
              FdUser(entries[k], ownPid, patterns, literals) &&
              ProgArgs(entries[k].cmdline) == Some(argv) && PidOf(entries[k].dir) == pid
    {
      assert obs[k] == FdObservation(entries[k], ownPid, patterns, literals);
    }
    if HasPid(obs, argv, pid) {
      TallyPids(obs, argv, pid);
    }
    if argv in Tally(obs).users.groups {
      TallyPids(obs, argv, pid);
    }
  }

  /** A file is listed under a command line exactly when some recorded
      process with that command line kept it. */
  lemma FdScanFiles(entries: seq<FdEntry>, ownPid: string, patterns: seq<string>, literals: seq<string>, argv: string, x: string)
    ensures (var g := FdScan(entries, ownPid, patterns, literals).users.groups;
             argv in g && x in g[argv].items) <==>
            exists k :: 0 <= k < |entries| && FdUser(entries[k], ownPid, patterns, literals) &&
              ProgArgs(entries[k].cmdline) == Some(argv) && x in DeletedFiles(entries[k].links, patterns, literals).value
  {
    var obs := FdOutcomes(entries, ownPid, patterns, literals);
    TallyKeys(obs);
    forall k | 0 <= k < |entries|
      ensures (obs[k].Found? && obs[k].argv == argv && x in obs[k].items) <==>
              FdUser(entries[k], ownPid, patterns, literals) &&
              ProgArgs(entries[k].cmdline) == Some(argv) && x in DeletedFiles(entries[k].links, patterns, literals).value
    {
      assert obs[k] == FdObservation(entries[k], ownPid, patterns, literals);
    }
    ItemHasArgv(obs, argv, x);
    if argv in Tally(obs).users.groups {
      TallyItems(obs, argv, x);
    }
  }
}
