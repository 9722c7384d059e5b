/** lib_users.py: which deleted files a process's mapping table
    (/proc/<pid>/maps) names as libraries, the command-line resolver of
    this scanner, and its main loop over all processes. */
module LibUsers {
  import opened Wrappers
  import opened Text
  import opened Glob
  import opened Common

  // ---------------------------------------------------------------------
  // Mappings that are not libraries

  /** What the kernel appends to the path of a mapping whose file is gone. */
  const Marker: string := "(deleted)"

  /** Paths that are not true libraries: `patterns` are compared with
      fnmatch, `literals` literally. */
  datatype Denylist = Denylist(patterns: set<string>, literals: set<string>)

  /** NOLIBSPT and NOLIBSNP as shipped. */
  const Builtin: Denylist :=
    Denylist({"/SYSV*", "/dev/shm/*", "/tmp/orcexec.*"}, {"/dev/zero", "/drm", "object", "/[aio]"})

  /** The lists after the --ignore-pattern and --ignore-literal values
      have been added to them. */
  function Extended(d: Denylist, patterns: seq<string>, literals: seq<string>): Denylist
  {
    Denylist(d.patterns + (set p | p in patterns), d.literals + (set l | l in literals))
  }

  /** A path counts as a library when no pattern matches it and it is none
      of the literals. */
  predicate IsLib(lib: string, deny: Denylist)
  {
    && (forall p :: p in deny.patterns ==> !Fnmatch(lib, p))
    && lib !in deny.literals
  }

  /** The shipped lists in plain words: the three patterns are prefixes
      followed by `*`, so they reject exactly the paths with those
      prefixes; the literals reject themselves. */
  lemma BuiltinKept(lib: string)
    ensures IsLib(lib, Builtin) <==>
              && !StartsWith(lib, "/SYSV")
              && !StartsWith(lib, "/dev/shm/")
              && !StartsWith(lib, "/tmp/orcexec.")
              && lib !in {"/dev/zero", "/drm", "object", "/[aio]"}
  {
    assert "/SYSV" + "*" == "/SYSV*";
    assert "/dev/shm/" + "*" == "/dev/shm/*";
    assert "/tmp/orcexec." + "*" == "/tmp/orcexec.*";
    PrefixStarMatch(lib, "/SYSV");
    PrefixStarMatch(lib, "/dev/shm/");
    PrefixStarMatch(lib, "/tmp/orcexec.");
  }

  /** "/[aio]" is a literal, not a character class: the path "/[aio]" is
      rejected while "/a", which the pattern would match, is kept. */
  lemma AioIsLiteral()
    ensures IsLib("/a", Builtin)
    ensures !IsLib("/[aio]", Builtin)
  {
    BuiltinKept("/a");
  }

  /** Adding patterns and literals only ever rejects more paths, and a
      path survives the extended lists iff it survives the old ones and
      none of the additions. */
  lemma ExtendedRejectsMore(lib: string, d: Denylist, patterns: seq<string>, literals: seq<string>)
    ensures IsLib(lib, Extended(d, patterns, literals)) <==>
              && IsLib(lib, d)
              && (forall i :: 0 <= i < |patterns| ==> !Fnmatch(lib, patterns[i]))
              && (forall i :: 0 <= i < |literals| ==> lib != literals[i])
  {
    var e := Extended(d, patterns, literals);
    if IsLib(lib, e) {
      forall i | 0 <= i < |patterns|
        ensures !Fnmatch(lib, patterns[i])
      {
        assert patterns[i] in e.patterns;
      }
      forall i | 0 <= i < |literals|
        ensures lib != literals[i]
      {
        assert literals[i] in e.literals;
      }
    }
  }

  // ---------------------------------------------------------------------
  // One line of a mapping table

  /** get_deleted_libs on one line: the line is stripped; when it ends
      with the marker the path is its next-to-last field, otherwise, when
      its last field starts with the marker (the OpenVZ layout), the path
      is the rest of that field; any other line names nothing.  A line
      with too few fields for the index raises IndexError. */
  function LineCandidate(line: string): (r: Result<Option<string>, PyError>)
    ensures r.Ok? && r.value.Some? ==> NoSpace(r.value.value)
  {
    var l := Strip(line);
    var fields := Words(l);
    if EndsWith(l, Marker) then
      if |fields| < 2 then Err(IndexError) else Ok(Some(fields[|fields| - 2]))
    else if |fields| == 0 then Err(IndexError)
    else if StartsWith(fields[|fields| - 1], Marker) then Ok(Some(fields[|fields| - 1][|Marker|..]))
    else Ok(None)
  }

  /** The fields before the path: nothing, or text that starts with a
      non-blank and ends with a blank. */
  predicate FieldsBefore(pre: string)
  {
    pre == [] || (!IsSpace(pre[0]) && IsSpace(pre[|pre| - 1]))
  }

  /** The usual layout of a mapping of a deleted file. */
  function MapsLine(pre: string, path: string): string
  {
    pre + path + " " + Marker
  }

  lemma MarkerIsWord()
    ensures IsWord(Marker)
  {
  }

  lemma EndsWithConcat(a: string, b: string, x: string)
    requires |x| <= |b|
    ensures EndsWith(a + b, x) <==> EndsWith(b, x)
  {
    assert (a + b)[|a + b| - |x|..] == b[|b| - |x|..];
  }

  /** A text with a blank among its last |x| characters does not end with
      the blank-free `x`. */
  lemma BlankBeforeEnd(s: string, x: string, j: nat)
    requires NoSpace(x) && |s| - |x| <= j < |s| && IsSpace(s[j])
    ensures !EndsWith(s, x)
  {
    if |x| <= |s| {
      var i := j - (|s| - |x|);
      assert s[|s| - |x|..][i] == s[j];
      assert !IsSpace(x[i]);
    }
  }

  /** `pre + w` splits into the fields of `pre` and then `w`. */
  lemma WordsAfterFields(pre: string, w: string)
    requires FieldsBefore(pre) && IsWord(w)
    ensures |Words(pre + w)| >= 1 && Words(pre + w)[|Words(pre + w)| - 1] == w
  {
    if pre == [] {
      assert pre + w == w;
      WordsOfWord(w);
    } else {
      var a, c := pre[..|pre| - 1], pre[|pre| - 1];
      assert pre + w == a + [c] + w;
      WordsSnoc(a, c, w);
    }
  }

  /** The usual layout yields its path. */
  lemma CommonLayout(pre: string, path: string)
    requires FieldsBefore(pre) && IsWord(path)
    ensures LineCandidate(MapsLine(pre, path)) == Ok(Some(path))
  {
    var line := MapsLine(pre, path);
    assert line[0] == (if pre == [] then path[0] else pre[0]);
    StripUnchanged(line);
    assert EndsWith(line, Marker);
    MarkerIsWord();
    assert line == (pre + path) + [' '] + Marker;
    WordsSnoc(pre + path, ' ', Marker);
    WordsAfterFields(pre, path);
  }

  /** A line of fields followed by a last field has nothing to strip. */
  lemma NothingToStrip(pre: string, last: string)
    requires FieldsBefore(pre) && IsWord(last)
    ensures Strip(pre + last) == pre + last
  {
    var line := pre + last;
    assert line[|line| - 1] == last[|last| - 1];
    assert line[0] == (if pre == [] then last[0] else pre[0]);
    StripUnchanged(line);
  }

  lemma MarkedField(path: string)
    requires NoSpace(path)
    ensures IsWord(Marker + path)
    ensures StartsWith(Marker + path, Marker) && (Marker + path)[|Marker|..] == path
  {
    MarkerIsWord();
    NoSpaceConcat(Marker, path);
    assert (Marker + path)[..|Marker|] == Marker;
  }

  /** A line that does not end with the marker and whose last field starts
      with it yields the rest of that field. */
  lemma MarkedLastField(line: string, w: string)
    requires Strip(line) == line && !EndsWith(line, Marker)
    requires |Words(line)| >= 1 && Words(line)[|Words(line)| - 1] == w
    requires StartsWith(w, Marker)
    ensures LineCandidate(line) == Ok(Some(w[|Marker|..]))
  {
  }

  /** A line of fields whose last field starts, but does not end, with the
      marker yields the rest of that field. */
  lemma MarkedAfterFields(pre: string, last: string)
    requires FieldsBefore(pre) && IsWord(last)
    requires StartsWith(last, Marker) && !EndsWith(last, Marker)
    ensures LineCandidate(pre + last) == Ok(Some(last[|Marker|..]))
  {
    var line := pre + last;
    assert Strip(line) == line by {
      NothingToStrip(pre, last);
    }
    assert !EndsWith(line, Marker) by {
      EndsWithConcat(pre, last, Marker);
    }
    assert |Words(line)| >= 1 && Words(line)[|Words(line)| - 1] == last by {
      WordsAfterFields(pre, last);
    }
    MarkedLastField(line, last);
  }

  /** The OpenVZ layout, where the marker is glued to the front of the
      path, yields the path. */
  lemma OpenVZLayout(pre: string, path: string)
    requires FieldsBefore(pre) && NoSpace(path)
    requires !EndsWith(Marker + path, Marker)
    ensures LineCandidate(pre + Marker + path) == Ok(Some(path))
  {
    var last := Marker + path;
    assert pre + Marker + path == pre + last;
    MarkedField(path);
    MarkedAfterFields(pre, last);
  }

  /** A line whose last field neither starts nor ends with the marker
      names nothing, whatever comes before it. */
  lemma UnmarkedLine(pre: string, last: string)
    requires FieldsBefore(pre) && IsWord(last)
    requires !StartsWith(last, Marker) && !EndsWith(last, Marker)
    ensures LineCandidate(pre + last) == Ok(None)
  {
    NothingToStrip(pre, last);
    WordsAfterFields(pre, last);
    UnmarkedEnd(pre, last);
  }

  lemma UnmarkedEnd(pre: string, last: string)
    requires FieldsBefore(pre) && IsWord(last) && !EndsWith(last, Marker)
    ensures !EndsWith(pre + last, Marker)
  {
    if |last| >= |Marker| {
      EndsWithConcat(pre, last, Marker);
    } else if pre != [] {
      MarkerIsWord();
      assert IsSpace((pre + last)[|pre| - 1]);
      BlankBeforeEnd(pre + last, Marker, |pre| - 1);
    }
  }

  /** A blank line, or a line that is only the marker, raises IndexError
      instead of being skipped. */
  lemma MalformedLines(line: string)
    requires forall i :: 0 <= i < |line| ==> IsSpace(line[i])
    ensures LineCandidate(line) == Err(IndexError)
    ensures LineCandidate(Marker) == Err(IndexError)
  {
    assert Strip(line) == [];
    StripUnchanged(Marker);
    MarkerIsWord();
    WordsOfWord(Marker);
  }

  // ---------------------------------------------------------------------
  // A whole mapping table

  /** What each line names, in order. */
  function Candidates(lines: seq<string>): (r: seq<Result<Option<string>, PyError>>)
    ensures |r| == |lines|
  {
    seq(|lines|, k requires 0 <= k < |lines| => LineCandidate(lines[k]))
  }

  /** The libraries among the candidates, or the first IndexError. */
  function KeepLibs(cands: seq<Result<Option<string>, PyError>>, deny: Denylist): (r: Result<set<string>, PyError>)
    ensures r.Ok? <==> forall k :: 0 <= k < |cands| ==> cands[k].Ok?
    decreases |cands|
  {
    if |cands| == 0 then Ok({})
    else
      var init := cands[..|cands| - 1];
      assert forall k :: 0 <= k < |init| ==> init[k] == cands[k];
      match KeepLibs(init, deny)
      case Err(e) => Err(e)
      case Ok(libs) =>
        match cands[|cands| - 1]
        case Err(e) => Err(e)
        case Ok(None) => Ok(libs)
        case Ok(Some(lib)) => Ok(if IsLib(lib, deny) then libs + {lib} else libs)
  }

  /** get_deleted_libs: the set of deleted library paths the lines name,
      or the IndexError of the first malformed line. */
  function DeletedLibs(lines: seq<string>, deny: Denylist): Result<set<string>, PyError>
  {
    KeepLibs(Candidates(lines), deny)
  }

  /** The set holds exactly the candidates that are libraries. */
  lemma {:induction false} KeepLibsMembers(cands: seq<Result<Option<string>, PyError>>, deny: Denylist, lib: string)
    requires KeepLibs(cands, deny).Ok?
    ensures lib in KeepLibs(cands, deny).value <==>
              exists k :: 0 <= k < |cands| && cands[k] == Ok(Some(lib)) && IsLib(lib, deny)
    decreases |cands|
  {
    if |cands| > 0 {
      var init, last := cands[..|cands| - 1], cands[|cands| - 1];
      assert cands == init + [last];
      KeepLibsMembers(init, deny, lib);
      assert forall k :: 0 <= k < |init| ==> init[k] == cands[k];
    }
  }

  /** A table is read without error iff none of its lines is malformed,
      and then holds exactly the paths its lines name that are libraries. */
  lemma DeletedLibsMembers(lines: seq<string>, deny: Denylist, lib: string)
    ensures DeletedLibs(lines, deny).Ok? <==> forall k :: 0 <= k < |lines| ==> LineCandidate(lines[k]).Ok?
    ensures DeletedLibs(lines, deny).Ok? ==>
              (lib in DeletedLibs(lines, deny).value <==>
                 exists k :: 0 <= k < |lines| && LineCandidate(lines[k]) == Ok(Some(lib)) && IsLib(lib, deny))
  {
    var cands := Candidates(lines);
    assert forall k :: 0 <= k < |lines| ==> cands[k] == LineCandidate(lines[k]);
    if DeletedLibs(lines, deny).Ok? {
      KeepLibsMembers(cands, deny, lib);
    }
  }

  /** Reading one more candidate. */
  lemma KeepStep(cands: seq<Result<Option<string>, PyError>>, i: nat, deny: Denylist, libs: set<string>)
    requires i < |cands| && KeepLibs(cands[..i], deny) == Ok(libs)
    ensures cands[i].Err? ==> KeepLibs(cands, deny) == Err(cands[i].error)
    ensures cands[i] == Ok(None) ==> KeepLibs(cands[..i + 1], deny) == Ok(libs)
    ensures cands[i].Ok? && cands[i].value.Some? ==>
              KeepLibs(cands[..i + 1], deny) ==
                Ok(if IsLib(cands[i].value.value, deny) then libs + {cands[i].value.value} else libs)
  {
    assert cands[..i + 1][..i] == cands[..i];
    assert cands[..i + 1][i] == cands[i];
    if cands[i].Err? {
      assert !KeepLibs(cands, deny).Ok?;
      assert KeepLibs(cands, deny).error.IndexError? && cands[i].error.IndexError?;
    }
  }

  /** get_deleted_libs, line by line. */
  method GetDeletedLibs(lines: seq<string>, deny: Denylist) returns (r: Result<set<string>, PyError>)
    ensures r == DeletedLibs(lines, deny)
  {
    ghost var cands := Candidates(lines);
    var deleted: set<string> := {};
    for i := 0 to |lines|
      invariant KeepLibs(cands[..i], deny) == Ok(deleted)
    {
      var c := LineCandidate(lines[i]);
      assert c == cands[i];
      KeepStep(cands, i, deny, deleted);
      match c {
        case Err(e) =>
          return Err(e);
        case Ok(None) =>
        case Ok(Some(lib)) =>
          if IsLib(lib, deny) {
            deleted := deleted + {lib};
          }
      }
    }
    assert cands[..|lines|] == cands;
    return Ok(deleted);
  }

  /** A table of well-formed lines yields the set of their paths that are
      libraries. */
  lemma WellFormedTable(lines: seq<string>, paths: seq<string>, deny: Denylist)
    requires |lines| == |paths|
    requires forall k :: 0 <= k < |lines| ==> LineCandidate(lines[k]) == Ok(Some(paths[k]))
    ensures DeletedLibs(lines, deny) == Ok(set p | p in paths && IsLib(p, deny))
  {
    var cands := Candidates(lines);
    assert forall k :: 0 <= k < |lines| ==> cands[k] == Ok(Some(paths[k]));
    KeepAll(cands, paths, deny);
  }

  lemma {:induction false} KeepAll(cands: seq<Result<Option<string>, PyError>>, paths: seq<string>, deny: Denylist)
    requires |cands| == |paths|
    requires forall k :: 0 <= k < |cands| ==> cands[k] == Ok(Some(paths[k]))
    ensures KeepLibs(cands, deny) == Ok(set p | p in paths && IsLib(p, deny))
    decreases |cands|
  {
    if |cands| == 0 {
      assert paths == [];
      assert (set p | p in paths && IsLib(p, deny)) == {};
    } else {
      var n := |cands| - 1;
      KeepAll(cands[..n], paths[..n], deny);
      var before := set p | p in paths[..n] && IsLib(p, deny);
      assert paths == paths[..n] + [paths[n]];
      assert KeepLibs(cands[..n], deny) == Ok(before);
      assert cands[n] == Ok(Some(paths[n]));
      if IsLib(paths[n], deny) {
        assert KeepLibs(cands, deny) == Ok(before + {paths[n]});
        assert (set p | p in paths && IsLib(p, deny)) == before + {paths[n]};
      } else {
        assert KeepLibs(cands, deny) == Ok(before);
        assert (set p | p in paths && IsLib(p, deny)) == before;
      }
    }
  }

  /** A table in the usual layout yields the paths that are libraries. */
  lemma UsualLayoutTable(lines: seq<string>, pres: seq<string>, paths: seq<string>, deny: Denylist)
    requires |lines| == |pres| == |paths|
    requires forall k :: 0 <= k < |lines| ==>
               lines[k] == MapsLine(pres[k], paths[k]) && FieldsBefore(pres[k]) && IsWord(paths[k])
    ensures DeletedLibs(lines, deny) == Ok(set p | p in paths && IsLib(p, deny))
  {
    forall k | 0 <= k < |lines|
      ensures LineCandidate(lines[k]) == Ok(Some(paths[k]))
    {
      CommonLayout(pres[k], paths[k]);
    }
    WellFormedTable(lines, paths, deny);
  }


  // ---------------------------------------------------------------------
  // The command line, as this scanner resolves it

  function StripAll(xs: seq<string>): (r: seq<string>)
    ensures |r| == |xs| && forall k :: 0 <= k < |xs| ==> r[k] == Strip(xs[k])
  {
    seq(|xs|, k requires 0 <= k < |xs| => Strip(xs[k]))
  }

  lemma StripAllAvoids(xs: seq<string>, c: char)
    requires forall k :: 0 <= k < |xs| ==> c !in xs[k]
    ensures forall k :: 0 <= k < |xs| ==> c !in StripAll(xs)[k]
  {
    forall k | 0 <= k < |xs|
      ensures c !in StripAll(xs)[k]
    {
      StripAvoids(xs[k], c);
    }
  }

  /** get_progargs of lib_users.py, given what reading the cmdline file
      produced (None for an IOError): the NUL-separated pieces, each
      stripped, joined with single spaces. */
  function LibProgArgs(cmdline: Option<string>): (r: Option<string>)
    ensures r.Some? <==> cmdline.Some?
  {
    match cmdline
    case None => None
    case Some(s) => Some(Join(" ", StripAll(SplitOn(s, NUL))))
  }

  /** The command line holds no NUL any more. */
  lemma LibProgArgsNoNul(s: string)
    ensures NUL !in LibProgArgs(Some(s)).value
  {
    var pieces := SplitOn(s, NUL);
    StripAllAvoids(pieces, NUL);
    JoinAvoids(" ", StripAll(pieces), NUL);
  }

  /** When no argument has blanks at its ends, this resolver agrees with
      the shared one, which only turns NULs into spaces. */
  lemma LibProgArgsAgrees(s: string)
    requires forall k :: 0 <= k < |SplitOn(s, NUL)| ==> Strip(SplitOn(s, NUL)[k]) == SplitOn(s, NUL)[k]
    ensures LibProgArgs(Some(s)) == ProgArgs(Some(s))
  {
    var pieces := SplitOn(s, NUL);
    assert StripAll(pieces) == pieces;
    JoinSplitIsReplace(s, NUL, ' ');
    assert " " == [' '];
  }

  /** Two arguments: each is stripped before they are joined, where the
      shared resolver keeps their blanks (so "a \0b" gives "a b" here and
      "a  b" there). */
  lemma LibProgArgsTwo(a: string, b: string)
    requires NUL !in a && NUL !in b
    ensures LibProgArgs(Some(a + [NUL] + b)) == Some(Strip(a) + " " + Strip(b))
  {
    TwoPieces(a, b);
    StripTwo(a, b);
    JoinTwo(Strip(a), Strip(b));
  }

  lemma TwoPieces(a: string, b: string)
    requires NUL !in a && NUL !in b
    ensures SplitOn(a + [NUL] + b, NUL) == [a, b]
  {
    SplitOnCons(a, NUL, b);
    SplitOnNoSep(b, NUL);
  }

  lemma StripTwo(a: string, b: string)
    ensures StripAll([a, b]) == [Strip(a), Strip(b)]
  {
    var r := StripAll([a, b]);
    assert [a, b][0] == a && [a, b][1] == b;
    assert r[0] == Strip(a) && r[1] == Strip(b);
    PairIs(r);
  }

  lemma PairIs(r: seq<string>)
    requires |r| == 2
    ensures r == [r[0], r[1]]
  {
  }

  lemma JoinTwo(x: string, y: string)
    ensures Join(" ", [x, y]) == x + " " + y
  {
    assert [x, y][1..] == [y];
  }

  // ---------------------------------------------------------------------
  // The main loop

  /** What reading /proc/<pid>/maps produced: it could not be opened, or
      these lines were read, `failed` telling whether reading then stopped
      with an IOError. */
  datatype MapsRead = Unopenable | Read(lines: seq<string>, failed: bool)

  /** One file the /proc/<pid>/maps glob matched: its (normalised) path, what reading it
      produced, and what reading the process's cmdline produced. */
  datatype MapsEntry = MapsEntry(path: string, maps: MapsRead, cmdline: Option<string>)

  /** What one iteration of main contributes: an unopenable table is
      skipped silently; a read that fails sets the flag; a table naming
      deleted libraries records the pid under its command line unless
      that is empty or unreadable.  An IndexError ends the program. */
  function LibObservation(e: MapsEntry, deny: Denylist): (r: Result<Observation, PyError>)
    ensures r.Err? <==> e.maps.Read? && DeletedLibs(e.maps.lines, deny).Err?
  {
    match e.maps
    case Unopenable => Ok(Skipped)
    case Read(lines, failed) =>
      match DeletedLibs(lines, deny)
      case Err(x) => Err(x)
      case Ok(libs) =>
        if failed then Ok(Unreadable)
        else if |libs| == 0 then Ok(Skipped)
        else
          var argv := LibProgArgs(e.cmdline);
          if Truthy(argv) then Ok(Found(PidOf(e.path), argv.value, libs)) else Ok(Skipped)
  }

  /** The values of the results in order, or the first error. */
  function AllOk<T>(rs: seq<Result<T, PyError>>): (r: Result<seq<T>, PyError>)
    ensures r.Ok? <==> forall k :: 0 <= k < |rs| ==> rs[k].Ok?
    ensures r.Ok? ==> |r.value| == |rs| && forall k :: 0 <= k < |rs| ==> r.value[k] == rs[k].value
    decreases |rs|
  {
    if |rs| == 0 then Ok([])
    else
      var init := rs[..|rs| - 1];
      assert forall k :: 0 <= k < |init| ==> init[k] == rs[k];
      match AllOk(init)
      case Err(x) => Err(x)
      case Ok(vs) =>
        match rs[|rs| - 1]
        case Err(x) => Err(x)
        case Ok(v) => Ok(vs + [v])
  }

  function Outcomes(entries: seq<MapsEntry>, deny: Denylist): (r: seq<Result<Observation, PyError>>)
    ensures |r| == |entries|
  {
    seq(|entries|, k requires 0 <= k < |entries| => LibObservation(entries[k], deny))
  }

  /** The observations of the entries in order, or the first error. */
  function Observations(entries: seq<MapsEntry>, deny: Denylist): Result<seq<Observation>, PyError>
  {
    AllOk(Outcomes(entries, deny))
  }

  /** main's users and read_failure at the end of the loop, or the error
      that ended it. */
  function LibScan(entries: seq<MapsEntry>, deny: Denylist): Result<Scan, PyError>
  {
    match Observations(entries, deny)
    case Err(x) => Err(x)
    case Ok(obs) => Ok(Tally(obs))
  }

  lemma AllOkStep<T>(rs: seq<Result<T, PyError>>, i: nat, vs: seq<T>)
    requires i < |rs| && AllOk(rs[..i]) == Ok(vs)
    ensures rs[i].Err? ==> AllOk(rs) == Err(IndexError)
    ensures rs[i].Ok? ==> AllOk(rs[..i + 1]) == Ok(vs + [rs[i].value])
  {
    assert rs[..i + 1][..i] == rs[..i];
    assert rs[..i + 1][i] == rs[i];
    if rs[i].Err? {
      assert !AllOk(rs).Ok?;
      assert AllOk(rs).error.IndexError?;
    }
  }

  /** The body of main's loop for one mapping table. */
  method ScanEntry(entry: MapsEntry, deny: Denylist, sc: Scan) returns (r: Result<Scan, PyError>)
    requires Valid(sc.users)
    ensures LibObservation(entry, deny).Err? ==> r == Err(IndexError)
    ensures LibObservation(entry, deny).Ok? ==> r == Ok(Observe(sc, LibObservation(entry, deny).value))
  {
    var pid := PidOf(entry.path);
    if entry.maps.Unopenable? {
      assert LibObservation(entry, deny) == Ok(Skipped);
      return Ok(sc);
    }
    var libs := GetDeletedLibs(entry.maps.lines, deny);
    if libs.Err? {
      assert LibObservation(entry, deny).Err?;
      assert libs.error.IndexError?;
      return Err(libs.error);
    }
    if entry.maps.failed {
      assert LibObservation(entry, deny) == Ok(Unreadable);
      return Ok(Scan(sc.users, true));
    }
    if |libs.value| > 0 {
      var argv := LibProgArgs(entry.cmdline);
      if Truthy(argv) {
        var found := Found(pid, argv.value, libs.value);
        assert LibObservation(entry, deny) == Ok(found);
        return Ok(Observe(sc, found));
      }
    }
    assert LibObservation(entry, deny) == Ok(Skipped);
    return Ok(sc);
  }

  /** main: the loop over all mapping tables. */
  method ScanMaps(entries: seq<MapsEntry>, deny: Denylist) returns (r: Result<Scan, PyError>)
    ensures r == LibScan(entries, deny)
  {
    ghost var outcomes := Outcomes(entries, deny);
    var sc := Scan(NoUsers, false);
    ghost var obs: seq<Observation> := [];
    for i := 0 to |entries|
      invariant AllOk(outcomes[..i]) == Ok(obs)
      invariant Tally(obs) == sc
    {
      AllOkStep(outcomes, i, obs);
      assert outcomes[i] == LibObservation(entries[i], deny);
      var step := ScanEntry(entries[i], deny, sc);
      if step.Err? {
        return step;
      }
      TallySnoc(obs, outcomes[i].value);
      obs := obs + [outcomes[i].value];
      sc := step.value;
    }
    assert outcomes[..|entries|] == outcomes;
    return Ok(sc);
  }

  // ---------------------------------------------------------------------
  // What the scan reports

  /** A process main records: its table was read to the end, names some
      deleted library, and its command line is not empty. */
  predicate LibUser(e: MapsEntry, deny: Denylist)
  {
    && e.maps.Read? && !e.maps.failed
    && DeletedLibs(e.maps.lines, deny).Ok?
    && |DeletedLibs(e.maps.lines, deny).value| > 0
    && Truthy(LibProgArgs(e.cmdline))
  }

  /** The scan stops with an IndexError exactly when some table read holds
      a malformed line. */
  lemma LibScanFails(entries: seq<MapsEntry>, deny: Denylist)
    ensures LibScan(entries, deny).Err? <==>
            exists k :: 0 <= k < |entries| && entries[k].maps.Read? && DeletedLibs(entries[k].maps.lines, deny).Err?
  {
    var outcomes := Outcomes(entries, deny);
    assert forall k :: 0 <= k < |entries| ==> outcomes[k] == LibObservation(entries[k], deny);
  }

  /** The observation of each table, once the scan has not stopped. */
  lemma ScanObservations(entries: seq<MapsEntry>, deny: Denylist)
    requires Observations(entries, deny).Ok?
    ensures |Observations(entries, deny).value| == |entries|
    ensures forall k :: 0 <= k < |entries| ==> Ok(Observations(entries, deny).value[k]) == LibObservation(entries[k], deny)
  {
    var outcomes := Outcomes(entries, deny);
    assert forall k :: 0 <= k < |entries| ==> outcomes[k] == LibObservation(entries[k], deny);
  }

  /** The warning flag is raised exactly when reading some table failed. */
  lemma LibScanReadFailure(entries: seq<MapsEntry>, deny: Denylist)
    requires LibScan(entries, deny).Ok?
    ensures LibScan(entries, deny).value.readFailure <==>
            exists k :: 0 <= k < |entries| && entries[k].maps.Read? && entries[k].maps.failed
  {
    ScanObservations(entries, deny);
    var obs := Observations(entries, deny).value;
    TallyFlag(obs);
    forall k | 0 <= k < |entries|
      ensures obs[k].Unreadable? <==> entries[k].maps.Read? && entries[k].maps.failed
    {
      assert Ok(obs[k]) == LibObservation(entries[k], deny);
    }
  }

  /** A pid is listed under a command line exactly when some recorded
      process has that pid and that command line. */
  lemma LibScanPids(entries: seq<MapsEntry>, deny: Denylist, argv: string, pid: string)
    requires LibScan(entries, deny).Ok?
    ensures (var g := LibScan(entries, deny).value.users.groups;
             argv in g && pid in g[argv].pids) <==>
            exists k :: 0 <= k < |entries| && LibUser(entries[k], deny) &&
              LibProgArgs(entries[k].cmdline) == Some(argv) && PidOf(entries[k].path) == pid
  {
    ScanObservations(entries, deny);
    var obs := Observations(entries, deny).value;
    TallyKeys(obs);
    forall k | 0 <= k < |entries|
      ensures (obs[k].Found? && obs[k].argv == argv && obs[k].pid == pid) <==>
              LibUser(entries[k], deny) && LibProgArgs(entries[k].cmdline) == Some(argv) && PidOf(entries[k].path) == pid
    {
      assert Ok(obs[k]) == LibObservation(entries[k], deny);
    }
    if argv in Tally(obs).users.groups {
      TallyPids(obs, argv, pid);
    }
  }

  /** A library is listed under a command line exactly when some recorded
      process with that command line maps it. */
  lemma LibScanLibs(entries: seq<MapsEntry>, deny: Denylist, argv: string, lib: string)
    requires LibScan(entries, deny).Ok?
    ensures (var g := LibScan(entries, deny).value.users.groups;
             argv in g && lib in g[argv].items) <==>
            exists k :: 0 <= k < |entries| && LibUser(entries[k], deny) &&
              LibProgArgs(entries[k].cmdline) == Some(argv) && lib in DeletedLibs(entries[k].maps.lines, deny).value
  {
    ScanObservations(entries, deny);
    var obs := Observations(entries, deny).value;
    TallyKeys(obs);
    forall k | 0 <= k < |entries|
      ensures (obs[k].Found? && obs[k].argv == argv && lib in obs[k].items) <==>
              LibUser(entries[k], deny) && LibProgArgs(entries[k].cmdline) == Some(argv) &&
              lib in DeletedLibs(entries[k].maps.lines, deny).value
    {
      assert Ok(obs[k]) == LibObservation(entries[k], deny);
    }
    ItemHasArgv(obs, argv, lib);
    if argv in Tally(obs).users.groups {
      TallyItems(obs, argv, lib);
    }
  }
}
