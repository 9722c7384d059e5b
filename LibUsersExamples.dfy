/** The mapping tables of lib_users' test suite (test_libusers.py), and
    what reading them yields.
    Lemmas take their test strings as parameters fixed by `requires x ==
    "..."` rather than as literals in their bodies: the verifier expands
    functions applied to literals eagerly, and this keeps it from expanding
    every string operation on the long test strings. */
module LibUsersExamples {
  import opened Wrappers
  import opened Text
  import opened LibUsers

  /** Address, permissions, offset, device and inode of the test mappings. */
  const ShmFields: string := "7f02a4202000-7f02a6202000" + " rw-s 00000000 00:04 425984 "
  const AioFields: string := "7fbb00535000-7fbb00556000" + " rw-s 00000000 00:0a 13493193 "
  const LibFields: string := "7f02a85f1000-7f02a85f2000" + " rw-p 0000c000 09:01 32642 "

  /** Shared memory, /dev/zero, DRM and asynchronous I/O mappings are no
      libraries. */
  lemma NonLibsIgnored(lines: seq<string>, paths: seq<string>, deny: Denylist)
    requires paths == ["/SYSV00000000", "/dev/zero", "/dev/shm/foo", "/drm", "/[aio]"]
    requires lines == [MapsLine(ShmFields, paths[0]), MapsLine(ShmFields, paths[1]),
                       MapsLine(ShmFields, paths[2]), MapsLine(ShmFields, paths[3]),
                       MapsLine(AioFields, paths[4])]
    requires deny == Builtin
    ensures DeletedLibs(lines, deny) == Ok({})
  {
    var pres := [ShmFields, ShmFields, ShmFields, ShmFields, AioFields];
    assert Graphic(paths[0]) && Graphic(paths[1]) && Graphic(paths[2]);
    assert Graphic(paths[3]) && Graphic(paths[4]);
    GraphicWord(paths[0]);
    GraphicWord(paths[1]);
    GraphicWord(paths[2]);
    GraphicWord(paths[3]);
    GraphicWord(paths[4]);
    UsualLayoutTable(lines, pres, paths, deny);
    NoneKept(paths, deny);
  }

  lemma NoneKept(paths: seq<string>, deny: Denylist)
    requires paths == ["/SYSV00000000", "/dev/zero", "/dev/shm/foo", "/drm", "/[aio]"]
    requires deny == Builtin
    ensures (set p | p in paths && IsLib(p, deny)) == {}
  {
    BuiltinKept(paths[0]);
    BuiltinKept(paths[2]);
    assert !IsLib(paths[0], deny) && !IsLib(paths[2], deny);
    assert paths[1] in deny.literals && paths[3] in deny.literals && paths[4] in deny.literals;
  }

  /** A one-line table whose line names nothing yields nothing. */
  lemma NothingNamed(line: string, deny: Denylist)
    requires LineCandidate(line) == Ok(None)
    ensures DeletedLibs([line], deny) == Ok({})
  {
    var cands := Candidates([line]);
    assert cands[0] == Ok(None);
    assert cands[..0] == [];
    assert KeepLibs(cands[..0], deny) == Ok({});
  }

  /** The same paths nested below /lib are libraries: the patterns only
      match at the start, and the literals only whole paths. */
  lemma LibsWithPatterns(lines: seq<string>, paths: seq<string>, deny: Denylist)
    requires paths == ["/lib/SYSV00000000", "/lib/dev/zero", "/lib/dev/shm/foo", "/lib/drm", "/lib/[aio]"]
    requires lines == [MapsLine(ShmFields, paths[0]), MapsLine(ShmFields, paths[1]),
                       MapsLine(ShmFields, paths[2]), MapsLine(ShmFields, paths[3]),
                       MapsLine(ShmFields, paths[4])]
    requires deny == Builtin
    ensures DeletedLibs(lines, deny) == Ok(set p | p in paths)
  {
    var pres := [ShmFields, ShmFields, ShmFields, ShmFields, ShmFields];
    NestedPaths(paths);
    UsualLayoutTable(lines, pres, paths, deny);
    AllKept(paths, deny);
  }

  lemma NestedPaths(paths: seq<string>)
    requires paths == ["/lib/SYSV00000000", "/lib/dev/zero", "/lib/dev/shm/foo", "/lib/drm", "/lib/[aio]"]
    ensures forall k :: 0 <= k < |paths| ==> IsWord(paths[k]) && |paths[k]| > 1 && paths[k][1] == 'l'
  {
    assert Graphic(paths[0]) && Graphic(paths[1]) && Graphic(paths[2]);
    assert Graphic(paths[3]) && Graphic(paths[4]);
    GraphicWord(paths[0]);
    GraphicWord(paths[1]);
    GraphicWord(paths[2]);
    GraphicWord(paths[3]);
    GraphicWord(paths[4]);
  }

  /** A path whose second character is `l` is kept by the shipped lists. */
  lemma NestedKept(p: string)
    requires |p| > 1 && p[1] == 'l'
    ensures IsLib(p, Builtin)
  {
    BuiltinKept(p);
    DiffersAt(p, "/SYSV", 1);
    DiffersAt(p, "/dev/shm/", 1);
    DiffersAt(p, "/tmp/orcexec.", 1);
  }

  lemma AllKept(paths: seq<string>, deny: Denylist)
    requires forall k :: 0 <= k < |paths| ==> |paths[k]| > 1 && paths[k][1] == 'l'
    requires deny == Builtin
    ensures (set p | p in paths && IsLib(p, deny)) == set p | p in paths
  {
    forall p | p in paths
      ensures IsLib(p, deny)
    {
      NestedKept(p);
    }
  }

  lemma FindmePath(path: string)
    requires path == "/lib64/libfindme.so"
    ensures IsWord(path) && |path| > 1 && path[1] == 'l'
  {
  }

  /** A one-line table in the usual layout naming a library yields that
      library. */
  lemma OneLib(line: string, pre: string, path: string, deny: Denylist)
    requires line == MapsLine(pre, path) && FieldsBefore(pre) && IsWord(path)
    requires IsLib(path, deny)
    ensures DeletedLibs([line], deny) == Ok({path})
  {
    CommonLayout(pre, path);
    var cands := Candidates([line]);
    assert cands[0] == Ok(Some(path));
    assert cands[..0] == [];
    assert KeepLibs(cands[..0], deny) == Ok({});
    assert {} + {path} == {path};
  }

  /** The classic layout of a deleted library. */
  lemma FindLibs(line: string, path: string, deny: Denylist)
    requires path == "/lib64/libfindme.so"
    requires line == MapsLine(LibFields, path)
    requires deny == Builtin
    ensures DeletedLibs([line], deny) == Ok({path})
  {
    FindmePath(path);
    NestedKept(path);
    assert FieldsBefore(LibFields);
    OneLib(line, LibFields, path, deny);
  }

  /** The last field of a near miss: blank-free, and neither starting nor
      ending with the marker. */
  predicate NearMiss(last: string)
  {
    IsWord(last) && !StartsWith(last, Marker) && !EndsWith(last, Marker)
  }

  lemma NearMissTable(pre: string, last: string)
    requires FieldsBefore(pre) && NearMiss(last)
    ensures DeletedLibs([pre + last], Builtin) == Ok({})
  {
    UnmarkedLine(pre, last);
    NothingNamed(pre + last, Builtin);
  }

  /** The marker before the path, in the middle of the path, or
      misspelt after it: nothing is found. */
  lemma WrongOrder(pre: string, last: string)
    requires pre == "7f02a85fc000-7f02a87fb000" + " ---p 0000a000 09:01 32647 (deleted) "
    requires last == "/lib64/libdontfindme.so"
    ensures DeletedLibs([pre + last], Builtin) == Ok({})
  {
    assert FieldsBefore(pre);
    assert Graphic(last);
    GraphicWord(last);
    DiffersAt(last, Marker, 0);
    assert !StartsWith(last, Marker);
    assert !EndsWith(last, Marker);
    NearMissTable(pre, last);
  }

  /** A blank-free last field in two pieces that starts and ends with
      characters other than the marker's names nothing. */
  lemma TwoPieceNearMiss(pre: string, head: string, tail: string)
    requires FieldsBefore(pre) && IsWord(head) && IsWord(tail)
    requires head[0] != Marker[0] && tail[|tail| - 1] != Marker[|Marker| - 1]
    ensures DeletedLibs([pre + (head + tail)], Builtin) == Ok({})
  {
    var last := head + tail;
    NoSpaceConcat(head, tail);
    assert last[0] == head[0];
    DiffersAt(last, Marker, 0);
    assert last[|last| - 1] == tail[|tail| - 1];
    LastDiffers(last, Marker);
    NearMissTable(pre, last);
  }

  lemma MarkerInsidePath(pre: string, head: string, tail: string)
    requires pre == "7f02a87fc000-7f02a87fd000" + " rw-p 0000a000 09:01 32647 "
    requires head == "/lib64/libdontfindme" && tail == "either_(deleted)i-2.11.2.so"
    ensures DeletedLibs([pre + (head + tail)], Builtin) == Ok({})
  {
    assert FieldsBefore(pre);
    assert Graphic(head) && Graphic(tail);
    GraphicWord(head);
    GraphicWord(tail);
    TwoPieceNearMiss(pre, head, tail);
  }

  lemma LongerMarker(pre: string, last: string)
    requires pre == "7f02a87fc000-7f02a87fd000" + " rw-p 0000a000 09:01 32647 /lib64/libdontfindmeeither-2.11.2.so "
    requires last == "(notdeleted)"
    ensures DeletedLibs([pre + last], Builtin) == Ok({})
  {
    assert FieldsBefore(pre);
    assert Graphic(last);
    GraphicWord(last);
    DiffersAt(last, Marker, 1);
    assert !StartsWith(last, Marker);
    assert !EndsWith(last, Marker);
    NearMissTable(pre, last);
  }

  lemma ShorterMarker(pre: string, last: string)
    requires pre == "7f02a87fc000-7f02a87fd000" + " rw-p 0000a000 09:01 32647 /lib64/libdontfindmeeither-2.11.2.so "
    requires last == "(delete)"
    ensures DeletedLibs([pre + last], Builtin) == Ok({})
  {
    assert FieldsBefore(pre);
    assert Graphic(last);
    GraphicWord(last);
    assert !StartsWith(last, Marker);
    assert !EndsWith(last, Marker);
    NearMissTable(pre, last);
  }
}
