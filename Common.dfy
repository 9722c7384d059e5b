/** The parts shared by both scanners (lib_users_util/common.py): the
    command-line resolver, the grouping of users by command line built by
    the main loops, the two report formats, the systemctl header parser and
    the grouping of pids by service unit. */
module Common {
  import opened Wrappers
  import opened Text
  import opened Order

  const NUL: char := '\0'

  // ---------------------------------------------------------------------
  // Command-line resolver

  /** get_progargs, given what reading /proc/<pid>/cmdline produced (None
      when the read failed): NUL separators become spaces. */
  function ProgArgs(cmdline: Option<string>): (r: Option<string>)
    ensures r.Some? <==> cmdline.Some?
    ensures r.Some? ==> |r.value| == |cmdline.value| && NUL !in r.value
    ensures r.Some? ==> forall i :: 0 <= i < |r.value| && cmdline.value[i] != NUL ==> r.value[i] == cmdline.value[i]
    ensures r.Some? ==> forall i :: 0 <= i < |r.value| && cmdline.value[i] == NUL ==> r.value[i] == ' '
  {
    match cmdline
    case None => None
    case Some(s) => Some(Replace(s, NUL, ' '))
  }

  /** Python's `if not argv`: None and "" are both false. */
  predicate Truthy(argv: Option<string>)
  {
    argv.Some? && argv.value != ""
  }

  /** The pid of a procfs path: its third '/'-separated piece
      ("/proc/<pid>/..." splits into "", "proc", "<pid>", ...), or
      "unknown" when there is none (the IndexError handler). */
  function PidOf(path: string): (pid: string)
    ensures '/' !in pid || pid == "unknown"
  {
    var parts := SplitOn(path, '/');
    if |parts| > 2 then parts[2] else "unknown"
  }

  lemma PidOfProcPath(pid: string, rest: string)
    requires '/' !in pid
    ensures PidOf("/proc/" + pid + "/" + rest) == pid
  {
    var path := "/proc/" + pid + "/" + rest;
    assert path == [] + ['/'] + ("proc" + ['/'] + (pid + ['/'] + rest));
    SplitOnCons([], '/', "proc" + ['/'] + (pid + ['/'] + rest));
    SplitOnCons("proc", '/', pid + ['/'] + rest);
    SplitOnCons(pid, '/', rest);
  }

  /** A path with fewer than two slashes has no pid piece. */
  lemma PidOfShortPath(a: string, b: string)
    requires '/' !in a && '/' !in b
    ensures PidOf(a) == "unknown" && PidOf(a + "/" + b) == "unknown"
  {
    SplitOnNoSep(a, '/');
    SplitOnNoSep(b, '/');
    assert a + "/" + b == a + ['/'] + b;
    SplitOnCons(a, '/', b);
  }

  lemma ProgArgsExample()
    ensures ProgArgs(Some("x\0b")) == Some("x b")
  {
    assert Replace("x\0b", NUL, ' ') == "x b";
  }

  // ---------------------------------------------------------------------
  // The users dictionary: { argv: ({pid, ...}, {item, ...}) } in insertion order

  datatype Usage = Usage(pids: set<string>, items: set<string>)

  /** A Python dict keeps its keys in insertion order: `order` lists the
      keys of `groups` in that order, each once. */
  datatype Users = Users(order: seq<string>, groups: map<string, Usage>)

  predicate Valid(u: Users)
  {
    && (forall i, j :: 0 <= i < j < |u.order| ==> u.order[i] != u.order[j])
    && (forall k {:trigger k in u.order} :: k in u.groups ==> k in u.order)
    && (forall i :: 0 <= i < |u.order| ==> u.order[i] in u.groups)
  }

  const NoUsers: Users := Users([], map[])

  /** users[argv][0].add(pid); users[argv][1].update(items) on the
      defaultdict: a new key is created with empty sets first. */
  function Record(u: Users, argv: string, pid: string, items: set<string>): (r: Users)
    requires Valid(u)
    ensures Valid(r)
    ensures r.groups.Keys == u.groups.Keys + {argv}
    ensures argv in u.groups ==> r.groups[argv] == Usage(u.groups[argv].pids + {pid}, u.groups[argv].items + items)
    ensures argv !in u.groups ==> r.groups[argv] == Usage({pid}, items)
    ensures forall k :: k in u.groups && k != argv ==> r.groups[k] == u.groups[k]
    ensures r.order == if argv in u.groups then u.order else u.order + [argv]
  {
    if argv in u.groups then
      var old_ := u.groups[argv];
      Users(u.order, u.groups[argv := Usage(old_.pids + {pid}, old_.items + items)])
    else
      Users(u.order + [argv], u.groups[argv := Usage({pid}, items)])
  }

  // ---------------------------------------------------------------------
  // The main loops, shared: each process contributes one observation

  /** What one process contributes to the scan: nothing, an unreadable
      descriptor or mapping table (the read_failure flag), or its pid with
      its command line and deleted items. */
  datatype Observation = Skipped | Unreadable | Found(pid: string, argv: string, items: set<string>)

  datatype Scan = Scan(users: Users, readFailure: bool)

  function Observe(sc: Scan, o: Observation): (r: Scan)
    requires Valid(sc.users)
    ensures Valid(r.users)
  {
    match o
    case Skipped => sc
    case Unreadable => Scan(sc.users, true)
    case Found(pid, argv, items) => Scan(Record(sc.users, argv, pid, items), sc.readFailure)
  }

  /** The state of `users` and `read_failure` after the main loop has seen
      the observations in order. */
  function Tally(obs: seq<Observation>): (r: Scan)
    ensures Valid(r.users)
    decreases |obs|
  {
    if |obs| == 0 then Scan(NoUsers, false)
    else Observe(Tally(obs[..|obs| - 1]), obs[|obs| - 1])
  }

  /** One more observation is one more step of the loop. */
  lemma TallySnoc(obs: seq<Observation>, o: Observation)
    ensures Tally(obs + [o]) == Observe(Tally(obs), o)
  {
    assert (obs + [o])[..|obs|] == obs;
  }

  predicate HasArgv(obs: seq<Observation>, argv: string)
  {
    exists k :: 0 <= k < |obs| && obs[k].Found? && obs[k].argv == argv
  }

  predicate HasPid(obs: seq<Observation>, argv: string, pid: string)
  {
    exists k :: 0 <= k < |obs| && obs[k].Found? && obs[k].argv == argv && obs[k].pid == pid
  }

  predicate HasItem(obs: seq<Observation>, argv: string, x: string)
  {
    exists k :: 0 <= k < |obs| && obs[k].Found? && obs[k].argv == argv && x in obs[k].items
  }

  predicate HasUnreadable(obs: seq<Observation>)
  {
    exists k :: 0 <= k < |obs| && obs[k].Unreadable?
  }

  lemma ItemHasArgv(obs: seq<Observation>, argv: string, x: string)
    ensures HasItem(obs, argv, x) ==> HasArgv(obs, argv)
  {
  }

  lemma HasItemSnoc(init: seq<Observation>, o: Observation, argv: string, x: string)
    ensures HasItem(init + [o], argv, x) <==> HasItem(init, argv, x) || (o.Found? && o.argv == argv && x in o.items)
  {
    var obs := init + [o];
    assert forall k :: 0 <= k < |init| ==> init[k] == obs[k];
    if o.Found? && o.argv == argv && x in o.items {
      assert obs[|init|] == o;
    }
  }

  /** The flag is set iff some table could not be read. */
  lemma {:induction false} TallyFlag(obs: seq<Observation>)
    ensures Tally(obs).readFailure <==> HasUnreadable(obs)
  {
    if |obs| > 0 {
      var init, o := obs[..|obs| - 1], obs[|obs| - 1];
      TallyFlag(init);
      assert forall k :: 0 <= k < |init| ==> init[k] == obs[k];
      assert HasUnreadable(obs) <==> HasUnreadable(init) || o.Unreadable?;
    }
  }

  /** There is one group per command line some process was found with. */
  lemma {:induction false} TallyKeys(obs: seq<Observation>)
    ensures forall argv :: argv in Tally(obs).users.groups <==> HasArgv(obs, argv)
  {
    if |obs| > 0 {
      var init, o := obs[..|obs| - 1], obs[|obs| - 1];
      TallyKeys(init);
      assert forall k :: 0 <= k < |init| ==> init[k] == obs[k];
      forall argv
        ensures argv in Tally(obs).users.groups <==> HasArgv(obs, argv)
      {
        assert HasArgv(obs, argv) <==> HasArgv(init, argv) || (o.Found? && o.argv == argv);
      }
    }
  }

  lemma HasPidSnoc(init: seq<Observation>, o: Observation, argv: string, pid: string)
    ensures HasPid(init + [o], argv, pid) <==> HasPid(init, argv, pid) || (o.Found? && o.argv == argv && o.pid == pid)
  {
    var obs := init + [o];
    assert forall k :: 0 <= k < |init| ==> init[k] == obs[k];
    if o.Found? && o.argv == argv && o.pid == pid {
      assert obs[|init|] == o;
    }
  }

  lemma HasPidHasArgv(obs: seq<Observation>, argv: string, pid: string)
    ensures HasPid(obs, argv, pid) ==> HasArgv(obs, argv)
  {
  }

  /** A group holds exactly the pids found with its command line. */
  lemma {:induction false} TallyPids(obs: seq<Observation>, argv: string, pid: string)
    requires argv in Tally(obs).users.groups
    ensures pid in Tally(obs).users.groups[argv].pids <==> HasPid(obs, argv, pid)
  {
    var init, o := obs[..|obs| - 1], obs[|obs| - 1];
    var before, after := Tally(init), Tally(obs);
    assert after == Observe(before, o);
    assert obs == init + [o];
    HasPidSnoc(init, o, argv, pid);
    if argv in before.users.groups {
      TallyPids(init, argv, pid);
      if o.Found? && o.argv == argv {
        assert after.users.groups[argv].pids == before.users.groups[argv].pids + {o.pid};
      } else {
        assert after.users.groups[argv] == before.users.groups[argv];
      }
    } else {
      TallyKeys(init);
      HasPidHasArgv(init, argv, pid);
      assert o.Found? && o.argv == argv;
      assert after.users.groups[argv].pids == {o.pid};
    }
  }

  /** A group holds exactly the union of the items found with its command line. */
  lemma {:induction false} TallyItems(obs: seq<Observation>, argv: string, x: string)
    requires argv in Tally(obs).users.groups
    ensures x in Tally(obs).users.groups[argv].items <==> HasItem(obs, argv, x)
  {
    var init, o := obs[..|obs| - 1], obs[|obs| - 1];
    var before, after := Tally(init), Tally(obs);
    assert after == Observe(before, o);
    assert obs == init + [o];
    HasItemSnoc(init, o, argv, x);
    if argv in before.users.groups {
      TallyItems(init, argv, x);
      if o.Found? && o.argv == argv {
        assert after.users.groups[argv].items == before.users.groups[argv].items + o.items;
      } else {
        assert after.users.groups[argv] == before.users.groups[argv];
      }
    } else {
      TallyKeys(init);
      ItemHasArgv(init, argv, x);
      assert o.Found? && o.argv == argv;
      assert after.users.groups[argv].items == o.items;
    }
  }

  /** Observations with the same elements tell the same story. */
  lemma HasSame(a: seq<Observation>, b: seq<Observation>)
    requires forall o :: o in a ==> o in b
    ensures HasUnreadable(a) ==> HasUnreadable(b)
    ensures forall argv :: HasArgv(a, argv) ==> HasArgv(b, argv)
    ensures forall argv, pid :: HasPid(a, argv, pid) ==> HasPid(b, argv, pid)
    ensures forall argv, x :: HasItem(a, argv, x) ==> HasItem(b, argv, x)
  {
    forall k | 0 <= k < |a|
      ensures exists j :: 0 <= j < |b| && b[j] == a[k]
    {
      assert a[k] in b;
    }
  }

  /** The grouping does not depend on the order in which the processes
      were visited (only the order of the groups does). */
  lemma TallyOrderIndependent(a: seq<Observation>, b: seq<Observation>)
    requires forall o :: o in a <==> o in b
    ensures Tally(a).readFailure == Tally(b).readFailure
    ensures Tally(a).users.groups == Tally(b).users.groups
  {
    HasSame(a, b);
    HasSame(b, a);
    TallyFlag(a);
    TallyFlag(b);
    TallyKeys(a);
    TallyKeys(b);
    var ga, gb := Tally(a).users.groups, Tally(b).users.groups;
    assert ga.Keys == gb.Keys;
    forall argv | argv in ga
      ensures ga[argv] == gb[argv]
    {
      SameGroup(a, b, argv);
    }
  }

  lemma SameGroup(a: seq<Observation>, b: seq<Observation>, argv: string)
    requires argv in Tally(a).users.groups && argv in Tally(b).users.groups
    requires forall pid :: HasPid(a, argv, pid) <==> HasPid(b, argv, pid)
    requires forall x :: HasItem(a, argv, x) <==> HasItem(b, argv, x)
    ensures Tally(a).users.groups[argv] == Tally(b).users.groups[argv]
  {
    var ua, ub := Tally(a).users.groups[argv], Tally(b).users.groups[argv];
    forall pid
      ensures pid in ua.pids <==> pid in ub.pids
    {
      TallyPids(a, argv, pid);
      TallyPids(b, argv, pid);
    }
    forall x
      ensures x in ua.items <==> x in ub.items
    {
      TallyItems(a, argv, x);
      TallyItems(b, argv, x);
    }
    assert ua.pids == ub.pids;
    assert ua.items == ub.items;
  }

  /** When every pid is observed with one command line only (a process has
      one cmdline), each pid lands in exactly one group. */
  lemma PidInOneGroup(obs: seq<Observation>, pid: string, a1: string, a2: string)
    requires forall i, j ::
               (0 <= i < |obs| && 0 <= j < |obs| && obs[i].Found? && obs[j].Found? && obs[i].pid == obs[j].pid)
               ==> obs[i].argv == obs[j].argv
    requires a1 in Tally(obs).users.groups && pid in Tally(obs).users.groups[a1].pids
    requires a2 in Tally(obs).users.groups && pid in Tally(obs).users.groups[a2].pids
    ensures a1 == a2
  {
    TallyPids(obs, a1, pid);
    TallyPids(obs, a2, pid);
  }

  // ---------------------------------------------------------------------
  // Report formats

  function PidList(u: Usage): string
  {
    Join(",", Sorted(u.pids))
  }

  function ItemList(u: Usage): string
  {
    Join(",", Sorted(u.items))
  }

  /** fmt_human, one line: `<pids> "<argv>"`, and ` uses <items>` when the
      items are shown. */
  function HumanLine(argv: string, u: Usage, showItems: bool): string
  {
    if showItems then PidList(u) + " \"" + Strip(argv) + "\" uses " + ItemList(u)
    else PidList(u) + " \"" + Strip(argv) + "\""
  }

  /** fmt_machine, one line: `<pids>;<items>;<argv>`. */
  function MachineLine(argv: string, u: Usage): string
  {
    PidList(u) + ";" + ItemList(u) + ";" + Strip(argv)
  }

  /** The lines of a report, one per group, in the dictionary's order. */
  function HumanLines(users: Users, showItems: bool): (r: seq<string>)
    requires Valid(users)
    ensures |r| == |users.order|
    ensures forall i :: 0 <= i < |r| ==> r[i] == HumanLine(users.order[i], users.groups[users.order[i]], showItems)
  {
    seq(|users.order|, i requires 0 <= i < |users.order| =>
      HumanLine(users.order[i], users.groups[users.order[i]], showItems))
  }

  function MachineLines(users: Users): (r: seq<string>)
    requires Valid(users)
    ensures |r| == |users.order|
    ensures forall i :: 0 <= i < |r| ==> r[i] == MachineLine(users.order[i], users.groups[users.order[i]])
  {
    seq(|users.order|, i requires 0 <= i < |users.order| =>
      MachineLine(users.order[i], users.groups[users.order[i]]))
  }

  lemma WholePrefix(lines: seq<string>)
    ensures lines[..|lines|] == lines
  {
  }

  lemma HumanLinesStep(users: Users, showItems: bool, i: nat, res: seq<string>, line: string)
    requires Valid(users) && i < |users.order|
    requires res == HumanLines(users, showItems)[..i]
    requires line == HumanLine(users.order[i], users.groups[users.order[i]], showItems)
    ensures res + [line] == HumanLines(users, showItems)[..i + 1]
  {
  }

  lemma MachineLinesStep(users: Users, i: nat, res: seq<string>, line: string)
    requires Valid(users) && i < |users.order|
    requires res == MachineLines(users)[..i]
    requires line == MachineLine(users.order[i], users.groups[users.order[i]])
    ensures res + [line] == MachineLines(users)[..i + 1]
  {
  }

  /** The body of fmt_human's loop: the line of one group. */
  method FormatHuman(argv: string, usage: Usage, showItems: bool) returns (line: string)
    ensures line == HumanLine(argv, usage, showItems)
  {
    var pidlist := PidList(usage);
    if showItems {
      var files := ItemList(usage);
      line := pidlist + " \"" + Strip(argv) + "\" uses " + files;
    } else {
      line := pidlist + " \"" + Strip(argv) + "\"";
    }
  }

  /** fmt_human: builds the list of lines group by group and joins it with
      newlines. */
  method FmtHuman(users: Users, showItems: bool) returns (out: string)
    requires Valid(users)
    ensures out == Join("\n", HumanLines(users, showItems))
  {
    var res: seq<string> := [];
    for i := 0 to |users.order|
      invariant res == HumanLines(users, showItems)[..i]
    {
      var argv := users.order[i];
      var line := FormatHuman(argv, users.groups[argv], showItems);
      HumanLinesStep(users, showItems, i, res, line);
      res := res + [line];
    }
    WholePrefix(HumanLines(users, showItems));
    out := Join("\n", res);
  }

  /** fmt_machine. */
  method FmtMachine(users: Users) returns (out: string)
    requires Valid(users)
    ensures out == Join("\n", MachineLines(users))
  {
    var res: seq<string> := [];
    for i := 0 to |users.order|
      invariant res == MachineLines(users)[..i]
    {
      var argv := users.order[i];
      var usage := users.groups[argv];
      var pidlist := PidList(usage);
      var files := ItemList(usage);
      var line := pidlist + ";" + files + ";" + Strip(argv);
      MachineLinesStep(users, i, res, line);
      res := res + [line];
    }
    WholePrefix(MachineLines(users));
    out := Join("\n", res);
  }

  /** Both formats print nothing at all when no process was found. */
  lemma EmptyReports(showItems: bool)
    ensures Join("\n", HumanLines(NoUsers, showItems)) == ""
    ensures Join("\n", MachineLines(NoUsers)) == ""
  {
  }

  lemma SortedOneTwo()
    ensures Sorted({"1", "2"}) == ["1", "2"]
    ensures Sorted({"l1", "l2"}) == ["l1", "l2"]
  {
    assert Lt("1", "2");
    assert Le("1"[1..], "2"[1..]);
    SortedIs({"1", "2"}, ["1", "2"]);
    assert Lt("l1", "l2") by {
      assert "l1"[1..] == "1" && "l2"[1..] == "2";
      assert Le("1"[1..], "2"[1..]);
    }
    SortedIs({"l1", "l2"}, ["l1", "l2"]);
  }

  function OneGroup(argv: string, u: Usage): (r: Users)
    ensures Valid(r)
  {
    Users([argv], map[argv := u])
  }

  /** A report of a single group is that group's line. */
  lemma OneGroupReports(argv: string, u: Usage, showItems: bool)
    ensures Join("\n", HumanLines(OneGroup(argv, u), showItems)) == HumanLine(argv, u, showItems)
    ensures Join("\n", MachineLines(OneGroup(argv, u))) == MachineLine(argv, u)
  {
    assert HumanLines(OneGroup(argv, u), showItems) == [HumanLine(argv, u, showItems)];
    assert MachineLines(OneGroup(argv, u)) == [MachineLine(argv, u)];
  }

  lemma OneTwoLists(u: Usage)
    requires u == Usage({"1", "2"}, {"l1", "l2"})
    ensures PidList(u) == "1,2" && ItemList(u) == "l1,l2"
  {
    SortedOneTwo();
  }

  /** The documented examples of both formats, trailing space removed from
      the command line. */
  lemma HumanExample(argv: string, u: Usage)
    requires argv == "argv1" && u == Usage({"1", "2"}, {"l1", "l2"})
    ensures Join("\n", HumanLines(OneGroup(argv, u), false)) == "1,2" + " \"" + "argv1" + "\""
  {
    OneGroupReports(argv, u, false);
    OneTwoLists(u);
    StripUnchanged(argv);
  }

  lemma HumanItemsExample(argv: string, u: Usage)
    requires argv == "argv1" && u == Usage({"1", "2"}, {"l1", "l2"})
    ensures Join("\n", HumanLines(OneGroup(argv, u), true)) == "1,2" + " \"" + "argv1" + "\" uses " + "l1,l2"
  {
    OneGroupReports(argv, u, true);
    OneTwoLists(u);
    StripUnchanged(argv);
  }

  lemma MachineExample(argv: string, u: Usage)
    requires argv == "argv1" && u == Usage({"1", "2"}, {"l1", "l2"})
    ensures Join("\n", MachineLines(OneGroup(argv, u))) == "1,2" + ";" + "l1,l2" + ";" + "argv1"
  {
    OneGroupReports(argv, u, false);
    OneTwoLists(u);
    StripUnchanged(argv);
  }

  /** A single trailing blank is stripped. */
  lemma StripSpaceAfter(s: string, argv: string)
    requires argv == s + " " && s != [] && !IsSpace(s[0]) && !IsSpace(s[|s| - 1])
    ensures Strip(argv) == s
  {
    assert argv == s + [' '];
    StripTrailing(s, ' ');
  }

  lemma MachineNoItemsExample(argv: string, u: Usage)
    requires argv == "argv1 argv2" + " " && u == Usage({"1"}, {})
    ensures Join("\n", MachineLines(OneGroup(argv, u))) == "1" + ";" + "" + ";" + "argv1 argv2"
  {
    StripSpaceAfter("argv1 argv2", argv);
    assert PidList(u) == "1" && ItemList(u) == "" by {
      SortedIs({"1"}, ["1"]);
    }
    OneGroupReports(argv, u, false);
  }

  // ---------------------------------------------------------------------
  // Reading the machine format back

  datatype MachineRecord = MachineRecord(pids: seq<string>, items: seq<string>, argv: string)

  /** An empty field is an empty list. */
  function SplitList(s: string): (r: seq<string>)
    ensures s != "" ==> Join(",", r) == s
  {
    if s == "" then [] else JoinSplitOn(s, ','); SplitOn(s, ',')
  }

  /** How a consumer reads one line of the machine format. */
  function ParseMachineLine(line: string): Option<MachineRecord>
  {
    var fields := SplitOn(line, ';');
    if |fields| != 3 then None
    else Some(MachineRecord(SplitList(fields[0]), SplitList(fields[1]), fields[2]))
  }

  predicate Plain(x: string, seps: set<char>)
  {
    x != "" && forall c :: c in seps ==> c !in x
  }

  lemma {:induction false} SplitListJoin(xs: seq<string>)
    requires forall k :: 0 <= k < |xs| ==> Plain(xs[k], {','})
    ensures SplitList(Join(",", xs)) == xs
  {
    if |xs| > 0 {
      assert |Join(",", xs)| > 0 by {
        if |xs| > 1 { assert Join(",", xs) == xs[0] + "," + Join(",", xs[1..]); }
      }
      forall k | 0 <= k < |xs|
        ensures ',' !in xs[k]
      {
        assert Plain(xs[k], {','});
      }
      SplitOnJoin(xs, ',');
    }
  }

  lemma PlainList(xs: seq<string>)
    requires forall k :: 0 <= k < |xs| ==> Plain(xs[k], {';', ','})
    ensures ';' !in Join(",", xs)
    ensures SplitList(Join(",", xs)) == xs
  {
    forall k | 0 <= k < |xs|
      ensures ';' !in xs[k] && Plain(xs[k], {','})
    {
      assert Plain(xs[k], {';', ','});
    }
    JoinAvoids(",", xs, ';');
    SplitListJoin(xs);
  }

  lemma PlainSorted(s: set<string>)
    requires forall x :: x in s ==> Plain(x, {';', ','})
    ensures ';' !in Join(",", Sorted(s))
    ensures SplitList(Join(",", Sorted(s))) == Sorted(s)
  {
    var xs := Sorted(s);
    forall k | 0 <= k < |xs|
      ensures Plain(xs[k], {';', ','})
    {
      assert xs[k] in xs;
    }
    PlainList(xs);
  }

  lemma ParseThreeFields(p: string, i: string, a: string, ps: seq<string>, its: seq<string>)
    requires ';' !in p && ';' !in i && ';' !in a
    requires SplitList(p) == ps && SplitList(i) == its
    ensures ParseMachineLine(p + ";" + i + ";" + a) == Some(MachineRecord(ps, its, a))
  {
    SplitThree(p, i, a, ';');
  }

  /** A line of the machine format reads back as the sorted pids, the
      sorted items and the stripped command line, provided none of them
      holds a separator (and no pid or item is empty). */
  lemma MachineLineRoundTrip(argv: string, u: Usage)
    requires ';' !in argv
    requires forall x :: x in u.pids ==> Plain(x, {';', ','})
    requires forall x :: x in u.items ==> Plain(x, {';', ','})
    ensures ParseMachineLine(MachineLine(argv, u)) == Some(MachineRecord(Sorted(u.pids), Sorted(u.items), Strip(argv)))
  {
    PlainSorted(u.pids);
    PlainSorted(u.items);
    StripAvoids(argv, ';');
    ParseThreeFields(PidList(u), ItemList(u), Strip(argv), Sorted(u.pids), Sorted(u.items));
  }

  lemma SortedListAvoids(s: set<string>, c: char)
    requires c != ','
    requires forall x :: x in s ==> c !in x
    ensures c !in Join(",", Sorted(s))
  {
    var xs := Sorted(s);
    forall k | 0 <= k < |xs|
      ensures c !in xs[k]
    {
      assert xs[k] in xs;
    }
    JoinAvoids(",", xs, c);
  }

  /** A character other than the separators that occurs in no pid, no item
      and not in the command line does not occur in its line. */
  lemma MachineLineAvoids(argv: string, u: Usage, c: char)
    requires c != ',' && c != ';'
    requires c !in argv
    requires forall x :: x in u.pids ==> c !in x
    requires forall x :: x in u.items ==> c !in x
    ensures c !in MachineLine(argv, u)
  {
    SortedListAvoids(u.pids, c);
    SortedListAvoids(u.items, c);
    StripAvoids(argv, c);
  }

  /** Every group is one line of the machine report: splitting the report
      at newlines gives back the lines, provided nothing holds a newline. */
  lemma MachineReportLines(users: Users)
    requires Valid(users) && |users.order| > 0
    requires forall i :: 0 <= i < |users.order| ==> '\n' !in users.order[i]
    requires forall a, x :: a in users.groups && x in users.groups[a].pids ==> '\n' !in x
    requires forall a, x :: a in users.groups && x in users.groups[a].items ==> '\n' !in x
    ensures SplitOn(Join("\n", MachineLines(users)), '\n') == MachineLines(users)
  {
    var lines := MachineLines(users);
    forall i | 0 <= i < |lines|
      ensures '\n' !in lines[i]
    {
      MachineLineAvoids(users.order[i], users.groups[users.order[i]], '\n');
    }
    SplitOnJoin(lines, '\n');
  }

  /** A character other than the separators that occurs in no pid, no item
      and not in the command line does not occur in its human line. */
  lemma HumanLineAvoids(argv: string, u: Usage, showItems: bool, c: char)
    requires c != ',' && c != ' ' && c != '"' && !('a' <= c <= 'z')
    requires c !in argv
    requires forall x :: x in u.pids ==> c !in x
    requires forall x :: x in u.items ==> c !in x
    ensures c !in HumanLine(argv, u, showItems)
  {
    SortedListAvoids(u.pids, c);
    SortedListAvoids(u.items, c);
    StripAvoids(argv, c);
  }

  /** Every group is one line of the human report: splitting the report
      at newlines gives back the lines, provided nothing holds a newline. */
  lemma HumanReportLines(users: Users, showItems: bool)
    requires Valid(users) && |users.order| > 0
    requires forall i :: 0 <= i < |users.order| ==> '\n' !in users.order[i]
    requires forall a, x :: a in users.groups && x in users.groups[a].pids ==> '\n' !in x
    requires forall a, x :: a in users.groups && x in users.groups[a].items ==> '\n' !in x
    ensures SplitOn(Join("\n", HumanLines(users, showItems)), '\n') == HumanLines(users, showItems)
  {
    var lines := HumanLines(users, showItems);
    forall i | 0 <= i < |lines|
      ensures '\n' !in lines[i]
    {
      HumanLineAvoids(users.order[i], users.groups[users.order[i]], showItems, '\n');
    }
    SplitOnJoin(lines, '\n');
  }

  // ---------------------------------------------------------------------
  // The unit a pid belongs to, from the output of `systemctl status <pid>`

  function NoUnitNotice(pid: string): string
  {
    "No unit for PID " + pid + " is loaded."
  }

  function FirstLine(output: string): string
  {
    SplitOn(output, '\n')[0]
  }

  /** query_systemctl on the text systemctl printed: None when systemctl
      says the pid belongs to no unit; otherwise the first whitespace field
      of the first line's text before its first '-' when there is exactly
      one such field, else the second (IndexError when there is none). */
  function ParseUnit(pid: string, output: string): (r: Result<Option<string>, PyError>)
    ensures r == Ok(None) <==> Contains(output, NoUnitNotice(pid))
    ensures r.Ok? && r.value.Some? ==> IsWord(r.value.value) && '-' !in r.value.value
  {
    if Contains(output, NoUnitNotice(pid)) then Ok(None)
    else
      var head := SplitOn(FirstLine(output), '-')[0];
      var fields := Words(head);
      WordsAvoid(head, '-');
      if |fields| == 1 then Ok(Some(fields[0]))
      else if |fields| == 0 then Err(IndexError)
      else Ok(Some(fields[1]))
  }

  /** The separator systemctl prints between a unit's name and its description. */
  const Separator: string := " - "

  /** The header parser as evidently intended: cut the first line at the
      first " - " rather than at the first '-', so that unit names holding
      a hyphen are kept whole. */
  function ParseUnitFixed(pid: string, output: string): (r: Result<Option<string>, PyError>)
    ensures r == Ok(None) <==> Contains(output, NoUnitNotice(pid))
    ensures r.Ok? && r.value.Some? ==> IsWord(r.value.value)
  {
    if Contains(output, NoUnitNotice(pid)) then Ok(None)
    else
      var header := FirstLine(output);
      var fields := Words(header[..IndexOf(header, Separator)]);
      if |fields| == 1 then Ok(Some(fields[0]))
      else if |fields| == 0 then Err(IndexError)
      else Ok(Some(fields[1]))
  }

  /** `header` is the whole first line of `output`. */
  predicate FirstLineIs(output: string, header: string)
  {
    '\n' !in header && StartsWith(output, header) && (|output| == |header| || output[|header|] == '\n')
  }

  lemma FirstLineOf(output: string, header: string)
    requires FirstLineIs(output, header)
    ensures FirstLine(output) == header
  {
    if |output| == |header| {
      assert output == header;
      SplitOnNoSep(header, '\n');
    } else {
      assert output == header + ['\n'] + output[|header| + 1..];
      SplitOnCons(header, '\n', output[|header| + 1..]);
    }
  }

  lemma WholeFirstLine(output: string)
    requires '\n' !in output
    ensures FirstLineIs(output, output)
  {
    assert output[..|output|] == output;
  }

  /** An output without a capital N cannot hold the no-unit notice. */
  lemma NoticeNeedsN(output: string, pid: string)
    requires 'N' !in output
    ensures !Contains(output, NoUnitNotice(pid))
  {
    var n := NoUnitNotice(pid);
    forall i: nat | i <= |output|
      ensures !OccursAt(output, n, i)
    {
      if i + |n| <= |output| {
        assert output[i] in output;
        assert output[i..i + |n|][0] == output[i];
      }
    }
  }

  /** Both header layouts systemctl is known to print give the unit name,
      provided the name holds no '-':
        `<unit> - <description>` and `<bullet> <unit> - <description>`. */
  lemma ParseUnitPlainHeader(pid: string, output: string, unit: string, desc: string)
    requires IsWord(unit) && '-' !in unit
    requires FirstLineIs(output, unit + " - " + desc)
    requires !Contains(output, NoUnitNotice(pid))
    ensures ParseUnit(pid, output) == Ok(Some(unit))
  {
    var header := unit + " - " + desc;
    FirstLineOf(output, header);
    assert header == (unit + " ") + ['-'] + (" " + desc);
    SplitOnCons(unit + " ", '-', " " + desc);
    assert unit + " " == unit + [' '];
    WordsTrailingSpace(unit, ' ');
    WordsOfWord(unit);
  }

  lemma ParseUnitBulletHeader(pid: string, output: string, bullet: string, unit: string, desc: string)
    requires IsWord(bullet) && '-' !in bullet
    requires IsWord(unit) && '-' !in unit
    requires FirstLineIs(output, bullet + " " + unit + " - " + desc)
    requires !Contains(output, NoUnitNotice(pid))
    ensures ParseUnit(pid, output) == Ok(Some(unit))
  {
    var header := bullet + " " + unit + " - " + desc;
    FirstLineOf(output, header);
    BulletHeaderWords(bullet, unit, desc);
  }

  /** The part of a bulleted header before its first '-' splits into the
      bullet and the unit. */
  lemma BulletHeaderWords(bullet: string, unit: string, desc: string)
    requires IsWord(bullet) && '-' !in bullet
    requires IsWord(unit) && '-' !in unit
    ensures Words(SplitOn(bullet + " " + unit + " - " + desc, '-')[0]) == [bullet, unit]
  {
    var header := bullet + " " + unit + " - " + desc;
    var head := bullet + " " + unit + " ";
    assert SplitOn(header, '-')[0] == head by {
      assert '-' !in head;
      assert header == head + ['-'] + (" " + desc);
      SplitOnCons(head, '-', " " + desc);
    }
    TwoWordsSpaced(bullet, unit);
  }

  lemma TwoWordsSpaced(a: string, b: string)
    requires IsWord(a) && IsWord(b)
    ensures Words(a + " " + b + " ") == [a, b]
  {
    var ab := a + [' '] + b;
    assert a + " " + b + " " == ab + [' '];
    WordsTrailingSpace(ab, ' ');
    WordsSnoc(a, ' ', b);
    WordsOfWord(a);
    assert [a] + [b] == [a, b];
  }

  lemma SshdFields(bullet: string, unit: string, desc: string)
    requires bullet == "●" && unit == "sshd.service" && desc == "OpenSSH Daemon"
    ensures IsWord(bullet) && '-' !in bullet && IsWord(unit) && '-' !in unit
    ensures '\n' !in bullet && '\n' !in unit && '\n' !in desc
    ensures 'N' !in bullet && 'N' !in unit && 'N' !in desc
  {
  }

  /** The outputs systemctl is documented to print, and its no-unit reply. */
  lemma ParseUnitClassicExample(out: string)
    requires out == "sshd.service" + " - " + "OpenSSH Daemon"
    ensures ParseUnit("1", out) == Ok(Some("sshd.service"))
  {
    var unit, desc := "sshd.service", "OpenSSH Daemon";
    SshdFields("●", unit, desc);
    NoticeNeedsN(out, "1");
    ParseUnitPlainHeader("1", out, unit, desc);
  }

  lemma ParseUnitBulletExample(out: string)
    requires out == "●" + " " + "sshd.service" + " - " + "OpenSSH Daemon"
    ensures ParseUnit("1", out) == Ok(Some("sshd.service"))
  {
    var bullet, unit, desc := "●", "sshd.service", "OpenSSH Daemon";
    SshdFields(bullet, unit, desc);
    NoticeNeedsN(out, "1");
    ParseUnitBulletHeader("1", out, bullet, unit, desc);
  }

  lemma ParseUnitNoUnitExample()
    ensures ParseUnit("1", "No unit for PID 1 is loaded.\nBlah") == Ok(None)
  {
    var out := "No unit for PID 1 is loaded.\nBlah";
    assert OccursAt(out, NoUnitNotice("1"), 0);
  }

  /** A first line whose text before the first '-' is blank raises IndexError. */
  lemma ParseUnitBlankHead(pid: string, output: string, header: string)
    requires FirstLineIs(output, header) && header != [] && header[0] == '-'
    requires !Contains(output, NoUnitNotice(pid))
    ensures ParseUnit(pid, output) == Err(IndexError)
  {
    FirstLineOf(output, header);
    assert header == [] + ['-'] + header[1..];
    SplitOnCons([], '-', header[1..]);
    assert Words([]) == [];
  }

  lemma ParseUnitNoFields()
    ensures ParseUnit("1", "-- journal begins --") == Err(IndexError)
  {
    var out := "-- journal begins --";
    NoticeNeedsN(out, "1");
    ParseUnitBlankHead("1", out, out);
  }

  // ---------------------------------------------------------------------
  // Unit names holding a hyphen

  /** As written, the header is cut at the first '-' anywhere, so a unit
      whose name holds a hyphen is reported by the part of its name before
      the hyphen. */
  lemma ParseUnitCutsAtHyphen(pid: string, output: string, bullet: string, stem: string, rest: string)
    requires IsWord(bullet) && '-' !in bullet
    requires IsWord(stem) && '-' !in stem
    requires FirstLineIs(output, bullet + " " + stem + "-" + rest)
    requires !Contains(output, NoUnitNotice(pid))
    ensures ParseUnit(pid, output) == Ok(Some(stem))
  {
    var header := bullet + " " + stem + "-" + rest;
    FirstLineOf(output, header);
    var head := bullet + [' '] + stem;
    assert '-' !in head;
    assert header == head + ['-'] + rest;
    SplitOnCons(head, '-', rest);
    WordsSnoc(bullet, ' ', stem);
    WordsOfWord(bullet);
  }

  lemma JournaldUnitSplit(unit: string, stem: string)
    requires unit == "systemd-journald.service" && stem == "systemd"
    ensures unit == stem + "-" + "journald.service"
  {
  }

  lemma JournaldWords(bullet: string, unit: string, stem: string)
    requires bullet == "●" && unit == "systemd-journald.service" && stem == "systemd"
    ensures IsWord(bullet) && '-' !in bullet && IsWord(stem) && '-' !in stem
    ensures IsWord(unit) && unit != "-"
  {
    JournaldUnitSplit(unit, stem);
    var tail := "journald.service";
    assert NoSpace(stem) && NoSpace("-") && NoSpace(tail);
    NoSpaceConcat(stem, "-");
    NoSpaceConcat(stem + "-", tail);
  }

  /** Neither a newline nor the notice's capital N occurs in the header. */
  lemma JournaldText(bullet: string, unit: string, desc: string)
    requires bullet == "●" && unit == "systemd-journald.service" && desc == "Journal Service"
    ensures '\n' !in bullet && '\n' !in unit && '\n' !in desc
    ensures 'N' !in bullet && 'N' !in unit && 'N' !in desc
  {
  }

  lemma JournaldHeaderSplit(out: string, bullet: string, stem: string, rest: string)
    requires out == "●" + " " + "systemd-journald.service" + " - " + "Journal Service"
    requires bullet == "●" && stem == "systemd" && rest == "journald.service" + " - " + "Journal Service"
    ensures out == bullet + " " + stem + "-" + rest
  {
    JournaldUnitSplit("systemd-journald.service", stem);
  }

  /** systemd's own journal service is reported as "systemd". */
  lemma JournaldMisread(out: string)
    requires out == "●" + " " + "systemd-journald.service" + " - " + "Journal Service"
    ensures ParseUnit("1", out) == Ok(Some("systemd"))
  {
    var bullet, unit, stem, desc := "●", "systemd-journald.service", "systemd", "Journal Service";
    JournaldWords(bullet, unit, stem);
    JournaldText(bullet, unit, desc);
    var rest := "journald.service" + " - " + desc;
    JournaldHeaderSplit(out, bullet, stem, rest);
    assert '\n' !in out;
    WholeFirstLine(out);
    NoticeNeedsN(out, "1");
    ParseUnitCutsAtHyphen("1", out, bullet, stem, rest);
  }

  /** With the cut at the first " - ", both header layouts give the whole
      unit name, hyphens included. */
  lemma ParseUnitFixedPlainHeader(pid: string, output: string, unit: string, desc: string)
    requires IsWord(unit)
    requires FirstLineIs(output, unit + " - " + desc)
    requires !Contains(output, NoUnitNotice(pid))
    ensures ParseUnitFixed(pid, output) == Ok(Some(unit))
  {
    var header := unit + " - " + desc;
    FirstLineOf(output, header);
    assert header[..|unit|] == unit;
    assert OccursAt(header, Separator, |unit|) by {
      assert header[|unit|..|unit| + 3] == Separator;
    }
    forall k: nat | k < |unit|
      ensures !OccursAt(header, Separator, k)
    {
      assert header[k] == unit[k];
      assert !IsSpace(unit[k]);
    }
    IndexOfFirst(header, Separator, |unit|);
    WordsOfWord(unit);
  }

  lemma ParseUnitFixedBulletHeader(pid: string, output: string, bullet: string, unit: string, desc: string)
    requires IsWord(bullet) && IsWord(unit) && unit != "-"
    requires FirstLineIs(output, bullet + " " + unit + " - " + desc)
    requires !Contains(output, NoUnitNotice(pid))
    ensures ParseUnitFixed(pid, output) == Ok(Some(unit))
  {
    var header := bullet + " " + unit + " - " + desc;
    FirstLineOf(output, header);
    var j := |bullet| + 1 + |unit|;
    var head := bullet + [' '] + unit;
    assert header[..j] == head;
    assert OccursAt(header, Separator, j) by {
      assert header[j..j + 3] == Separator;
    }
    forall k: nat | k < j
      ensures !OccursAt(header, Separator, k)
    {
      if k < |bullet| {
        assert header[k] == bullet[k];
        assert !IsSpace(bullet[k]);
      } else if k == |bullet| {
        if |unit| == 1 {
          assert header[k + 1] == unit[0] && header[k + 2] == ' ';
          assert unit == [unit[0]];
        } else {
          assert header[k + 2] == unit[1];
          assert !IsSpace(unit[1]);
        }
      } else {
        assert header[k] == unit[k - |bullet| - 1];
        assert !IsSpace(unit[k - |bullet| - 1]);
      }
    }
    IndexOfFirst(header, Separator, j);
    WordsSnoc(bullet, ' ', unit);
    WordsOfWord(bullet);
  }

  /** The corrected parser reads systemd's journal service whole. */
  lemma JournaldReadWhole(out: string)
    requires out == "●" + " " + "systemd-journald.service" + " - " + "Journal Service"
    ensures ParseUnitFixed("1", out) == Ok(Some("systemd-journald.service"))
  {
    var bullet, unit, desc := "●", "systemd-journald.service", "Journal Service";
    JournaldWords(bullet, unit, "systemd");
    JournaldText(bullet, unit, desc);
    NoticeNeedsN(out, "1");
    ParseUnitFixedBulletHeader("1", out, bullet, unit, desc);
  }

  // ---------------------------------------------------------------------
  // Grouping the pids by service unit

  /** What running `systemctl status <pid>` gave: its output, or the
      OSError raised when it could not be run. */
  datatype Systemctl = Output(text: string) | OSError(reason: string)

  /** How a call of query_systemctl ended without returning: systemctl
      could not be run (an OSError, which get_services catches), or the
      header parser raised (which it does not). */
  datatype Stop = CouldNotRun(reason: string) | Raised(error: PyError)

  /** query_systemctl: the unit, None, or the exception it raises.
      systemctl failing to start is an OSError; a first line without any
      field before its first '-' raises IndexError. */
  function QuerySystemctl(systemctl: string -> Systemctl, pid: string): (r: Result<Option<string>, Stop>)
    ensures r.Err? && r.error.CouldNotRun? <==> systemctl(pid).OSError?
    ensures r == Ok(None) <==> systemctl(pid).Output? && Contains(systemctl(pid).text, NoUnitNotice(pid))
    ensures r.Ok? && r.value.Some? ==> IsWord(r.value.value) && '-' !in r.value.value
    ensures r.Err? && r.error.Raised? ==> r.error.error == IndexError && systemctl(pid).Output?
  {
    match systemctl(pid)
    case OSError(reason) => Err(CouldNotRun(reason))
    case Output(text) =>
      match ParseUnit(pid, text)
      case Ok(unit) => Ok(unit)
      case Err(e) => Err(Raised(e))
  }

  /** query_systemctl as evidently intended, with the corrected header
      parser: a hyphenated unit name is returned whole. */
  function QuerySystemctlFixed(systemctl: string -> Systemctl, pid: string): (r: Result<Option<string>, Stop>)
    ensures r.Err? && r.error.CouldNotRun? <==> systemctl(pid).OSError?
    ensures r == Ok(None) <==> systemctl(pid).Output? && Contains(systemctl(pid).text, NoUnitNotice(pid))
    ensures r.Ok? && r.value.Some? ==> IsWord(r.value.value)
    ensures r.Err? && r.error.Raised? ==> r.error.error == IndexError && systemctl(pid).Output?
  {
    match systemctl(pid)
    case OSError(reason) => Err(CouldNotRun(reason))
    case Output(text) =>
      match ParseUnitFixed(pid, text)
      case Ok(unit) => Ok(unit)
      case Err(e) => Err(Raised(e))
  }

  /** svc4pid: units in the order they were first seen, each with its pids
      in the order they were appended. */
  datatype Units = Units(order: seq<string>, pids: map<string, seq<string>>)

  predicate ValidUnits(u: Units)
  {
    && (forall i, j :: 0 <= i < j < |u.order| ==> u.order[i] != u.order[j])
    && (forall k {:trigger k in u.order} :: k in u.pids ==> k in u.order)
    && (forall i :: 0 <= i < |u.order| ==> u.order[i] in u.pids)
  }

  const NoUnits: Units := Units([], map[])

  /** svc4pid[unit].append(pid) on the defaultdict. */
  function AddPid(u: Units, unit: string, pid: string): (r: Units)
    requires ValidUnits(u)
    ensures ValidUnits(r)
    ensures r.pids.Keys == u.pids.Keys + {unit}
    ensures r.pids[unit] == (if unit in u.pids then u.pids[unit] else []) + [pid]
    ensures forall k :: k in u.pids && k != unit ==> r.pids[k] == u.pids[k]
    ensures r.order == if unit in u.pids then u.order else u.order + [unit]
  {
    if unit in u.pids then Units(u.order, u.pids[unit := u.pids[unit] + [pid]])
    else Units(u.order + [unit], u.pids[unit := [pid]])
  }

  /** The state of svc4pid after the pids were queried in order, or the
      exception that ended the loop; `query` stands for query_systemctl. */
  function Collect(visit: seq<string>, query: string -> Result<Option<string>, Stop>): (r: Result<Units, Stop>)
    ensures r.Ok? ==> ValidUnits(r.value)
    decreases |visit|
  {
    if |visit| == 0 then Ok(NoUnits)
    else
      match Collect(visit[..|visit| - 1], query)
      case Err(e) => Err(e)
      case Ok(units) =>
        var pid := visit[|visit| - 1];
        match query(pid)
        case Err(e) => Err(e)
        case Ok(None) => Ok(units)
        case Ok(Some(unit)) => if unit == "" then Ok(units) else Ok(AddPid(units, unit, pid))
  }

  /** The pids in the order get_services queries them: group by group,
      each group's pids sorted. */
  function VisitOrder(users: Users, n: nat): seq<string>
    requires Valid(users) && n <= |users.order|
  {
    if n == 0 then [] else VisitOrder(users, n - 1) + Sorted(users.groups[users.order[n - 1]].pids)
  }

  function UnitLines(units: Units): (r: seq<string>)
    requires ValidUnits(units)
    ensures |r| == |units.order|
  {
    seq(|units.order|, i requires 0 <= i < |units.order| =>
      Join(",", units.pids[units.order[i]]) + " belong to " + units.order[i])
  }

  lemma UnitLinesStep(units: Units, k: nat, lines: seq<string>, line: string)
    requires ValidUnits(units) && k < |units.order|
    requires lines == UnitLines(units)[..k]
    requires line == Join(",", units.pids[units.order[k]]) + " belong to " + units.order[k]
    ensures lines + [line] == UnitLines(units)[..k + 1]
  {
  }

  /** What get_services returns, or the exception that escapes it. */
  function ServicesReport(users: Users, query: string -> Result<Option<string>, Stop>): Result<string, PyError>
    requires Valid(users)
  {
    match Collect(VisitOrder(users, |users.order|), query)
    case Err(CouldNotRun(reason)) => Ok("Could not run systemctl: " + reason)
    case Err(Raised(e)) => Err(e)
    case Ok(units) => Ok(Join("\n", UnitLines(units)))
  }

  lemma {:induction false} CollectStopSticks(a: seq<string>, b: seq<string>, query: string -> Result<Option<string>, Stop>)
    requires a <= b && Collect(a, query).Err?
    ensures Collect(b, query) == Collect(a, query)
    decreases |b|
  {
    if |b| > |a| {
      assert a <= b[..|b| - 1];
      CollectStopSticks(a, b[..|b| - 1], query);
    } else {
      assert a == b;
    }
  }

  lemma {:induction false} VisitPrefix(users: Users, i: nat, m: nat)
    requires Valid(users) && i <= m <= |users.order|
    ensures VisitOrder(users, i) <= VisitOrder(users, m)
    decreases m
  {
    if i < m {
      VisitPrefix(users, i, m - 1);
    }
  }

  lemma VisitStep(users: Users, i: nat)
    requires Valid(users) && i < |users.order|
    ensures VisitOrder(users, i + 1) == VisitOrder(users, i) + Sorted(users.groups[users.order[i]].pids)
  {
  }

  /** One more pid queried: an exception ends the whole loop, a unit adds
      the pid to it, and no unit leaves the state as it was. */
  lemma CollectStep(done: seq<string>, pidlist: seq<string>, j: nat, svc: Units, query: string -> Result<Option<string>, Stop>)
    requires j < |pidlist| && Collect(done + pidlist[..j], query) == Ok(svc)
    ensures ValidUnits(svc)
    ensures query(pidlist[j]).Err? ==> Collect(done + pidlist, query) == Err(query(pidlist[j]).error)
    ensures query(pidlist[j]).Ok? ==>
              Collect(done + pidlist[..j + 1], query) ==
              Ok(if query(pidlist[j]).value.Some? && query(pidlist[j]).value.value != ""
                 then AddPid(svc, query(pidlist[j]).value.value, pidlist[j]) else svc)
  {
    var upto := done + pidlist[..j + 1];
    assert upto[..|upto| - 1] == done + pidlist[..j];
    if query(pidlist[j]).Err? {
      assert upto <= done + pidlist;
      CollectStopSticks(upto, done + pidlist, query);
    }
  }

  /** The inner loop of get_services over one group's sorted pids. */
  method QueryPids(ghost done: seq<string>, pidlist: seq<string>, svc0: Units, query: string -> Result<Option<string>, Stop>)
    returns (res: Result<Units, Stop>)
    requires Collect(done, query) == Ok(svc0)
    ensures res == Collect(done + pidlist, query)
  {
    var svc := svc0;
    assert done + pidlist[..0] == done;
    for j := 0 to |pidlist|
      invariant Collect(done + pidlist[..j], query) == Ok(svc)
    {
      var pid := pidlist[j];
      var unit := query(pid);
      CollectStep(done, pidlist, j, svc, query);
      if unit.Err? {
        return Err(unit.error);
      }
      if unit.value.Some? && unit.value.value != "" {
        svc := AddPid(svc, unit.value.value, pid);
      }
    }
    assert pidlist[..|pidlist|] == pidlist;
    return Ok(svc);
  }

  /** One more group queried: `done` are the pids queried before it and
      `next` those up to and including it, a prefix of all pids visited.
      A stop ends the whole loop; otherwise the state covers `next`. */
  lemma GroupStep(done: seq<string>, pidlist: seq<string>, next: seq<string>, whole: seq<string>,
                  query: string -> Result<Option<string>, Stop>, step: Result<Units, Stop>)
    requires done + pidlist == next && next <= whole
    requires step == Collect(done + pidlist, query)
    ensures step.Err? ==> Collect(whole, query) == step
    ensures step.Ok? ==> Collect(next, query) == step
  {
    if step.Err? {
      CollectStopSticks(next, whole, query);
    }
  }

  /** The body of the outer loop: queries the sorted pids of group `i`. */
  method QueryGroup(users: Users, i: nat, svc: Units, query: string -> Result<Option<string>, Stop>)
    returns (step: Result<Units, Stop>)
    requires Valid(users) && i < |users.order|
    requires Collect(VisitOrder(users, i), query) == Ok(svc)
    ensures step.Err? ==> step == Collect(VisitOrder(users, |users.order|), query)
    ensures step.Ok? ==> step == Collect(VisitOrder(users, i + 1), query)
  {
    var pidlist := Sorted(users.groups[users.order[i]].pids);
    step := QueryPids(VisitOrder(users, i), pidlist, svc, query);
    VisitStep(users, i);
    VisitPrefix(users, i + 1, |users.order|);
    GroupStep(VisitOrder(users, i), pidlist, VisitOrder(users, i + 1), VisitOrder(users, |users.order|), query, step);
  }

  /** The outer loop of get_services, over the groups in order. */
  method QueryGroups(users: Users, query: string -> Result<Option<string>, Stop>) returns (res: Result<Units, Stop>)
    requires Valid(users)
    ensures res == Collect(VisitOrder(users, |users.order|), query)
  {
    var svc := NoUnits;
    for i := 0 to |users.order|
      invariant Collect(VisitOrder(users, i), query) == Ok(svc)
    {
      var step := QueryGroup(users, i, svc, query);
      if step.Err? {
        return step;
      }
      svc := step.value;
    }
    return Ok(svc);
  }

  /** get_services: queries the unit of each pid, group by group; an
      OSError ends the loop and is reported in place of the listing. */
  method GetServices(users: Users, query: string -> Result<Option<string>, Stop>) returns (r: Result<string, PyError>)
    requires Valid(users)
    ensures r == ServicesReport(users, query)
  {
    var collected := QueryGroups(users, query);
    match collected
    case Err(CouldNotRun(reason)) => return Ok("Could not run systemctl: " + reason);
    case Err(Raised(e)) => return Err(e);
    case Ok(svc) =>
      var output: seq<string> := [];
      for k := 0 to |svc.order|
        invariant output == UnitLines(svc)[..k]
      {
        var key := svc.order[k];
        var line := Join(",", svc.pids[key]) + " belong to " + key;
        UnitLinesStep(svc, k, output, line);
        output := output + [line];
      }
      WholePrefix(UnitLines(svc));
      return Ok(Join("\n", output));
  }

  /** The listing exists iff every query returned. */
  lemma {:induction false} CollectOkIff(visit: seq<string>, query: string -> Result<Option<string>, Stop>)
    ensures Collect(visit, query).Ok? <==> forall k :: 0 <= k < |visit| ==> query(visit[k]).Ok?
    decreases |visit|
  {
    if |visit| > 0 {
      var init := visit[..|visit| - 1];
      CollectOkIff(init, query);
      assert forall k :: 0 <= k < |init| ==> init[k] == visit[k];
    }
  }

  /** The first query that raises decides the outcome, whatever follows it. */
  lemma CollectFirstStop(visit: seq<string>, query: string -> Result<Option<string>, Stop>, k: nat)
    requires k < |visit| && query(visit[k]).Err?
    requires forall j :: 0 <= j < k ==> query(visit[j]).Ok?
    ensures Collect(visit, query) == Err(query(visit[k]).error)
  {
    var upto := visit[..k + 1];
    assert upto[..k] == visit[..k];
    CollectOkIff(visit[..k], query);
    assert Collect(upto, query) == Err(query(visit[k]).error);
    CollectStopSticks(upto, visit, query);
  }

  /** The pids of visit that the query places in unit, in order. */
  function PidsOf(visit: seq<string>, query: string -> Result<Option<string>, Stop>, unit: string): (r: seq<string>)
    ensures forall pid :: pid in r <==> pid in visit && query(pid) == Ok(Some(unit))
    decreases |visit|
  {
    if |visit| == 0 then []
    else
      var init, last := visit[..|visit| - 1], visit[|visit| - 1];
      assert visit == init + [last];
      if query(last) == Ok(Some(unit)) then PidsOf(init, query, unit) + [last]
      else PidsOf(init, query, unit)
  }

  /** A completed listing has one line per unit named for some pid, and that
      unit's pids in the order they were queried. */
  lemma {:induction false} CollectContents(visit: seq<string>, query: string -> Result<Option<string>, Stop>, unit: string)
    requires Collect(visit, query).Ok?
    ensures unit in Collect(visit, query).value.pids <==> unit != "" && PidsOf(visit, query, unit) != []
    ensures unit in Collect(visit, query).value.pids ==> Collect(visit, query).value.pids[unit] == PidsOf(visit, query, unit)
    decreases |visit|
  {
    if |visit| > 0 {
      var init, last := visit[..|visit| - 1], visit[|visit| - 1];
      assert visit[..|visit| - 1] == init;
      CollectContents(init, query, unit);
      var before, after := Collect(init, query).value, Collect(visit, query).value;
      assert PidsOf(visit, query, unit) == PidsOf(init, query, unit) + (if query(last) == Ok(Some(unit)) then [last] else []);
      match query(last)
      case Ok(None) =>
        assert after == before;
      case Ok(Some(u)) =>
        if u == "" {
          assert after == before;
        } else {
          assert after == AddPid(before, u, last);
        }
    }
  }

  /** get_services queries exactly the pids of the users. */
  lemma {:induction false} VisitMembers(users: Users, n: nat, pid: string)
    requires Valid(users) && n <= |users.order|
    ensures pid in VisitOrder(users, n) <==>
            exists i :: 0 <= i < n && pid in users.groups[users.order[i]].pids
    decreases n
  {
    if n > 0 {
      VisitMembers(users, n - 1, pid);
      var last := users.groups[users.order[n - 1]].pids;
      assert pid in Sorted(last) <==> pid in last;
    }
  }

  /** When every queried pid belongs to the same unit, the listing is one
      line naming all of them in query order. */
  lemma {:induction false} CollectOneUnit(visit: seq<string>, query: string -> Result<Option<string>, Stop>, unit: string)
    requires unit != "" && |visit| > 0
    requires forall k :: 0 <= k < |visit| ==> query(visit[k]) == Ok(Some(unit))
    ensures Collect(visit, query) == Ok(Units([unit], map[unit := visit]))
    decreases |visit|
  {
    var init, last := visit[..|visit| - 1], visit[|visit| - 1];
    assert visit == init + [last];
    assert query(last) == Ok(Some(unit));
    if |init| == 0 {
      assert Collect(visit, query) == Ok(AddPid(NoUnits, unit, last));
      assert AddPid(NoUnits, unit, last) == Units([unit], map[unit := [last]]);
    } else {
      assert forall k :: 0 <= k < |init| ==> query(init[k]) == Ok(Some(unit)) by {
        assert forall k :: 0 <= k < |init| ==> init[k] == visit[k];
      }
      CollectOneUnit(init, query, unit);
      AddToOnly(unit, init, last);
    }
  }

  lemma AddToOnly(unit: string, xs: seq<string>, pid: string)
    ensures AddPid(Units([unit], map[unit := xs]), unit, pid) == Units([unit], map[unit := xs + [pid]])
  {
  }

  lemma ServicesOneUnit(users: Users, query: string -> Result<Option<string>, Stop>, unit: string)
    requires Valid(users) && unit != "" && |VisitOrder(users, |users.order|)| > 0
    requires forall pid :: query(pid) == Ok(Some(unit))
    ensures ServicesReport(users, query) == Ok(Join(",", VisitOrder(users, |users.order|)) + " belong to " + unit)
  {
    var visit := VisitOrder(users, |users.order|);
    CollectOneUnit(visit, query, unit);
    var lines := UnitLines(Units([unit], map[unit := visit]));
    assert lines == [Join(",", visit) + " belong to " + unit];
  }

  /** When systemctl cannot be run at all, the reason is reported instead
      of a listing. */
  lemma ServicesCannotRun(users: Users, query: string -> Result<Option<string>, Stop>, reason: string, argv: string, pid: string)
    requires Valid(users) && argv in users.groups && pid in users.groups[argv].pids
    requires forall p :: query(p) == Err(CouldNotRun(reason))
    ensures ServicesReport(users, query) == Ok("Could not run systemctl: " + reason)
  {
    var visit := VisitOrder(users, |users.order|);
    assert argv in users.order;
    var i :| 0 <= i < |users.order| && users.order[i] == argv;
    VisitMembers(users, |users.order|, pid);
    assert visit != [] by { assert pid in visit; }
    CollectFirstStop(visit, query, 0);
  }

  /** The two stand-ins for query_systemctl the documented examples use. */
  function ShmerviceQuery(pid: string): Result<Option<string>, Stop>
  {
    Ok(Some("service.shmervice"))
  }

  function BrokenQuery(pid: string): Result<Option<string>, Stop>
  {
    Err(CouldNotRun("Dummy Reason"))
  }

  function FooUsers(): (r: Users)
    ensures Valid(r)
  {
    OneGroup("/usr/bin/foo", Usage({"1", "2", "3"}, {"libbar", "libbaz"}))
  }

  lemma JoinThree()
    ensures Join(",", ["1", "2", "3"]) == "1,2,3"
  {
    var xs := ["1", "2", "3"];
    assert xs[1..] == ["2", "3"];
    assert ["2", "3"][1..] == ["3"];
    assert Join(",", ["3"]) == "3";
    assert Join(",", ["2", "3"]) == "2" + "," + "3";
    assert Join(",", xs) == "1" + "," + ("2" + "," + "3");
  }

  lemma FooVisit()
    ensures |FooUsers().order| == 1
    ensures VisitOrder(FooUsers(), 1) == ["1", "2", "3"]
  {
    var users := FooUsers();
    assert VisitOrder(users, 1) == Sorted({"1", "2", "3"});
    SortedOneTwoThree();
  }

  lemma SortedOneTwoThree()
    ensures Sorted({"1", "2", "3"}) == ["1", "2", "3"]
  {
    assert Lt("1", "2") by { assert "1"[0] < "2"[0]; }
    assert Lt("2", "3") by { assert "2"[0] < "3"[0]; }
    assert Lt("1", "3") by { assert "1"[0] < "3"[0]; }
    var xs := ["1", "2", "3"];
    assert StrictlySorted(xs);
    assert forall x :: x in xs <==> x in {"1", "2", "3"};
    SortedIs({"1", "2", "3"}, xs);
  }

  lemma ServicesGolden()
    ensures ServicesReport(FooUsers(), ShmerviceQuery) == Ok("1,2,3" + " belong to " + "service.shmervice")
  {
    FooVisit();
    ServicesOneUnit(FooUsers(), ShmerviceQuery, "service.shmervice");
    JoinThree();
  }

  lemma ServicesBroken()
    ensures ServicesReport(FooUsers(), BrokenQuery) == Ok("Could not run systemctl: Dummy Reason")
  {
    var users := FooUsers();
    assert "/usr/bin/foo" in users.groups && "1" in users.groups["/usr/bin/foo"].pids;
    ServicesCannotRun(users, BrokenQuery, "Dummy Reason", "/usr/bin/foo", "1");
    assert "Could not run systemctl: " + "Dummy Reason" == "Could not run systemctl: Dummy Reason";
  }
}
