# lib_users / fd_users in Dafny

lib_users and fd_users find running processes that still use files that
have been deleted or replaced on disk.

- **lib_users** reads each process's memory-mapping table
  (`/proc/<pid>/maps`). It collects the mapped files the kernel marks
  `(deleted)`, leaving out a denylist of pseudo-files.
- **fd_users** reads the targets of each process's descriptor links
  (`/proc/<pid>/fd`). It keeps the ones ending in ` (deleted)`, minus
  user-given ignore globs and literals.

Both tools group the processes they find by command line. They print the
grouping as a human-readable or a machine-readable table. They can also
ask `systemctl status` which service unit each pid belongs to.

This project states that logic in Dafny and proves properties of it. The
modules are:

- `Wrappers`: Option, Result and the Python exception `IndexError`.
- `Text`: the parts of Python's `str` the tools use: `strip`, `split()`,
  `split(c)`, `join`, `replace`, `startswith`, `endswith` and `in`. Also
  lemmas about them.
- `Order`: Python's code-point order on strings and `sorted` of a set.
- `Glob`: `fnmatch.fnmatch` with `*`, `?`, `[...]` and `[!...]`, anchored
  at both ends and case-sensitive.
- `Common` (lib_users_util/common.py, and the copies of the same functions
  in fd_users.py): these parts:
  - the command-line resolver;
  - the `users` grouping both main loops build;
  - `fmt_human` and `fmt_machine`;
  - the `systemctl` header parser;
  - `get_services`.
- `LibUsers` (lib_users.py): `get_deleted_libs` with its denylists, this
  file's own `get_progargs`, the pid extraction and the main loop.
- `FdUsers` (fd_users.py): `get_deleted_files`, `match_any`, the self-skip,
  the pid extraction and the main loop.
- `LibUsersExamples` and `FdUsersExamples`: the cases of test_libusers.py
  and test_fdusers.py, stated as lemmas.

How the source's state becomes Dafny:

- **Python's dict** is `Users(order, groups)`. `order` keeps the argvs in
  insertion order, which is the order `dict.items()` yields them.
- **Loops that build a value** (`deletedlibs`, `deletedfds`, `res`,
  `svc4pid`, `users`, `read_failure`) are methods with loops. Each is
  proved equal to a specification function, and the properties are lemmas
  about those functions.
- **Exceptions** are modelled as follows:
  - an IndexError that escapes is `Err(IndexError)`;
  - an IOError while reading a maps file is the `failed` flag of `MapsRead`;
  - an OSError from `readlink` is `LinkError`;
  - an OSError from starting `systemctl` is `Systemctl.OSError`.

## Model

| member | source | states |
|---|---|---|
| Text.Strip | lib_users_util/common.py:43 | strips leading and trailing whitespace. The result neither starts nor ends with whitespace, and it is a contiguous slice of the input with only whitespace cut off |
| Text.Words | lib_users.py:43 | `str.split()` with no argument: the whitespace-separated fields, none empty and none containing whitespace |
| Text.SplitOn | lib_users.py:163 | `str.split(c)`: at least one piece, and no piece contains `c` |
| Text.JoinSplitOn | lib_users_util/common.py:93 | joining the pieces of `s.split(c)` with `c` gives back `s` |
| Text.SplitOnJoin | lib_users_util/common.py:46 | splitting a join of pieces that do not contain `c` gives back the pieces |
| Text.Replace | lib_users_util/common.py:21 | `str.replace` of one character: same length, every `a` becomes `b`, every other character is kept |
| Text.JoinSplitIsReplace | lib_users_util/common.py:21 | splitting on `c` and joining with `d` is the same as replacing `c` by `d` |
| Order.LeTotal | lib_users_util/common.py:40 | code-point string order compares any two strings |
| Order.LeTransitive | lib_users_util/common.py:40 | code-point string order is transitive |
| Order.LeAntisymmetric | lib_users_util/common.py:40 | code-point string order is antisymmetric |
| Order.Sorted | lib_users_util/common.py:40 | `sorted(set)`: a sequence with exactly the members of the set |
| Order.SortedOrdered | lib_users_util/common.py:40 | the output of `sorted(set)` is strictly increasing |
| Order.SortedUnique | lib_users_util/common.py:40 | two strictly increasing sequences with the same members are equal, so `sorted` is determined by the set |
| Order.TenBeforeTwo | lib_users_util/common.py:40 | sorting is not numeric: `"10"` sorts before `"2"` |
| Glob.LiteralMatch | lib_users.py:44-46 | a pattern without wildcards matches exactly the name equal to it |
| Glob.PrefixStarMatch | lib_users.py:28 | a literal prefix followed by `*` matches exactly the names starting with that prefix |
| Glob.StarMatchesAll | fd_users.py:55 | `*` matches every name |
| Glob.ClassIsOneCharacter | lib_users.py:30 | as a pattern, `/[aio]` matches `/a` but not the text `/[aio]`, which is why it sits in the literal denylist |
| Common.ProgArgs | lib_users_util/common.py:13-21 | `get_progargs`: None exactly when the cmdline read failed; otherwise the same length as the input, every NUL turned into a space, and every other character kept in place |
| Common.ProgArgsExample | lib_users_util/test_common.py:45-52 | `"x\0b"` becomes `"x b"` |
| Common.PidOfProcPath | fd_users.py:203-208 | for `/proc/<pid>/<rest>` with a `/`-free pid, the extracted pid is `<pid>` |
| Common.PidOfShortPath | lib_users.py:162-167 | a path with fewer than two slashes gives `"unknown"`, as in the IndexError handler |
| Common.Record | lib_users.py:185-186 | `users[argv][0].add(pid); users[argv][1].update(items)` on the defaultdict: the group is created on first insertion and appended to the dict order; pid and items are unioned in; other groups are unchanged |
| Common.TallyFlag | fd_users.py:213-215 | after the loop, `read_failure` is true exactly when some process's read failed |
| Common.TallyKeys | fd_users.py:217-222 | after the loop, a command line is a key exactly when some recorded process has it |
| Common.TallyPids | fd_users.py:221 | under a command line, a pid is listed exactly when some recorded process under it has that pid |
| Common.TallyItems | fd_users.py:222 | under a command line, an item is listed exactly when some recorded process under it holds it |
| Common.TallyOrderIndependent | fd_users.py:196-222 | the grouping's keys, pid sets, item sets and flag do not depend on the order in which processes are visited |
| Common.PidInOneGroup | lib_users.py:181-186 | when each pid is seen with one command line, a pid is in exactly one group |
| Common.FmtHuman | lib_users_util/common.py:24-46 | the loop builds the lines of `HumanLines` joined by newlines |
| Common.FmtMachine | lib_users_util/common.py:49-65 | the loop builds the lines of `MachineLines` joined by newlines |
| Common.EmptyReports | lib_users_util/common.py:46 | both formats render an empty grouping as `""` |
| Common.HumanExample | lib_users_util/test_common.py:63-85 | one group with pids 1, 2 gives `1,2 "argv1"` |
| Common.HumanItemsExample | lib_users_util/test_common.py:87-110 | with items shown, the same group gives `1,2 "argv1" uses l1,l2` |
| Common.MachineExample | lib_users_util/test_common.py:112-138 | the same group in machine form gives `1,2;l1,l2;argv1` |
| Common.MachineNoItemsExample | lib_users_util/common.py:61-64 | an empty item set keeps both separators (`1;;argv1 argv2`), and the argv is stripped |
| Common.SplitListJoin | lib_users_util/common.py:62-63 | splitting a comma-joined list of comma-free names on `,` gives back the list |
| Common.MachineLineRoundTrip | lib_users_util/common.py:64 | a machine line read back on `;` and `,` gives the sorted pids, the sorted items and the stripped argv, when no name contains a separator |
| Common.HumanReportLines | lib_users_util/common.py:46 | splitting the human report on newlines gives back its lines, when no command line, pid or item contains a newline |
| Common.MachineReportLines | lib_users_util/common.py:65 | splitting the machine report on newlines gives back its lines, when no field contains a newline |
| Common.ParseUnit | lib_users_util/common.py:90-100 | `query_systemctl` parsing as written: None exactly when the no-unit notice occurs; a unit is one whitespace-free field holding no `-` |
| Common.ParseUnitPlainHeader | lib_users_util/common.py:92-96 | `unit - description` gives `unit` when the unit holds no hyphen |
| Common.ParseUnitBulletHeader | lib_users_util/common.py:92-99 | `● unit - description` gives `unit` when neither holds a hyphen |
| Common.ParseUnitClassicExample | lib_users_util/test_common.py:216-220 | `sshd.service - OpenSSH Daemon` gives `sshd.service` |
| Common.ParseUnitBulletExample | lib_users_util/test_common.py:222-226 | `● sshd.service - OpenSSH Daemon` gives `sshd.service` |
| Common.ParseUnitNoUnitExample | lib_users_util/test_common.py:228-231 | output containing `No unit for PID 1 is loaded.` gives None |
| Common.ParseUnitBlankHead | lib_users_util/common.py:93-99 | a first line starting with `-` leaves no field, and the lookup `fields[1]` raises IndexError |
| Common.ParseUnitNoFields | lib_users_util/common.py:99 | `-- journal begins --` raises IndexError |
| Common.ParseUnitCutsAtHyphen | lib_users_util/common.py:93 | as written, a unit name holding a hyphen is cut at it |
| Common.JournaldMisread | lib_users_util/common.py:93 | as written, `● systemd-journald.service - Journal Service` gives `systemd` |
| Common.ParseUnitFixed | lib_users_util/common.py:90-100 | the corrected parser cuts at `" - "`: None exactly when the notice occurs; a unit is one whitespace-free field |
| Common.ParseUnitFixedPlainHeader | lib_users_util/common.py:81 | with the corrected parser, `unit - description` gives `unit` for any whitespace-free unit, hyphens included |
| Common.ParseUnitFixedBulletHeader | lib_users_util/common.py:82 | with the corrected parser, `● unit - description` gives `unit`, hyphens included |
| Common.JournaldReadWhole | lib_users_util/common.py:93 | the corrected parser reads `systemd-journald.service` whole |
| Common.QuerySystemctl | lib_users_util/common.py:68-100 | fails with CouldNotRun exactly when systemctl could not be started; None exactly when its output holds the notice; any returned unit is a word holding no `-`, since the first line is cut at its first `-`; any other failure is an IndexError |
| Common.QuerySystemctlFixed | lib_users_util/common.py:68-100 | the corrected `query_systemctl`, through `ParseUnitFixed`: the same failure and None cases, and any returned unit is a word (hyphens kept) |
| Common.AddPid | lib_users_util/common.py:115 | `svc4pid[unit].append(pid)`: the pid is appended to that unit's list, the unit joins the end of the dict order on first use and the order is otherwise unchanged, and other units' lists are unchanged |
| Common.QueryPids | lib_users_util/common.py:112-115 | the inner loop extends the state of `Collect` by one group's pids |
| Common.QueryGroup | lib_users_util/common.py:111-115 | one pass of the outer loop extends the state of `Collect` by the sorted pids of one group; a stop is already the result of the whole loop |
| Common.QueryGroups | lib_users_util/common.py:110-115 | the nested loops compute `Collect` over all groups' pids, group by group and sorted within each group |
| Common.GetServices | lib_users_util/common.py:103-122 | `get_services` returns `ServicesReport` |
| Common.VisitMembers | lib_users_util/common.py:110-112 | the pids visited are exactly the pids of the groups |
| Common.CollectOkIff | lib_users_util/common.py:109-117 | collecting succeeds exactly when no query fails |
| Common.CollectFirstStop | lib_users_util/common.py:116-117 | the first failing query decides the result |
| Common.CollectStopSticks | lib_users_util/common.py:116-117 | once a query has failed, later pids change nothing |
| Common.CollectContents | lib_users_util/common.py:113-115 | a unit is a key exactly when it is non-empty and some pid maps to it, and its list is those pids in visit order; pids with no unit or an empty unit are left out |
| Common.ServicesOneUnit | lib_users_util/common.py:119-122 | when every pid maps to one unit, the report is the single line `pid,pid,... belong to unit` |
| Common.ServicesCannotRun | lib_users_util/common.py:116-117 | when systemctl cannot be run, the whole report is `Could not run systemctl: <reason>` with no partial lines |
| Common.ServicesGolden | lib_users_util/test_common.py:194-197 | pids 1, 2, 3 in `service.shmervice` give `1,2,3 belong to service.shmervice` |
| Common.ServicesBroken | lib_users_util/test_common.py:199-202 | a broken systemctl gives `Could not run systemctl: Dummy Reason` |
| LibUsers.BuiltinKept | lib_users.py:28-30 | with the built-in denylists, a path is kept exactly when it does not start with `/SYSV`, `/dev/shm/` or `/tmp/orcexec.` and is not one of the four literals |
| LibUsers.AioIsLiteral | lib_users.py:30 | `/[aio]` is rejected literally, while `/a` is kept |
| LibUsers.ExtendedRejectsMore | lib_users.py:238-239 | after `-i`/`-I` extend the denylists, a path is kept exactly when the old lists keep it and it matches no added glob and equals no added literal |
| LibUsers.LineCandidate | lib_users.py:40-55 | the candidate of one maps line is a whitespace-free token |
| LibUsers.CommonLayout | lib_users.py:42-43 | `<fields> <path> (deleted)` names `<path>` |
| LibUsers.OpenVZLayout | lib_users.py:50-51 | `<fields> (deleted)<path>` names `<path>`, the token with its first 9 characters removed |
| LibUsers.UnmarkedLine | lib_users.py:40-50 | a line whose last token neither starts nor ends with `(deleted)` names nothing |
| LibUsers.MalformedLines | lib_users.py:40-50 | an all-blank line, and a line that is only `(deleted)`, raise IndexError |
| LibUsers.KeepLibs | lib_users.py:39-57 | succeeds exactly when every line's candidate does |
| LibUsers.DeletedLibsMembers | lib_users.py:33-57 | `get_deleted_libs` fails exactly when some line raises; otherwise a path is in the set exactly when some line names it and the denylist keeps it |
| LibUsers.GetDeletedLibs | lib_users.py:33-57 | the loop adding to `deletedlibs` computes `DeletedLibs` |
| LibUsers.WellFormedTable | lib_users.py:37-47 | a table whose lines each name a path gives exactly the kept paths, with duplicates merged |
| LibUsers.UsualLayoutTable | lib_users.py:42-47 | a table of usual-layout lines gives exactly the kept paths |
| LibUsers.LibProgArgs | lib_users.py:60-71 | this file's `get_progargs`: None exactly when the read failed |
| LibUsers.LibProgArgsNoNul | lib_users.py:68-70 | the resolved command line holds no NUL |
| LibUsers.LibProgArgsAgrees | lib_users.py:68-71 | when no argument has blanks at its ends, this resolver agrees with common.py's |
| LibUsers.LibProgArgsTwo | lib_users.py:68-70 | two arguments are each stripped and joined by one space |
| LibUsers.LibObservation | lib_users.py:161-186 | one iteration of main raises exactly when a table that was opened holds a malformed line |
| LibUsers.AllOk | lib_users.py:161 | the loop stops at the first exception; otherwise it yields every value in order |
| LibUsers.ScanEntry | lib_users.py:162-186 | the loop body adds that iteration's observation to the state, or raises |
| LibUsers.ScanMaps | lib_users.py:155-186 | main's loop computes `LibScan` |
| LibUsers.LibScanFails | lib_users.py:175-179 | the scan raises exactly when some table it could open holds a malformed line (only IOError is caught) |
| LibUsers.ScanObservations | lib_users.py:161 | once the scan has not raised, each table contributes its own observation |
| LibUsers.LibScanReadFailure | lib_users.py:175-179 | `read_failure` is set exactly when reading some table failed |
| LibUsers.LibScanPids | lib_users.py:181-186 | a pid is listed under a command line exactly when some process with a deleted library and that non-empty command line has that pid |
| LibUsers.LibScanLibs | lib_users.py:181-186 | a library is listed under a command line exactly when some such process maps it as deleted |
| LibUsersExamples.NonLibsIgnored | test_libusers.py:31-41 | the five pseudo-file lines give the empty set |
| LibUsersExamples.LibsWithPatterns | test_libusers.py:43-54 | the same pseudo-files nested under `/lib` are all reported |
| LibUsersExamples.FindLibs | test_libusers.py:73-76 | the classic line gives `{"/lib64/libfindme.so"}` |
| LibUsersExamples.WrongOrder | test_libusers.py:78-81 | `(deleted)` before the path gives nothing |
| LibUsersExamples.MarkerInsidePath | test_libusers.py:83-86 | `(deleted)` inside a token gives nothing |
| LibUsersExamples.LongerMarker | test_libusers.py:88-91 | `(notdeleted)` gives nothing |
| LibUsersExamples.ShorterMarker | test_libusers.py:93-96 | `(delete)` gives nothing |
| FdUsers.MatchAny | fd_users.py:52-57 | `match_any` is true exactly when some pattern matches, and false for no patterns |
| FdUsers.KeptIff | fd_users.py:43-49 | a descriptor contributes `x` exactly when its target is `x + " (deleted)"`, `x` is no ignore literal and `x` matches no ignore glob |
| FdUsers.UnsuffixedIgnored | fd_users.py:43 | a target without the suffix contributes nothing |
| FdUsers.DeletedFilesOk | fd_users.py:42 | `get_deleted_files` returns exactly when every `readlink` succeeds |
| FdUsers.DeletedFilesMembers | fd_users.py:36-50 | a name is in the list exactly when some descriptor contributes it |
| FdUsers.DeletedFilesAppend | fd_users.py:36-49 | the list for a run of descriptors is the list for its first part followed by the list for the rest, so order and repeats are kept |
| FdUsers.DeletedFilesOne | fd_users.py:42-49 | one descriptor gives its contribution, or nothing |
| FdUsers.GetDeletedFiles | fd_users.py:24-50 | the loop with its `continue`s computes `DeletedFiles` |
| FdUsers.OwnDirIff | fd_users.py:197-200 | for `/proc/<p>/fd`, the prefix tests skip exactly `p` = `self`, `thread-self` or the scanner's own pid; another pid is never skipped, even one extending the scanner's own |
| FdUsers.FdObservation | fd_users.py:196-222 | one iteration records a process exactly when it is a `FdUser`, and flags a read failure exactly when a descriptor of a directory that was not skipped cannot be read |
| FdUsers.ScanFdEntry | fd_users.py:197-222 | the loop body adds that iteration's observation to the state |
| FdUsers.ScanFds | fd_users.py:193-222 | main's loop computes `FdScan` |
| FdUsers.FdScanReadFailure | fd_users.py:213-215 | `read_failure` is set exactly when some directory that was not skipped has an unreadable descriptor |
| FdUsers.FdScanPids | fd_users.py:217-221 | a pid is listed under a command line exactly when some recorded process has that pid and command line |
| FdUsers.FdScanFiles | fd_users.py:217-222 | a file is listed under a command line exactly when some recorded process with that command line holds it deleted |
| FdUsersExamples.SimpleCase | test_fdusers.py:59-67 | a live target gives `[]` |
| FdUsersExamples.OneDeletedFile | test_fdusers.py:69-77 | `/some/other/file (deleted)` gives `["/some/other/file"]` |
| FdUsersExamples.MixedFileStates | test_fdusers.py:79-91 | one deleted and one live target give the deleted one |
| FdUsersExamples.MixedWithLiteral | test_fdusers.py:93-107 | the matching literal removes it |
| FdUsersExamples.MixedWithLiteralNomatch | test_fdusers.py:109-123 | a literal that does not match changes nothing |
| FdUsersExamples.MixedWithPattern | test_fdusers.py:125-139 | the glob `/some/other/fil*` removes it |
| FdUsersExamples.MixedWithPatternNomatch | test_fdusers.py:141-155 | a glob that does not match changes nothing |
| FdUsersExamples.SameFileTwice | fd_users.py:36-49 | two descriptors on one deleted file give it twice |
| FdUsersExamples.ScanSkipsSelf | fd_users.py:196-222 | with the scanner's own directory and one other process, only the other is recorded, with its pid, its command line and the file |

## Left out

- Filesystem and process access are inputs to the model:
  - the procfs globs;
  - opening and reading the maps files;
  - `os.readlink`;
  - reading `/proc/<pid>/cmdline`.
  The main loops take one entry per matched path, holding what these calls returned.
  - lib_users: the path, the lines read, whether reading stopped with an IOError, and the cmdline read.
  - fd_users: the directory, the readlink result of each descriptor, and the cmdline read.
- `subprocess.Popen`/`communicate` and decoding the output bytes: `systemctl` is a function from pid to output text or OSError. `get_services` queries through a function parameter.
- `query_systemctl`'s `output` argument is left out. The model always takes the text from the `systemctl` parameter, which is what the `if not output` branch does, and what `get_services` uses, since it never passes `output`. So a caller passing its own text is not modelled, and neither is a passed `""` falling through to running systemctl.
- argparse, `print`, `sys.stderr.write`, the version flag and PERMWARNING are program I/O. The flags are plain booleans, so the stale attribute names `options.show_libs` and `options.machine_mode` in lib_users.py are not modelled.
- `os.getpid` is the `ownPid` parameter.
- `os.path.normpath` is left out: paths are taken as already normalised.
- `get_ignore_list` is left out: nothing calls it, and it reads the global `sys.argv`.
- lib_users.py's own `query_systemctl` and `get_services` (lines 117-152) are left out. They are an older variant without the no-unit check and without tests. The model follows common.py and fd_users.py.
- fd_users.py and lib_users.py carry copies of `fmt_human` and `fmt_machine`, and fd_users.py a copy of `get_services`. These are the same code as common.py apart from the flag's attribute name, so they are modelled once in `Common`. fd_users.py's `query_systemctl` (lines 115-146) differs from common.py's only in not decoding the output bytes, which the model leaves out anyway (see `subprocess` above).
- fd_users.py's `get_progargs` is `Common.ProgArgs`. lib_users.py's `get_progargs` differs (split, strip, join) and is `LibUsers.LibProgArgs`.
- Global denylist mutation (lib_users.py:238-239) is modelled as the `Denylist` parameter and `Extended`.
- `Glob.Fnmatch` covers `*`, `?`, `[...]`, `[!...]` and a `[` without a closing `]`. Some finer points of newer Python versions' `fnmatch.translate` are left out, such as dropping empty ranges like `[z-a]` and special handling of `-` next to a range.
- Python strings are sequences of code points. There is no encoding and no locale, and sorting is by code point.

These behaviours of the code are easy to miss; the model follows the code:

- A blank line, or a line that is only `(deleted)`, in a maps table raises IndexError from `line.split()[-1]` or `line.split()[-2]`. The scan stops, since only IOError is caught (`LibUsers.MalformedLines`, `LibUsers.LibScanFails`).
- `get_deleted_files` returns a list and keeps repeats (`FdUsers.DeletedFilesAppend`). The grouping takes the union, so the report shows each file once.
- `query_systemctl` cuts the header at the first `-`, although its comments show the `unit - description` layout. This is reported under Findings.

## Findings

| source | as written | input that shows it | evidently intended | confidence | as-written member | corrected member |
|---|---|---|---|---|---|---|
| lib_users_util/common.py:93 (also fd_users.py:139) | `header.split("-")[0].split()` cuts the first line at the first hyphen anywhere, including inside the unit name | `● systemd-journald.service - Journal Service` gives `systemd` | cut at the `" - "` between the unit name and its description, giving `systemd-journald.service` | high, not executed | Common.JournaldMisread | Common.JournaldReadWhole |

`Common.ParseUnitCutsAtHyphen` states the as-written behaviour for every
hyphenated unit name. `Common.ParseUnitFixedPlainHeader` and
`Common.ParseUnitFixedBulletHeader` prove that the corrected parser
(`Common.ParseUnitFixed`) reads both header layouts whole.
`Common.QuerySystemctl` uses the parser as written and `Common.QuerySystemctlFixed` the
corrected one. `Common.GetServices` takes the query as a parameter, so it
holds for either.
