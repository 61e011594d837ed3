/** The worklist with which fidlcat expands the paths of its command line: directories are searched
    for .fidl.json files, other entries are taken or reported. Paths are names; a directory is a
    name that has entries. */
module FidlPaths {
  import opened Common

  type Path = string

  const SUFFIX: string := ".fidl.json"

  /** The names that are directories with their entries, and the names that are regular files. */
  datatype FileSystem = FileSystem(entries: map<Path, seq<Path>>, regular: set<Path>)

  predicate EndsWith(value: Path, suffix: string) {
    |suffix| <= |value| && value[|value| - |suffix|..] == suffix
  }

  predicate IsDirectory(fs: FileSystem, p: Path) {
    p in fs.entries
  }

  predicate IsGivenFile(fs: FileSystem, p: Path) {
    !IsDirectory(fs, p) && p in fs.regular && EndsWith(p, SUFFIX)
  }

  predicate IsFoundFile(fs: FileSystem, p: Path) {
    !IsDirectory(fs, p) && EndsWith(p, SUFFIX)
  }

  lemma EndsWithIff(value: Path, suffix: string)
    ensures EndsWith(value, suffix) <==> exists stem: string :: value == stem + suffix
  {
    if EndsWith(value, suffix) {
      var stem := value[..|value| - |suffix|];
      assert value == stem + suffix;
    }
  }

  /** The files taken are the .fidl.json ones; those given on the command line have to exist. */
  lemma FilesTaken(fs: FileSystem, p: Path)
    ensures IsFoundFile(fs, p) <==> p !in fs.entries && exists stem: string :: p == stem + ".fidl.json"
    ensures IsGivenFile(fs, p) <==> IsFoundFile(fs, p) && p in fs.regular
  {
    EndsWithIff(p, ".fidl.json");
  }

  // ------------------------------------------------------------------ what is asked for

  /** `route` leads from a given directory down through subdirectories. */
  ghost predicate IsRoute(fs: FileSystem, given: seq<Path>, route: seq<Path>) {
    && route != [] && route[0] in given
    && (forall i :: 0 <= i < |route| ==> IsDirectory(fs, route[i]))
    && (forall i :: 0 <= i < |route| - 1 ==> route[i] in fs.entries && route[i + 1] in fs.entries[route[i]])
  }

  ghost predicate Reachable(fs: FileSystem, given: seq<Path>, d: Path) {
    exists route :: IsRoute(fs, given, route) && route[|route| - 1] == d
  }

  /** A file that is given, or found in a directory that can be reached from a given one. */
  ghost predicate Wanted(fs: FileSystem, given: seq<Path>, p: Path) {
    || (p in given && IsGivenFile(fs, p))
    || (IsFoundFile(fs, p) && exists d :: Reachable(fs, given, d) && d in fs.entries && p in fs.entries[d])
  }

  predicate IsBad(fs: FileSystem, p: Path) {
    !IsDirectory(fs, p) && !IsGivenFile(fs, p)
  }

  /** The given entries that are neither directories nor usable files, last one first. */
  function BadOnes(fs: FileSystem, given: seq<Path>): seq<Path> {
    if given == [] then [] else BadOnes(fs, given[1..]) + if IsBad(fs, given[0]) then [given[0]] else []
  }

  lemma GivenReachable(fs: FileSystem, given: seq<Path>, d: Path)
    requires d in given && IsDirectory(fs, d)
    ensures Reachable(fs, given, d)
  {
    var route := [d];
    assert IsRoute(fs, given, route) && route[|route| - 1] == d;
  }

  lemma EntryReachable(fs: FileSystem, given: seq<Path>, d: Path, e: Path)
    requires Reachable(fs, given, d) && IsDirectory(fs, d) && e in fs.entries[d] && IsDirectory(fs, e)
    ensures Reachable(fs, given, e)
  {
    var route :| IsRoute(fs, given, route) && route[|route| - 1] == d;
    var longer := route + [e];
    assert IsRoute(fs, given, longer) && longer[|longer| - 1] == e;
  }

  /** A set of directories that holds the given ones and, with a directory, its subdirectories,
      holds everything reachable. */
  lemma {:induction false} RouteStaysIn(fs: FileSystem, given: seq<Path>, route: seq<Path>, closed: set<Path>)
    requires IsRoute(fs, given, route)
    requires forall d :: d in given && IsDirectory(fs, d) ==> d in closed
    requires forall d, e :: d in closed && d in fs.entries && e in fs.entries[d] && IsDirectory(fs, e) ==> e in closed
    ensures route[|route| - 1] in closed
    decreases |route|
  {
    var n := |route| - 1;
    if n > 0 {
      RouteStaysIn(fs, given, route[..n], closed);
      assert route[n - 1] in closed && route[n] in fs.entries[route[n - 1]];
    }
  }

  // ------------------------------------------------------------------ the worklist

  /** Reading `d` adds its files to the paths and notes its subdirectories; `added` are the new ones. */
  ghost predicate HasRead(fs: FileSystem, d: Path, paths: seq<Path>, checked: set<Path>,
                          paths': seq<Path>, checked': set<Path>, added: seq<Path>)
    requires IsDirectory(fs, d)
  {
    && (forall p :: p in paths' <==> p in paths || (p in fs.entries[d] && IsFoundFile(fs, p)))
    && checked' == checked + (set e | e in fs.entries[d] && IsDirectory(fs, e))
    && (forall e :: e in added <==> e in checked' - checked)
  }

  // How often each file is added.

  /** The files among the entries of a directory. */
  function Files(fs: FileSystem, es: seq<Path>): multiset<Path> {
    if es == [] then multiset{}
    else
      var n := |es| - 1;
      if IsFoundFile(fs, es[n]) then Files(fs, es[..n]) + multiset{es[n]} else Files(fs, es[..n])
  }

  /** The files in the directories read, with each directory as often as it is read. */
  function FilesOf(fs: FileSystem, log: seq<Path>): multiset<Path> {
    if log == [] then multiset{}
    else
      var n := |log| - 1;
      if IsDirectory(fs, log[n]) then FilesOf(fs, log[..n]) + Files(fs, fs.entries[log[n]]) else FilesOf(fs, log[..n])
  }

  function GivenFiles(fs: FileSystem, given: seq<Path>): multiset<Path> {
    if given == [] then multiset{}
    else if IsGivenFile(fs, given[0]) then GivenFiles(fs, given[1..]) + multiset{given[0]}
    else GivenFiles(fs, given[1..])
  }

  /** An entry of a directory that can be reached. */
  ghost predicate Found(fs: FileSystem, given: seq<Path>, d: Path) {
    exists e :: Reachable(fs, given, e) && e in fs.entries && d in fs.entries[e]
  }

  /** What reading the entries `es` does: their files are added, one by one; their subdirectories are
      noted, and those not noted before are added to the worklist once. */
  ghost predicate CountsRead(fs: FileSystem, es: seq<Path>, paths: seq<Path>, checked: set<Path>,
                             paths': seq<Path>, checked': set<Path>, added: seq<Path>) {
    && multiset(paths') == multiset(paths) + Files(fs, es)
    && checked' == checked + (set e | e in es && IsDirectory(fs, e))
    && multiset(added) == multiset(checked' - checked)
  }

  lemma {:induction false} FilesHas(fs: FileSystem, es: seq<Path>, p: Path)
    ensures p in Files(fs, es) <==> p in es && IsFoundFile(fs, p)
  {
    if es != [] {
      var n := |es| - 1;
      FilesHas(fs, es[..n], p);
      assert es == es[..n] + [es[n]];
    }
  }

  lemma ReadMeans(fs: FileSystem, d: Path, paths: seq<Path>, checked: set<Path>,
                  paths': seq<Path>, checked': set<Path>, added: seq<Path>)
    requires IsDirectory(fs, d) && CountsRead(fs, fs.entries[d], paths, checked, paths', checked', added)
    ensures HasRead(fs, d, paths, checked, paths', checked', added)
  {
    forall p ensures p in paths' <==> p in paths || (p in fs.entries[d] && IsFoundFile(fs, p)) {
      FilesHas(fs, fs.entries[d], p);
      assert p in paths' <==> p in multiset(paths');
      assert p in paths <==> p in multiset(paths);
    }
    forall e ensures e in added <==> e in checked' - checked {
      assert e in added <==> e in multiset(added);
    }
  }

  lemma FilesAppend(fs: FileSystem, es: seq<Path>, e: Path)
    ensures Files(fs, es + [e]) == if IsFoundFile(fs, e) then Files(fs, es) + multiset{e} else Files(fs, es)
  {
    assert (es + [e])[..|es|] == es;
  }

  lemma NotedOnce(checked: set<Path>, checked': set<Path>, e: Path)
    requires checked <= checked' && e !in checked'
    ensures multiset((checked' + {e}) - checked) == multiset(checked' - checked) + multiset{e}
  {
    assert (checked' + {e}) - checked == (checked' - checked) + {e};
  }

  lemma NotedNext(fs: FileSystem, es: seq<Path>, e: Path, checked: set<Path>)
    ensures checked + (set x | x in es + [e] && IsDirectory(fs, x)) ==
            checked + (set x | x in es && IsDirectory(fs, x)) + if IsDirectory(fs, e) then {e} else {}
  {
  }

  /** One entry more. */
  lemma ReadMore(fs: FileSystem, es: seq<Path>, e: Path, paths: seq<Path>, checked: set<Path>,
                 paths': seq<Path>, checked': set<Path>, added: seq<Path>)
    requires CountsRead(fs, es, paths, checked, paths', checked', added)
    ensures var isNew := IsDirectory(fs, e) && e !in checked';
            CountsRead(fs, es + [e], paths, checked, if IsFoundFile(fs, e) then paths' + [e] else paths',
                       if isNew then checked' + {e} else checked', added + if isNew then [e] else [])
  {
    assert added + [] == added;
    FilesAppend(fs, es, e);
    NotedNext(fs, es, e, checked);
    if IsDirectory(fs, e) && e !in checked' {
      NotedOnce(checked, checked', e);
    } else if IsDirectory(fs, e) {
      assert checked' + {e} == checked';
    }
  }

  /** Notes and queues one entry that is a directory, takes one that is a file. */
  method TakeEntry(fs: FileSystem, e: Path, paths: seq<Path>, checked: set<Path>, work: seq<Path>)
    returns (paths': seq<Path>, checked': set<Path>, work': seq<Path>, ghost added: seq<Path>)
    ensures var isNew := IsDirectory(fs, e) && e !in checked;
            && paths' == (if IsFoundFile(fs, e) then paths + [e] else paths)
            && checked' == (if isNew then checked + {e} else checked)
            && added == (if isNew then [e] else []) && work' == work + added
  {
    paths', checked', work', added := paths, checked, work, [];
    if IsDirectory(fs, e) {
      if e !in checked {
        checked' := checked + {e};
        work', added := work + [e], [e];
      }
    } else if EndsWith(e, SUFFIX) {
      paths' := paths + [e];
    }
  }

  method ReadEntries(fs: FileSystem, es: seq<Path>, paths: seq<Path>, checked: set<Path>, work: seq<Path>)
    returns (paths': seq<Path>, checked': set<Path>, work': seq<Path>, ghost added: seq<Path>)
    ensures work' == work + added && CountsRead(fs, es, paths, checked, paths', checked', added)
  {
    paths', checked', work', added := paths, checked, work, [];
    ReadNone(fs, paths, checked);
    assert es[..0] == [];
    for i := 0 to |es|
      invariant CountsRead(fs, es[..i], paths, checked, paths', checked', added)
      invariant work' == work + added
    {
      var e := es[i];
      assert es[..i + 1] == es[..i] + [e];
      ReadMore(fs, es[..i], e, paths, checked, paths', checked', added);
      ghost var more;
      paths', checked', work', more := TakeEntry(fs, e, paths', checked', work');
      Assoc(work, added, more);
      added := added + more;
    }
    assert es[..|es|] == es;
  }

  lemma ReadNone(fs: FileSystem, paths: seq<Path>, checked: set<Path>)
    ensures CountsRead(fs, [], paths, checked, paths, checked, [])
  {
    assert checked - checked == {};
  }

  /** Reads one directory: queues its subdirectories not seen before, takes its files. */
  method ReadDirectory(fs: FileSystem, d: Path, paths: seq<Path>, checked: set<Path>, work: seq<Path>)
    returns (paths': seq<Path>, checked': set<Path>, work': seq<Path>, ghost added: seq<Path>)
    requires IsDirectory(fs, d)
    ensures work' == work + added && CountsRead(fs, fs.entries[d], paths, checked, paths', checked', added)
    ensures HasRead(fs, d, paths, checked, paths', checked', added)
    ensures checked' == checked ==> added == []
  {
    paths', checked', work', added := ReadEntries(fs, fs.entries[d], paths, checked, work);
    ReadMeans(fs, d, paths, checked, paths', checked', added);
    NothingAdded(checked, checked', added);
  }

  lemma NothingAdded(checked: set<Path>, checked': set<Path>, added: seq<Path>)
    requires multiset(added) == multiset(checked' - checked)
    ensures checked' == checked ==> added == []
  {
    assert |multiset(added)| == |added|;
    assert checked' == checked ==> checked' - checked == {};
  }

  /** Of what has been done so far nothing was unwanted. `expanded` are the directories read. */
  ghost predicate Justified(fs: FileSystem, given: seq<Path>, paths: seq<Path>, checked: set<Path>, expanded: set<Path>) {
    && (forall p :: p in paths ==> Wanted(fs, given, p))
    && (forall d :: d in checked || d in expanded ==> IsDirectory(fs, d) && Reachable(fs, given, d))
  }

  /** The directories read have passed on their entries; subdirectories noted are read or queued. */
  ghost predicate Passed(fs: FileSystem, paths: seq<Path>, checked: set<Path>, expanded: set<Path>, queued: seq<Path>) {
    && (forall d, e :: d in expanded && d in fs.entries && e in fs.entries[d] ==>
          (IsDirectory(fs, e) ==> e in checked) && (IsFoundFile(fs, e) ==> e in paths))
    && (forall d :: d in checked ==> d in expanded || d in queued)
    && (forall d :: d in queued ==> IsDirectory(fs, d) && d in checked)
  }

  /** The given entries `done` have been dealt with. */
  ghost predicate Served(fs: FileSystem, done: seq<Path>, paths: seq<Path>, expanded: set<Path>) {
    forall p :: p in done ==> (IsDirectory(fs, p) ==> p in expanded) && (IsGivenFile(fs, p) ==> p in paths)
  }

  /** The state of the loop: `k` given entries and the queued directories are still to be done. */
  ghost predicate Inv(fs: FileSystem, given: seq<Path>, k: nat, queued: seq<Path>, paths: seq<Path>,
                      badPaths: seq<Path>, checked: set<Path>, expanded: set<Path>) {
    && k <= |given|
    && Justified(fs, given, paths, checked, expanded)
    && Passed(fs, paths, checked, expanded, queued)
    && Served(fs, given[k..], paths, expanded)
    && badPaths == BadOnes(fs, given[k..])
  }

  /** Taking the last entry of the worklist: a queued directory if there is one, else a given entry. */
  ghost predicate Popped(given: seq<Path>, k: nat, queued: seq<Path>, k': nat, queued': seq<Path>, current: Path) {
    if queued != [] then k' == k && queued == queued' + [current]
    else 0 < k <= |given| && k' == k - 1 && queued' == [] && current == given[k - 1]
  }

  ghost predicate Visited(fs: FileSystem, current: Path, paths: seq<Path>, badPaths: seq<Path>, checked: set<Path>,
                          paths': seq<Path>, badPaths': seq<Path>, checked': set<Path>, added: seq<Path>) {
    if IsDirectory(fs, current) then badPaths' == badPaths && HasRead(fs, current, paths, checked, paths', checked', added)
    else
      && checked' == checked && added == []
      && paths' == (if IsGivenFile(fs, current) then paths + [current] else paths)
      && badPaths' == (if IsGivenFile(fs, current) then badPaths else badPaths + [current])
  }

  lemma ReadKeeps(fs: FileSystem, given: seq<Path>, d: Path, paths: seq<Path>, checked: set<Path>,
                  expanded: set<Path>, queued: seq<Path>, paths': seq<Path>, checked': set<Path>, added: seq<Path>)
    requires Justified(fs, given, paths, checked, expanded) && Reachable(fs, given, d) && IsDirectory(fs, d)
    requires Passed(fs, paths, checked, expanded, queued + [d]) || Passed(fs, paths, checked, expanded, queued)
    requires HasRead(fs, d, paths, checked, paths', checked', added)
    ensures Justified(fs, given, paths', checked', expanded + {d})
    ensures Passed(fs, paths', checked', expanded + {d}, queued + added)
  {
    forall e | e in fs.entries[d] && IsDirectory(fs, e) ensures Reachable(fs, given, e) {
      EntryReachable(fs, given, d, e);
    }
    assert forall e :: e in queued ==> e in queued + [d];
  }

  lemma BadCons(fs: FileSystem, given: seq<Path>, k: nat)
    requires 0 < k <= |given|
    ensures given[k - 1..] == [given[k - 1]] + given[k..]
    ensures BadOnes(fs, given[k - 1..]) == BadOnes(fs, given[k..]) + if IsBad(fs, given[k - 1]) then [given[k - 1]] else []
  {
    assert given[k - 1..][1..] == given[k..];
  }

  /** A queued directory has been read. */
  lemma QueuedDone(fs: FileSystem, given: seq<Path>, k: nat, queued: seq<Path>, d: Path, paths: seq<Path>,
                   badPaths: seq<Path>, checked: set<Path>, expanded: set<Path>, paths': seq<Path>,
                   checked': set<Path>, added: seq<Path>)
    requires Inv(fs, given, k, queued + [d], paths, badPaths, checked, expanded) && IsDirectory(fs, d)
    requires HasRead(fs, d, paths, checked, paths', checked', added)
    ensures Inv(fs, given, k, queued + added, paths', badPaths, checked', expanded + {d})
  {
    assert (queued + [d])[|queued|] == d && d in checked;
    ReadKeeps(fs, given, d, paths, checked, expanded, queued, paths', checked', added);
  }

  /** A given directory has been read. */
  lemma GivenDone(fs: FileSystem, given: seq<Path>, k: nat, paths: seq<Path>, badPaths: seq<Path>,
                  checked: set<Path>, expanded: set<Path>, paths': seq<Path>, checked': set<Path>, added: seq<Path>)
    requires 0 < k && Inv(fs, given, k, [], paths, badPaths, checked, expanded) && IsDirectory(fs, given[k - 1])
    requires HasRead(fs, given[k - 1], paths, checked, paths', checked', added)
    ensures Inv(fs, given, k - 1, [] + added, paths', badPaths, checked', expanded + {given[k - 1]})
  {
    BadCons(fs, given, k);
    GivenReachable(fs, given, given[k - 1]);
    ReadKeeps(fs, given, given[k - 1], paths, checked, expanded, [], paths', checked', added);
  }

  /** A given entry that is no directory has been dealt with. */
  lemma EntryDone(fs: FileSystem, given: seq<Path>, k: nat, paths: seq<Path>, badPaths: seq<Path>,
                  checked: set<Path>, expanded: set<Path>)
    requires 0 < k && Inv(fs, given, k, [], paths, badPaths, checked, expanded) && !IsDirectory(fs, given[k - 1])
    ensures var p := given[k - 1];
            Inv(fs, given, k - 1, [], if IsGivenFile(fs, p) then paths + [p] else paths,
                if IsGivenFile(fs, p) then badPaths else badPaths + [p], checked, expanded)
  {
    BadCons(fs, given, k);
  }

  lemma QueuedIsDirectory(fs: FileSystem, paths: seq<Path>, checked: set<Path>, expanded: set<Path>, queued: seq<Path>, d: Path)
    requires Passed(fs, paths, checked, expanded, queued + [d])
    ensures IsDirectory(fs, d) && d in checked
  {
    assert (queued + [d])[|queued|] == d;
  }

  lemma VisitKeeps(fs: FileSystem, given: seq<Path>, k: nat, queued: seq<Path>, k': nat, queued': seq<Path>, current: Path,
                   paths: seq<Path>, badPaths: seq<Path>, checked: set<Path>, expanded: set<Path>,
                   paths': seq<Path>, badPaths': seq<Path>, checked': set<Path>, added: seq<Path>)
    requires Inv(fs, given, k, queued, paths, badPaths, checked, expanded)
    requires Popped(given, k, queued, k', queued', current)
    requires Visited(fs, current, paths, badPaths, checked, paths', badPaths', checked', added)
    ensures Inv(fs, given, k', queued' + added, paths', badPaths', checked',
                if IsDirectory(fs, current) then expanded + {current} else expanded)
  {
    if queued != [] {
      QueuedIsDirectory(fs, paths, checked, expanded, queued', current);
      QueuedDone(fs, given, k, queued', current, paths, badPaths, checked, expanded, paths', checked', added);
    } else if IsDirectory(fs, current) {
      GivenDone(fs, given, k, paths, badPaths, checked, expanded, paths', checked', added);
    } else {
      EntryDone(fs, given, k, paths, badPaths, checked, expanded);
    }
  }

  // ------------------------------------------------------------------ counting

  /** A directory has been read, or is queued to be, once for each time it was given and once if noted. */
  ghost predicate EachCounted(fs: FileSystem, done: seq<Path>, queued: seq<Path>, log: seq<Path>, checked: set<Path>) {
    forall d :: IsDirectory(fs, d) ==>
      multiset(log)[d] + multiset(queued)[d] == multiset(done)[d] + if d in checked then 1 else 0
  }

  /** Each directory read was given or noted; `log` are the directories read so far. */
  ghost predicate Counted(fs: FileSystem, given: seq<Path>, k: nat, queued: seq<Path>, log: seq<Path>,
                          paths: seq<Path>, checked: set<Path>) {
    && k <= |given|
    && multiset(paths) == GivenFiles(fs, given[k..]) + FilesOf(fs, log)
    && EachCounted(fs, given[k..], queued, log, checked)
    && (forall d :: d in log ==> IsDirectory(fs, d))
    && (forall d :: d in checked ==> Found(fs, given, d))
  }

  lemma LogDirectory(fs: FileSystem, log: seq<Path>, d: Path)
    requires IsDirectory(fs, d)
    ensures FilesOf(fs, log + [d]) == FilesOf(fs, log) + Files(fs, fs.entries[d])
  {
    assert (log + [d])[..|log|] == log;
  }

  lemma GivenCons(fs: FileSystem, given: seq<Path>, k: nat)
    requires 0 < k <= |given|
    ensures var p := given[k - 1];
            && GivenFiles(fs, given[k - 1..]) ==
                 (if IsGivenFile(fs, p) then GivenFiles(fs, given[k..]) + multiset{p} else GivenFiles(fs, given[k..]))
            && multiset(given[k - 1..]) == multiset(given[k..]) + multiset{p}
  {
    assert given[k - 1..] == [given[k - 1]] + given[k..] && given[k - 1..][1..] == given[k..];
  }

  lemma NotedFound(fs: FileSystem, given: seq<Path>, d: Path, checked: set<Path>, checked': set<Path>)
    requires IsDirectory(fs, d) && Reachable(fs, given, d)
    requires checked' == checked + set e | e in fs.entries[d] && IsDirectory(fs, e)
    requires forall e :: e in checked ==> Found(fs, given, e)
    ensures forall e :: e in checked' ==> Found(fs, given, e)
  {
  }

  lemma CountedEach(log: seq<Path>, log': seq<Path>, queued: seq<Path>, queued': seq<Path>, added: seq<Path>,
                    given: multiset<Path>, given': multiset<Path>, checked: set<Path>, checked': set<Path>, d: Path)
    requires checked <= checked' && multiset(added) == multiset(checked' - checked)
    requires multiset(log')[d] + multiset(queued')[d] + given[d] == multiset(log)[d] + multiset(queued)[d] + given'[d]
    requires multiset(log)[d] + multiset(queued)[d] == given[d] + if d in checked then 1 else 0
    ensures multiset(log')[d] + multiset(queued' + added)[d] == given'[d] + if d in checked' then 1 else 0
  {
    assert multiset(queued' + added)[d] == multiset(queued')[d] + multiset(added)[d];
    assert multiset(checked' - checked)[d] == if d in checked' && d !in checked then 1 else 0;
  }

  lemma PopCount(given: seq<Path>, k: nat, queued: seq<Path>, k': nat, queued': seq<Path>, current: Path, log: seq<Path>, d: Path)
    requires k <= |given| && Popped(given, k, queued, k', queued', current)
    ensures multiset(log + [current])[d] + multiset(queued')[d] + multiset(given[k..])[d]
         == multiset(log)[d] + multiset(queued)[d] + multiset(given[k'..])[d]
  {
    assert multiset(log + [current]) == multiset(log) + multiset{current};
    if queued != [] {
      assert multiset(queued) == multiset(queued') + multiset{current};
    } else {
      assert given[k'..] == [current] + given[k..];
    }
  }

  /** A directory, queued or given, has been read. */
  lemma CountDirectory(fs: FileSystem, given: seq<Path>, k: nat, queued: seq<Path>, k': nat, queued': seq<Path>, current: Path,
                       log: seq<Path>, paths: seq<Path>, checked: set<Path>, paths': seq<Path>, checked': set<Path>, added: seq<Path>)
    requires Counted(fs, given, k, queued, log, paths, checked) && Popped(given, k, queued, k', queued', current)
    requires IsDirectory(fs, current) && CountsRead(fs, fs.entries[current], paths, checked, paths', checked', added)
    requires forall e :: e in checked' ==> Found(fs, given, e)
    ensures Counted(fs, given, k', queued' + added, log + [current], paths', checked')
  {
    FilesCounted(fs, given, k, queued, k', queued', current, log);
    EachDirectory(fs, given, k, queued, k', queued', current, log, checked, checked', added);
  }

  lemma FilesCounted(fs: FileSystem, given: seq<Path>, k: nat, queued: seq<Path>, k': nat, queued': seq<Path>, current: Path,
                     log: seq<Path>)
    requires k <= |given| && Popped(given, k, queued, k', queued', current) && IsDirectory(fs, current)
    ensures GivenFiles(fs, given[k'..]) + FilesOf(fs, log + [current]) ==
            GivenFiles(fs, given[k..]) + FilesOf(fs, log) + Files(fs, fs.entries[current])
  {
    LogDirectory(fs, log, current);
    if queued == [] {
      GivenCons(fs, given, k);
    }
  }

  lemma EachDirectory(fs: FileSystem, given: seq<Path>, k: nat, queued: seq<Path>, k': nat, queued': seq<Path>, current: Path,
                      log: seq<Path>, checked: set<Path>, checked': set<Path>, added: seq<Path>)
    requires k <= |given| && Popped(given, k, queued, k', queued', current)
    requires EachCounted(fs, given[k..], queued, log, checked)
    requires checked <= checked' && multiset(added) == multiset(checked' - checked)
    ensures EachCounted(fs, given[k'..], queued' + added, log + [current], checked')
  {
    forall d | IsDirectory(fs, d)
      ensures multiset(log + [current])[d] + multiset(queued' + added)[d]
           == multiset(given[k'..])[d] + if d in checked' then 1 else 0
    {
      PopCount(given, k, queued, k', queued', current, log, d);
      CountedEach(log, log + [current], queued, queued', added, multiset(given[k..]), multiset(given[k'..]), checked, checked', d);
    }
  }

  lemma CountEntry(fs: FileSystem, given: seq<Path>, k: nat, log: seq<Path>, paths: seq<Path>, checked: set<Path>)
    requires 0 < k && Counted(fs, given, k, [], log, paths, checked) && !IsDirectory(fs, given[k - 1])
    ensures var p := given[k - 1];
            Counted(fs, given, k - 1, [], log, if IsGivenFile(fs, p) then paths + [p] else paths, checked)
  {
    GivenCons(fs, given, k);
  }

  lemma VisitCounts(fs: FileSystem, given: seq<Path>, k: nat, queued: seq<Path>, k': nat, queued': seq<Path>, current: Path,
                    log: seq<Path>, paths: seq<Path>, badPaths: seq<Path>, checked: set<Path>, expanded: set<Path>,
                    paths': seq<Path>, badPaths': seq<Path>, checked': set<Path>, added: seq<Path>)
    requires Counted(fs, given, k, queued, log, paths, checked) && Popped(given, k, queued, k', queued', current)
    requires Inv(fs, given, k, queued, paths, badPaths, checked, expanded)
    requires Visited(fs, current, paths, badPaths, checked, paths', badPaths', checked', added)
    requires IsDirectory(fs, current) ==> CountsRead(fs, fs.entries[current], paths, checked, paths', checked', added)
    ensures Counted(fs, given, k', queued' + added, if IsDirectory(fs, current) then log + [current] else log, paths', checked')
  {
    if queued != [] {
      QueuedIsDirectory(fs, paths, checked, expanded, queued', current);
    }
    if IsDirectory(fs, current) {
      if queued == [] {
        GivenReachable(fs, given, current);
      }
      NotedFound(fs, given, current, checked, checked');
      CountDirectory(fs, given, k, queued, k', queued', current, log, paths, checked, paths', checked', added);
    } else {
      CountEntry(fs, given, k, log, paths, checked);
    }
  }

  /** When all is done every directory has been read once for each time it was given, and once more if it
      is found in a directory that can be reached. */
  lemma AllCounted(fs: FileSystem, given: seq<Path>, log: seq<Path>, paths: seq<Path>, badPaths: seq<Path>,
                   checked: set<Path>, expanded: set<Path>)
    requires Counted(fs, given, 0, [], log, paths, checked) && Inv(fs, given, 0, [], paths, badPaths, checked, expanded)
    ensures multiset(paths) == GivenFiles(fs, given) + FilesOf(fs, log)
    ensures forall d :: d in log ==> IsDirectory(fs, d)
    ensures forall d :: IsDirectory(fs, d) ==>
              multiset(log)[d] == multiset(given)[d] + if Found(fs, given, d) then 1 else 0
  {
    assert given[0..] == given;
    forall d | IsDirectory(fs, d) && Found(fs, given, d) ensures d in checked {
      var e :| Reachable(fs, given, e) && e in fs.entries && d in fs.entries[e];
      NotedIn(fs, given, paths, checked, expanded, e, d);
    }
  }

  lemma NotedIn(fs: FileSystem, given: seq<Path>, paths: seq<Path>, checked: set<Path>, expanded: set<Path>, e: Path, d: Path)
    requires Passed(fs, paths, checked, expanded, []) && Served(fs, given, paths, expanded)
    requires Reachable(fs, given, e) && e in fs.entries && d in fs.entries[e] && IsDirectory(fs, d)
    ensures d in checked
  {
    var route :| IsRoute(fs, given, route) && route[|route| - 1] == e;
    assert checked <= expanded;
    RouteStaysIn(fs, given, route, expanded);
  }

  // ------------------------------------------------------------------ the end

  lemma FoundIn(fs: FileSystem, given: seq<Path>, paths: seq<Path>, checked: set<Path>, expanded: set<Path>, d: Path, p: Path)
    requires Passed(fs, paths, checked, expanded, []) && Served(fs, given, paths, expanded)
    requires Reachable(fs, given, d) && d in fs.entries && p in fs.entries[d] && IsFoundFile(fs, p)
    ensures p in paths
  {
    var route :| IsRoute(fs, given, route) && route[|route| - 1] == d;
    assert checked <= expanded;
    RouteStaysIn(fs, given, route, expanded);
  }

  lemma AllDone(fs: FileSystem, given: seq<Path>, paths: seq<Path>, badPaths: seq<Path>, checked: set<Path>, expanded: set<Path>)
    requires Inv(fs, given, 0, [], paths, badPaths, checked, expanded)
    ensures forall p :: p in paths <==> Wanted(fs, given, p)
    ensures badPaths == BadOnes(fs, given)
  {
    assert given[0..] == given;
    forall p | Wanted(fs, given, p) ensures p in paths {
      if !(p in given && IsGivenFile(fs, p)) {
        var d :| Reachable(fs, given, d) && d in fs.entries && p in fs.entries[d];
        FoundIn(fs, given, paths, checked, expanded, d, p);
      }
    }
  }

  /** One turn of the loop, after an entry has been taken off the worklist. */
  method Visit(fs: FileSystem, current: Path, paths: seq<Path>, badPaths: seq<Path>, checked: set<Path>, work: seq<Path>)
    returns (paths': seq<Path>, badPaths': seq<Path>, checked': set<Path>, work': seq<Path>, ghost added: seq<Path>)
    ensures work' == work + added && Visited(fs, current, paths, badPaths, checked, paths', badPaths', checked', added)
    ensures IsDirectory(fs, current) ==> CountsRead(fs, fs.entries[current], paths, checked, paths', checked', added)
    ensures checked' == checked ==> work' == work
    ensures checked <= checked' <= checked + fs.entries.Keys
  {
    paths', badPaths', checked', work', added := paths, badPaths, checked, work, [];
    if IsDirectory(fs, current) {
      paths', checked', work', added := ReadDirectory(fs, current, paths, checked, work);
    } else if current in fs.regular && EndsWith(current, SUFFIX) {
      paths' := paths + [current];
    } else {
      badPaths' := badPaths + [current];
    }
  }

  lemma PoppedOff(given: seq<Path>, k: nat, queued: seq<Path>, work: seq<Path>) returns (k': nat, queued': seq<Path>)
    requires k <= |given| && work == given[..k] + queued && work != []
    ensures Popped(given, k, queued, k', queued', work[|work| - 1])
    ensures k' <= |given| && work[..|work| - 1] == given[..k'] + queued'
  {
    if queued != [] {
      k', queued' := k, queued[..|queued| - 1];
    } else {
      k', queued' := k - 1, [];
    }
  }

  /** One turn of the loop. */
  method Turn(fs: FileSystem, ghost given: seq<Path>, ghost k: nat, ghost queued: seq<Path>, ghost expanded: set<Path>,
              ghost log: seq<Path>,
              paths: seq<Path>, badPaths: seq<Path>, checked: set<Path>, work: seq<Path>)
    returns (ghost k': nat, ghost queued': seq<Path>, ghost expanded': set<Path>, ghost log': seq<Path>,
             paths': seq<Path>, badPaths': seq<Path>, checked': set<Path>, work': seq<Path>)
    requires Inv(fs, given, k, queued, paths, badPaths, checked, expanded)
    requires Counted(fs, given, k, queued, log, paths, checked)
    requires work == given[..k] + queued && work != []
    ensures Counted(fs, given, k', queued', log', paths', checked')
    ensures Inv(fs, given, k', queued', paths', badPaths', checked', expanded')
    ensures work' == given[..k'] + queued'
    ensures checked <= checked' <= checked + fs.entries.Keys
    ensures checked' == checked ==> |work'| < |work|
  {
    var n := |work| - 1;
    var current := work[n];
    ghost var k0, q0 := PoppedOff(given, k, queued, work);
    ghost var added;
    paths', badPaths', checked', work', added := Visit(fs, current, paths, badPaths, checked, work[..n]);
    VisitKeeps(fs, given, k, queued, k0, q0, current, paths, badPaths, checked, expanded,
               paths', badPaths', checked', added);
    VisitCounts(fs, given, k, queued, k0, q0, current, log, paths, badPaths, checked, expanded,
                paths', badPaths', checked', added);
    expanded' := if IsDirectory(fs, current) then expanded + {current} else expanded;
    log' := if IsDirectory(fs, current) then log + [current] else log;
    k', queued' := k0, q0 + added;
    Assoc(given[..k'], q0, added);
  }

  lemma MoreSeen(fs: FileSystem, seen: set<Path>, checked: set<Path>)
    requires seen <= checked <= seen + fs.entries.Keys
    ensures checked == seen || fs.entries.Keys - checked < fs.entries.Keys - seen
  {
    if checked != seen {
      var d :| d in checked && d !in seen;
      assert d in fs.entries.Keys - seen && d !in fs.entries.Keys - checked;
    }
  }

  /** On every finite directory graph, cycles included, the loop ends; the files it adds are, as a
      set, exactly the wanted ones, and the bad paths are exactly the bad given entries. */
  method ExpandFidlPaths(fs: FileSystem, given: seq<Path>) returns (paths: seq<Path>, badPaths: seq<Path>, ghost log: seq<Path>)
    ensures forall p :: p in paths <==> Wanted(fs, given, p)
    ensures badPaths == BadOnes(fs, given)
    ensures multiset(paths) == GivenFiles(fs, given) + FilesOf(fs, log)
    ensures forall d :: d in log ==> IsDirectory(fs, d)
    ensures forall d :: IsDirectory(fs, d) ==>
              multiset(log)[d] == multiset(given)[d] + if Found(fs, given, d) then 1 else 0
  {
    log := [];
    paths, badPaths := [], [];
    var work := given;
    var checked: set<Path> := {};
    ghost var k: nat := |given|;
    ghost var queued: seq<Path> := [];
    ghost var expanded: set<Path> := {};
    while work != []
      invariant Inv(fs, given, k, queued, paths, badPaths, checked, expanded)
      invariant Counted(fs, given, k, queued, log, paths, checked)
      invariant work == given[..k] + queued
      decreases fs.entries.Keys - checked, |work|
    {
      ghost var seen := checked;
      k, queued, expanded, log, paths, badPaths, checked, work :=
        Turn(fs, given, k, queued, expanded, log, paths, badPaths, checked, work);
      MoreSeen(fs, seen, checked);
    }
    AllDone(fs, given, paths, badPaths, checked, expanded);
    AllCounted(fs, given, log, paths, badPaths, checked, expanded);
  }
}
