/** Write as the code has it, against the operations of AtomicWriter. */
module AtomicWrite {
  import opened Wrappers
  import opened Strings
  import opened AtomicWriter

  // ----- Validation and cleaning of paths -----

  const MAX_FILE_NAME := 255
  const MAX_PATH := 4096

  predicate ValidPath(path: string) {
    var items := Split(path, '/');
    && path != "" && path[0] != '/' && |path| <= MAX_PATH
    && (forall item :: item in items ==> item != ".." && |item| <= MAX_FILE_NAME)
    && !(HasPrefix(items[0], "..") && |items[0]| > 2)
  }

  function DropDots(items: seq<string>): seq<string> {
    if items == [] then []
    else if items[0] == "" || items[0] == "." then DropDots(items[1..])
    else [items[0]] + DropDots(items[1..])
  }

  /** The elements walked one by one: `..` goes back to the directory above, or stays when there is none to go back
      from. */
  function Walk(items: seq<string>, done: seq<string>): seq<string> {
    if items == [] then done
    else if items[0] == "" || items[0] == "." then Walk(items[1..], done)
    else if items[0] == ".." && done != [] && done[|done| - 1] != ".." then Walk(items[1..], done[..|done| - 1])
    else Walk(items[1..], done + [items[0]])
  }

  /** filepath.Clean on a relative path. */
  function CleanPath(path: string): (p: Path)
    ensures p != []
  {
    var items := Walk(Split(path, '/'), []);
    if items == [] then ["."] else items
  }

  lemma {:induction false} WalkIsDrop(items: seq<string>, done: seq<string>)
    requires ".." !in items
    ensures Walk(items, done) == done + DropDots(items)
  {
    if items != [] {
      var rest := items[1..];
      assert items[0] in items && forall x :: x in rest ==> x in items;
      if items[0] == "" || items[0] == "." {
        WalkIsDrop(rest, done);
      } else {
        WalkIsDrop(rest, done + [items[0]]);
        assert done + [items[0]] + DropDots(rest) == done + ([items[0]] + DropDots(rest));
      }
    }
  }

  lemma {:induction false} DroppedAreItems(items: seq<string>)
    ensures forall x :: x in DropDots(items) ==> x in items && x != "" && x != "."
  {
    if items != [] {
      DroppedAreItems(items[1..]);
    }
  }

  /** A valid path stays below the directory: walking it never goes back, and what it cleans to is its proper
      elements, each of which can be the name of a file. */
  lemma StaysInside(path: string)
    requires ValidPath(path)
    ensures ".." !in CleanPath(path)
    ensures CleanPath(path) == ["."] || CleanPath(path) == DropDots(Split(path, '/'))
    ensures forall x :: x in CleanPath(path) ==> x != "" && Free(x, '/') && |x| <= 255
    ensures CleanPath(path) != ["."] ==> "." !in CleanPath(path)
  {
    var items := Split(path, '/');
    WalkIsDrop(items, []);
    DroppedAreItems(items);
    SplitIsFree(path, '/');
  }

  method ValidatePath(path: string) returns (ok: bool)
    ensures ok == ValidPath(path)
    ensures ok ==> 0 < |path| <= 4096 && path[0] != '/' && ".." !in CleanPath(path)
                   && forall x :: x in CleanPath(path) ==> |x| <= 255
    ensures !ok ==> var items := Split(path, '/');
                    || |path| == 0 || |path| > 4096 || path[0] == '/' || ".." in items
                    || (exists x :: x in items && |x| > 255) || (|items[0]| > 2 && items[0][..2] == "..")
  {
    if ValidPath(path) {
      StaysInside(path);
    }
    if path == "" || path[0] == '/' || |path| > MAX_PATH {
      return false;
    }
    var items := Split(path, '/');
    for i := 0 to |items|
      invariant forall j :: 0 <= j < i ==> items[j] != ".." && |items[j]| <= MAX_FILE_NAME
    {
      if items[i] == ".." || |items[i]| > MAX_FILE_NAME {
        assert items[i] in items;
        return false;
      }
    }
    if HasPrefix(items[0], "..") && |items[0]| > 2 {
      return false;
    }
    return true;
  }

  /** Element `k` is the first that is neither empty nor a dot. */
  ghost predicate FirstReal(items: seq<string>, k: int) {
    0 <= k < |items| && items[k] != "" && items[k] != "."
    && forall j :: 0 <= j < k ==> items[j] == "" || items[j] == "."
  }

  lemma {:induction false} CleanedHead(items: seq<string>)
    ensures forall k :: FirstReal(items, k) ==> DropDots(items) != [] && DropDots(items)[0] == items[k]
    ensures DropDots(items) != [] ==> exists k :: FirstReal(items, k)
  {
    if items != [] {
      var rest := items[1..];
      CleanedHead(rest);
      if items[0] == "" || items[0] == "." {
        forall k | FirstReal(items, k)
          ensures k > 0 && FirstReal(rest, k - 1) && rest[k - 1] == items[k]
        {
        }
        if DropDots(rest) != [] {
          var k :| FirstReal(rest, k);
          assert FirstReal(items, k + 1);
        }
      } else {
        assert FirstReal(items, 0);
        forall k | FirstReal(items, k)
          ensures k == 0
        {
        }
      }
    }
  }

  /** A valid path starts with a reserved name after cleaning exactly when dot elements come first and the first
      other element starts with two dots. */
  lemma ReservedAfterCleaningIff(path: string)
    requires ValidPath(path)
    ensures Reserved(CleanPath(path)[0]) <==>
            var items := Split(path, '/');
            items[0] == "." && exists k :: FirstReal(items, k) && HasPrefix(items[k], "..")
  {
    var items := Split(path, '/');
    WalkIsDrop(items, []);
    CleanedHead(items);
    assert items[0] != "" by {
      assert path[0] != '/';
    }
    assert items[0] in items;
    if items[0] != "." {
      assert FirstReal(items, 0);
    }
  }

  /** A leading dot element gets every reserved name past the validation, also those of the two links. */
  lemma DotPathIsAccepted(name: string)
    requires Free(name, '/') && Reserved(name) && 2 < |name| <= MAX_FILE_NAME
    ensures ValidPath("./" + name) && CleanPath("./" + name) == [name]
  {
    SplitFirst(".", name, '/');
    assert "." + ['/'] + name == "./" + name;
    SplitPiece(name, '/');
    var items := [".", name];
    assert Split("./" + name, '/') == items;
    assert items[1..] == [name] && [name][1..] == [];
    assert DropDots([name]) == [name];
    WalkIsDrop(items, []);
  }

  /** `files` maps cleaned paths to contents of the payload; when two paths clean to one, either may win. */
  ghost predicate CleanedFrom(payload: map<string, Bytes>, files: Files) {
    && (forall k :: k in payload ==> CleanPath(k) in files)
    && (forall p :: p in files ==> exists k :: k in payload && CleanPath(k) == p && files[p] == payload[k])
  }

  method ValidatePayload(payload: map<string, Bytes>) returns (ok: bool, files: Files)
    ensures ok <==> forall k :: k in payload ==> ValidPath(k)
    ensures ok ==> CleanedFrom(payload, files) && forall p :: p in files ==> ".." !in p
  {
    files := map[];
    var left := payload.Keys;
    while left != {}
      invariant left <= payload.Keys
      invariant forall k :: k in payload && k !in left ==> ValidPath(k) && CleanPath(k) in files
      invariant forall p :: p in files ==> exists k :: k in payload && CleanPath(k) == p && files[p] == payload[k]
      invariant forall p :: p in files ==> ".." !in p
      decreases |left|
    {
      var k :| k in left;
      var valid := ValidatePath(k);
      if !valid {
        return false, files;
      }
      files := files[CleanPath(k) := payload[k]];
      left := left - {k};
    }
    ok := true;
  }

  // ----- Comparing with the version shown -----

  ghost function Prefixes(files: Files): set<Path> {
    set p, i | p in files && 1 <= i <= |p| :: p[..i]
  }

  predicate Same(payload: Files, files: Files, p: Path)
    requires p in payload
  {
    p in files && files[p] == payload[p]
  }

  /** All subpaths of the payload's files. */
  method SubPaths(payload: Files) returns (paths: set<Path>)
    ensures paths == Prefixes(payload)
  {
    paths := {};
    var left := payload.Keys;
    while left != {}
      invariant left <= payload.Keys
      invariant paths == set p, i | p in payload && p !in left && 1 <= i <= |p| :: p[..i]
      decreases |left|
    {
      var file :| file in left;
      var sub := file;
      ghost var before := paths;
      while sub != []
        invariant sub <= file
        invariant paths == before + set i | |sub| < i <= |file| :: file[..i]
        decreases |sub|
      {
        paths := paths + {sub};
        assert sub == file[..|sub|];
        sub := sub[..|sub| - 1];
      }
      left := left - {file};
    }
  }

  /** The file cannot be looked at: a directory is in its place, or it lies under a file. */
  predicate Clashes(files: Files, p: Path) {
    p !in files && Conflict(files, p)
  }

  /** A path cannot be looked at when it is the directory itself, a directory in it, or below a file. */
  lemma ClashesIff(files: Files, p: Path)
    ensures Clashes(files, p) <==>
            p !in files && (p == [] || p == ["."] || exists q :: q in files && (p < q || q < p))
  {
    if q :| q in files && (p < q || q < p) {
      assert q != p && (q <= p || p <= q);
    }
    if q :| q in files && q != p && (q <= p || p <= q) {
      assert p < q || q < p;
    }
  }

  ghost predicate Clash(payload: Files, files: Files) {
    exists p :: p in payload && Clashes(files, p)
  }

  /** Some file of the payload cannot be looked at, and the others are there. */
  ghost predicate Stuck(payload: Files, files: Files) {
    Clash(payload, files) && forall p :: p in payload ==> Same(payload, files, p) || Clashes(files, p)
  }

  /** Whether some file of the payload is missing or differs; no answer when one cannot be looked at. */
  method ShouldWrite(payload: Files, files: Files) returns (should: Option<bool>)
    ensures should == Some(false) <==> forall p :: p in payload ==> Same(payload, files, p)
    ensures should.None? ==> Clash(payload, files)
    ensures should == Some(true) ==> exists p :: p in payload && !Same(payload, files, p) && !Clashes(files, p)
  {
    var left := payload.Keys;
    while left != {}
      invariant left <= payload.Keys
      invariant forall p :: p in payload && p !in left ==> Same(payload, files, p)
      decreases |left|
    {
      var p :| p in left;
      if Clashes(files, p) {
        return None;
      }
      if !Same(payload, files, p) {
        return Some(true);
      }
      left := left - {p};
    }
    should := Some(false);
  }

  /** No file to write and no path to remove means that the payload is what is shown. */
  lemma NothingToDoMeansSame(payload: Files, files: Files)
    requires Storable(files) && FreePayload(files)
    requires forall p :: p in payload ==> Same(payload, files, p)
    requires Prefixes(files) - Prefixes(payload) == {}
    ensures payload == files
  {
    forall p | p in files
      ensures p in payload
    {
      assert p[..|p|] == p;
      assert p in Prefixes(files) && p !in Prefixes(files) - Prefixes(payload);
      var q, i :| q in payload && 1 <= i <= |q| && q[..i] == p;
      assert p <= q;
    }
  }

  lemma RootsAreTops(files: Files, n: string)
    ensures [n] in Prefixes(files) <==> n in Tops(files)
  {
    if n in Tops(files) {
      var p :| p in files && p != [] && p[0] == n;
      assert p[..1] == [n];
    }
  }

  /** The paths to remove that lie in the target directory itself are the names left over. */
  lemma RootsToRemove(payload: Files, files: Files, roots: set<string>)
    requires forall n :: n in roots <==> [n] in Prefixes(files) - Prefixes(payload)
    ensures roots == Tops(files) - Tops(payload)
  {
    forall n
      ensures n in roots <==> n in Tops(files) - Tops(payload)
    {
      RootsAreTops(files, n);
      RootsAreTops(payload, n);
    }
  }

  /** Step 3: the paths of the version shown that the payload does not have, and those of them that lie in
      the target directory itself. */
  method PathsToRemove(payload: Files, shown: Files) returns (paths: set<Path>, roots: set<string>)
    ensures paths == Prefixes(shown) - Prefixes(payload)
    ensures roots == Tops(shown) - Tops(payload)
  {
    var oldPaths := SubPaths(shown);
    var newPaths := SubPaths(payload);
    paths := oldPaths - newPaths;
    roots := set p | p in paths && |p| == 1 :: p[0];
    forall n
      ensures n in roots <==> [n] in paths
    {
      if [n] in paths {
        assert |[n]| == 1 && [n][0] == n;
      }
      if n in roots {
        var p :| p in paths && |p| == 1 && p[0] == n;
        assert p == [n];
      }
    }
    RootsToRemove(payload, shown, roots);
  }

  /** Steps 2 to 4: what is shown now, what will be left over, and whether anything has to be done. */
  method Compare(es: Entries, payload: Files) returns (ok: bool, needed: bool, prev: Option<string>, roots: set<string>)
    ensures prev == Target(es) && (ok ==> DATA in es ==> es[DATA].Symlink?)
    ensures ok && needed ==> roots == Leftovers(es, prev, payload)
    ensures ok && !needed && Sound(es) ==> Read(es) == Some(payload)
    ensures Read(es) == Some(payload) ==> ok && !needed
    ensures (DATA in es ==> es[DATA].Symlink?) && !(prev.Some? && Clash(payload, FilesIn(es, prev.value))) ==> ok
    ensures prev.Some? && Stuck(payload, FilesIn(es, prev.value)) ==> !ok
  {
    prev, roots := Target(es), {};
    if DATA in es && !es[DATA].Symlink? {
      return false, false, prev, roots;
    }
    if prev.None? {
      return true, true, prev, roots;
    }
    var shown, paths := FilesIn(es, prev.value), {};
    paths, roots := PathsToRemove(payload, shown);
    var should := ShouldWrite(payload, shown);
    if should.None? {
      return false, false, prev, roots;
    }
    needed := should.value || paths != {};
    if !needed && Sound(es) {
      NothingToDoMeansSame(payload, shown);
    }
    ok := true;
  }

  /** Names left over from another time are what keeps the visible names from being the payload's. */
  lemma NamesExactIff(before: set<string>, leftovers: set<string>, tops: set<string>)
    requires leftovers !! tops
    ensures before + tops - leftovers == tops <==> before <= leftovers + tops
  {
    if !(before <= leftovers + tops) {
      var n :| n in before && n !in leftovers + tops;
      assert n in before + tops - leftovers;
    }
  }

  lemma NoopNames(es: Entries, files: Files)
    requires Sound(es) && VisibleIn(es) && Read(es) == Some(files)
    ensures Visible(es) == Visible(es) + Tops(files) - Leftovers(es, Target(es), files)
  {
    assert Tops(files) <= Visible(es);
  }

  // ----- The writer -----

  /** A Write: where it starts and what it writes. */
  datatype Task = Task(start: Snap, payload: Files)

  ghost predicate Sane(t: Task) {
    Intact(t.start) && FreePayload(t.payload)
  }

  ghost predicate Good(t: Task) {
    Inv(t.start) && CleanPayload(t.payload)
  }

  /** The visible names there are to be in the end. */
  ghost function Goal(t: Task): set<string> {
    var es := t.start.entries;
    Visible(es) + Tops(t.payload) - Leftovers(es, Target(es), t.payload)
  }

  lemma GoodIsSane(t: Task)
    requires Good(t)
    ensures Sane(t)
  {
    assert Reserved(DATA) && Reserved(TMP);
  }

  /** The operations so far lead here, and what they keep has been kept. */
  ghost predicate Doing(t: Task, ops: seq<Op>, s: Snap) {
    && s == Run(t.start, ops) && (Sane(t) ==> Intact(s)) && (Good(t) ==> Inv(s))
    && (Sane(t) && TMP !in t.start.entries ==> (TMP in s.entries ==> s.control.Swapping?))
  }

  /** None of them failed. */
  ghost predicate OnCourse(t: Task, ops: seq<Op>, s: Snap) {
    Doing(t, ops, s) && (Good(t) ==> FinalNames(s) == Goal(t))
  }

  lemma RunStep(start: Snap, ops: seq<Op>, op: Op)
    ensures Run(start, ops + [op]) == After(Run(start, ops), op)
  {
    assert (ops + [op])[..|ops|] == ops;
  }

  /** A temporary link is there between its creation and the rename only, unless the Write is stopped there. */
  lemma TemporaryGoes(s: Snap, op: Op)
    requires Intact(s) && (TMP in s.entries ==> s.control.Swapping?)
    requires (op.Begin? ==> FreePayload(op.payload)) && (op.Abort? ==> !s.control.Swapping?)
    ensures TMP in After(s, op).entries ==> After(s, op).control.Swapping?
  {
  }

  lemma DoingStep(t: Task, ops: seq<Op>, s: Snap, op: Op)
    requires Doing(t, ops, s) && (op.Begin? ==> op.payload == t.payload) && (op.Abort? ==> !s.control.Swapping?)
    ensures Doing(t, ops + [op], After(s, op))
    ensures Sane(t) ==> Read(After(s, op).entries) ==
                        if op.Swap? && Enabled(s, op) then Some(s.control.payload) else Read(s.entries)
  {
    RunStep(t.start, ops, op);
    if Sane(t) {
      OpIsAtomic(s, op);
      if TMP !in t.start.entries {
        TemporaryGoes(s, op);
      }
    }
    if Good(t) {
      OpKeepsInv(s, op);
    }
  }

  lemma CourseStep(t: Task, ops: seq<Op>, s: Snap, op: Op)
    requires OnCourse(t, ops, s) && Advances(op)
    ensures OnCourse(t, ops + [op], After(s, op))
    ensures Sane(t) ==> Read(After(s, op).entries) ==
                        if op.Swap? && Enabled(s, op) then Some(s.control.payload) else Read(s.entries)
  {
    DoingStep(t, ops, s, op);
    if Good(t) {
      AdvanceKeepsNames(s, op);
    }
  }

  lemma CourseBegins(t: Task, ts: string)
    requires t.start.control.Idle? && Enabled(t.start, Begin(t.payload, ts))
    ensures OnCourse(t, [Begin(t.payload, ts)], After(t.start, Begin(t.payload, ts)))
    ensures Sane(t) ==> Read(After(t.start, Begin(t.payload, ts)).entries) == Read(t.start.entries)
  {
    var op := Begin(t.payload, ts);
    if Good(t) {
      GoodIsSane(t);
    }
    DoingStep(t, [], t.start, op);
    assert [] + [op] == [op];
    if Good(t) {
      var now := After(t.start, op);
      assert Visible(now.entries) == Visible(t.start.entries);
      assert Leftovers(now.entries, now.control.prev, t.payload) ==
          Leftovers(t.start.entries, now.control.prev, t.payload);
    }
  }

  /** The new directory apart, nothing there before has changed, and only the links `names` have been added. */
  ghost predicate Keeps(before: Entries, es: Entries, ts: string, names: set<string>) {
    && (forall d :: d in before && d != ts ==> d in es && es[d] == before[d])
    && (forall d :: d in es && d !in before && d != ts ==> d in names && es[d].Symlink?)
  }

  lemma TemporaryIsNoLeftover(es: Entries, prev: Option<string>, payload: Files, ts: string)
    requires TMP !in es
    ensures Leftovers(es[TMP := Symlink(ts)], prev, payload) == Leftovers(es, prev, payload)
  {
  }

  class Writer {
    var entries: Entries
    ghost var control: Control
    ghost var log: seq<Op>

    ghost function State(): Snap
      reads this
    {
      Snap(entries, control)
    }

    /** One directory operation, recorded. */
    ghost predicate Follows(before: Snap, ops: seq<Op>, op: Op)
      reads this
    {
      State() == After(before, op) && log == ops + [op]
    }

    /** The operations since `ops` are none that begin a Write. */
    ghost predicate Continues(ops: seq<Op>)
      reads this
    {
      forall op :: op in log && op !in ops ==> !op.Begin?
    }

    /** Records an operation whose effect on the directory has been made. */
    ghost method Note(before: Snap, op: Op)
      requires After(before, op).entries == entries
      modifies this`control, this`log
      ensures Follows(before, old(log), op)
    {
      control := After(before, op).control;
      log := log + [op];
    }

    /** Stops the Write: an error is returned, or the process ends. */
    ghost method Stop(t: Task)
      requires Doing(t, log, State()) && !control.Swapping?
      modifies this`control, this`log
      ensures Doing(t, log, State()) && control.Idle? && Continues(old(log))
    {
      DoingStep(t, log, State(), Abort);
      Note(State(), Abort);
    }

    method MakeDir(payload: Files, ts: string)
      requires Enabled(State(), Begin(payload, ts))
      modifies this
      ensures Follows(old(State()), old(log), Begin(payload, ts))
    {
      ghost var before := State();
      entries := entries[ts := Directory(map[])];
      Note(before, Begin(payload, ts));
    }

    method WriteFile(ts: string, p: Path, data: Bytes)
      requires control.Filling? && control.ts == ts && p in control.payload && control.payload[p] == data
      requires Enabled(State(), Put(p))
      modifies this
      ensures Follows(old(State()), old(log), Put(p))
    {
      ghost var before := State();
      entries := entries[ts := Directory(entries[ts].files[p := data])];
      Note(before, Put(p));
    }

    /** A write that fails and leaves part of the file. */
    method WritePart(ts: string, p: Path, part: Bytes)
      requires control.Filling? && control.ts == ts && Enabled(State(), Torn(p, part))
      modifies this
      ensures Follows(old(State()), old(log), Torn(p, part))
    {
      ghost var before := State();
      entries := entries[ts := Directory(entries[ts].files[p := part])];
      Note(before, Torn(p, part));
    }

    method LinkVisible(n: string)
      requires Enabled(State(), Link(n))
      modifies this
      ensures Follows(old(State()), old(log), Link(n))
    {
      ghost var before := State();
      if n !in entries {
        entries := entries[n := Symlink(DATA + "/" + n)];
      }
      Note(before, Link(n));
    }

    method LinkTemporary(ts: string)
      requires control.Pointing? && control.ts == ts && Enabled(State(), Point)
      modifies this
      ensures Follows(old(State()), old(log), Point)
    {
      ghost var before := State();
      entries := entries[TMP := Symlink(ts)];
      Note(before, Point);
    }

    method Rename(ts: string)
      requires control.Swapping? && control.ts == ts && Enabled(State(), Swap)
      modifies this
      ensures Follows(old(State()), old(log), Swap)
    {
      ghost var before := State();
      entries := (entries - {TMP})[DATA := Symlink(ts)];
      Note(before, Swap);
    }

    method RemoveTemporary()
      requires control.Swapping?
      modifies this
      ensures Follows(old(State()), old(log), SwapFails)
    {
      ghost var before := State();
      entries := entries - {TMP};
      Note(before, SwapFails);
    }

    method RemoveDir(dir: string)
      requires control.Dropping? && control.dir == dir
      modifies this
      ensures Follows(old(State()), old(log), DropDir)
    {
      ghost var before := State();
      entries := entries - {dir};
      Note(before, DropDir);
    }

    /** Removes a visible name; one that is absent or not a link is an error. */
    method RemoveVisible(n: string) returns (ok: bool)
      requires Enabled(State(), Unlink(n))
      modifies this
      ensures Follows(old(State()), old(log), Unlink(n))
      ensures ok <==> n in old(entries) && old(entries)[n].Symlink?
    {
      ghost var before := State();
      ok := n in entries && entries[n].Symlink?;
      if ok {
        entries := entries - {n};
      }
      Note(before, Unlink(n));
    }

    /** Step 6: write the payload into the new directory, in any order. Unless calls fail by themselves it works out for
        a payload that can be stored. */
    method FillDir(ghost t: Task, payload: Files, ts: string, faulty: bool) returns (ok: bool)
      requires control.Filling? && control.payload == payload && control.ts == ts && control.left == payload.Keys
      requires IsDir(entries, ts) && entries[ts].files == map[] && OnCourse(t, log, State())
      modifies this
      ensures Doing(t, log, State()) && Continues(old(log)) && (Sane(t) ==> Read(entries) == old(Read(entries)))
      ensures ok ==> OnCourse(t, log, State()) && Keeps(old(entries), entries, ts, {}) && IsDir(entries, ts)
      ensures ok ==> control == Linking(payload, old(control.prev), ts, Tops(payload))
      ensures !faulty && Storable(payload) && [] !in payload ==> ok
      ensures !control.Swapping?
    {
      var left := payload.Keys;
      while left != {}
        invariant left <= payload.Keys && control == Filling(payload, old(control.prev), ts, left) && IsDir(entries, ts)
        invariant entries[ts].files.Keys <= payload.Keys && Keeps(old(entries), entries, ts, {})
        invariant OnCourse(t, log, State()) && Continues(old(log)) && (Sane(t) ==> Read(entries) == old(Read(entries)))
        decreases left
      {
        var p :| p in left;
        if Conflict(entries[ts].files, p) {
          return false;
        }
        var fails: bool, part: Bytes := *, *;
        if faulty && fails {
          DoingStep(t, log, State(), Torn(p, part));
          WritePart(ts, p, part);
          return false;
        }
        CourseStep(t, log, State(), Put(p));
        WriteFile(ts, p, payload[p]);
        left := left - {p};
      }
      CourseStep(t, log, State(), Filled);
      Note(State(), Filled);
      ok := true;
    }

    /** Step 7: create the missing visible links. */
    method LinkAll(ghost t: Task, payload: Files, faulty: bool) returns (ok: bool)
      requires control.Linking? && control.payload == payload && control.names == Tops(payload)
      requires OnCourse(t, log, State())
      modifies this
      ensures Doing(t, log, State()) && Continues(old(log)) && (Sane(t) ==> Read(entries) == old(Read(entries)))
      ensures ok ==> OnCourse(t, log, State()) && Keeps(old(entries), entries, old(control.ts), Tops(payload))
      ensures ok ==> control == Pointing(payload, old(control.prev), old(control.ts))
      ensures !faulty ==> ok
      ensures !control.Swapping?
    {
      var names := Tops(payload);
      while names != {}
        invariant names <= Tops(payload) && control == Linking(payload, old(control.prev), old(control.ts), names)
        invariant Keeps(old(entries), entries, old(control.ts), Tops(payload))
        invariant OnCourse(t, log, State()) && Continues(old(log)) && (Sane(t) ==> Read(entries) == old(Read(entries)))
        decreases names
      {
        var fails: bool := *;
        if faulty && fails {
          return false;
        }
        var n :| n in names;
        CourseStep(t, log, State(), Link(n));
        LinkVisible(n);
        names := names - {n};
      }
      CourseStep(t, log, State(), Linked);
      Note(State(), Linked);
      ok := true;
    }

    /** Removes the new directory after a failure. */
    method GiveUp(ghost t: Task, ts: string)
      requires control.Dropping? && control.dir == ts && Doing(t, log, State())
      modifies this
      ensures Doing(t, log, State()) && control.Idle? && Continues(old(log))
      ensures Sane(t) ==> Read(entries) == old(Read(entries))
      ensures ts !in entries && entries.Keys <= old(entries.Keys)
    {
      DoingStep(t, log, State(), DropDir);
      RemoveDir(ts);
    }

    /** Step 8: point the temporary link to the new directory. On failure the new directory is removed again. */
    method PointTemporary(ghost t: Task, ts: string, faulty: bool) returns (ok: bool)
      requires control.Pointing? && control.ts == ts && OnCourse(t, log, State())
      modifies this
      ensures Doing(t, log, State()) && Continues(old(log)) && (Sane(t) ==> Read(entries) == old(Read(entries)))
      ensures !ok ==> control.Idle?
      ensures ok ==> OnCourse(t, log, State()) && control == Swapping(old(control.payload), old(control.prev), ts)
      ensures ok ==> TMP !in old(entries) && entries == old(entries)[TMP := Symlink(ts)]
      ensures !faulty && TMP !in old(entries) ==> ok
      ensures !ok ==> ts !in entries
    {
      var fails: bool := *;
      if (faulty && fails) || TMP in entries {
        DoingStep(t, log, State(), PointFails);
        Note(State(), PointFails);
        GiveUp(t, ts);
        return false;
      }
      CourseStep(t, log, State(), Point);
      LinkTemporary(ts);
      ok := true;
    }

    /** Removes the temporary link and the new directory after the rename has failed. */
    method Unpoint(ghost t: Task, ts: string)
      requires control.Swapping? && control.ts == ts && Doing(t, log, State())
      modifies this
      ensures Doing(t, log, State()) && control.Idle? && Continues(old(log))
      ensures Sane(t) ==> Read(entries) == old(Read(entries))
      ensures ts !in entries && TMP !in entries
    {
      DoingStep(t, log, State(), SwapFails);
      RemoveTemporary();
      GiveUp(t, ts);
    }

    /** Step 9: rename the temporary link over the data link. On failure both it and the new directory are removed. */
    method SwapData(ghost t: Task, ts: string, faulty: bool) returns (ok: bool)
      requires control.Swapping? && control.ts == ts && OnCourse(t, log, State()) && Enabled(State(), Swap)
      modifies this
      ensures Doing(t, log, State()) && Continues(old(log))
      ensures !ok ==> control.Idle? && (Sane(t) ==> Read(entries) == old(Read(entries)))
      ensures ok ==> OnCourse(t, log, State()) && (Sane(t) ==> Read(entries) == Some(old(control.payload)))
      ensures ok ==> control == Pruning(old(control.payload), old(control.prev),
                                        Leftovers(old(entries), old(control.prev), old(control.payload)))
      ensures ok ==> entries == (old(entries) - {TMP})[DATA := Symlink(ts)]
      ensures !faulty ==> ok
      ensures !ok ==> ts !in entries && TMP !in entries
    {
      var fails: bool := *;
      if faulty && fails {
        Unpoint(t, ts);
        return false;
      }
      CourseStep(t, log, State(), Swap);
      Rename(ts);
      ok := true;
    }

    /** Steps 8 and 9. */
    method Show(ghost t: Task, ts: string, faulty: bool) returns (ok: bool)
      requires control.Pointing? && control.ts == ts && OnCourse(t, log, State())
      requires DATA in entries ==> entries[DATA].Symlink?
      modifies this
      ensures Doing(t, log, State()) && Continues(old(log))
      ensures !ok ==> control.Idle? && (Sane(t) ==> Read(entries) == old(Read(entries)))
      ensures ok ==> OnCourse(t, log, State()) && (Sane(t) ==> Read(entries) == Some(old(control.payload)))
      ensures ok ==> control == Pruning(old(control.payload), old(control.prev),
                                        Leftovers(old(entries), old(control.prev), old(control.payload)))
      ensures ok ==> TMP !in old(entries) && entries == old(entries)[DATA := Symlink(ts)]
      ensures !faulty && TMP !in old(entries) ==> ok
      ensures !ok ==> ts !in entries
    {
      ok := PointTemporary(t, ts, faulty);
      if ok {
        TemporaryIsNoLeftover(old(entries), control.prev, control.payload, ts);
        assert old(entries)[TMP := Symlink(ts)] - {TMP} == old(entries);
        ok := SwapData(t, ts, faulty);
      }
    }

    /** Step 10: remove the names left over. An error does not end the loop. */
    method UnlinkAll(ghost t: Task, roots: set<string>, faulty: bool) returns (ok: bool)
      requires control.Pruning? && control.names == roots && OnCourse(t, log, State())
      modifies this
      ensures Doing(t, log, State()) && Continues(old(log)) && (Sane(t) ==> Read(entries) == old(Read(entries)))
      ensures control == Pruning(old(control.payload), old(control.prev), {})
      ensures ok ==> OnCourse(t, log, State())
      ensures !faulty && AllLinks(old(entries), roots) ==> ok
    {
      ok := true;
      var names := roots;
      while names != {}
        invariant names <= roots && control == Pruning(old(control.payload), old(control.prev), names)
        invariant Doing(t, log, State()) && (ok ==> OnCourse(t, log, State()))
        invariant Continues(old(log)) && (Sane(t) ==> Read(entries) == old(Read(entries)))
        invariant !faulty && AllLinks(old(entries), roots) ==> ok && AllLinks(entries, names)
        decreases names
      {
        var n :| n in names;
        var fails: bool := *;
        if faulty && fails {
          DoingStep(t, log, State(), UnlinkFails(n));
          Note(State(), UnlinkFails(n));
          ok := false;
        } else {
          ok := RemoveNext(t, n, ok);
        }
        names := names - {n};
      }
    }

    method RemoveNext(ghost t: Task, n: string, ok: bool) returns (still: bool)
      requires control.Pruning? && n in control.names && Doing(t, log, State()) && (ok ==> OnCourse(t, log, State()))
      modifies this
      ensures control == Pruning(old(control.payload), old(control.prev), old(control.names) - {n})
      ensures Doing(t, log, State()) && (still ==> OnCourse(t, log, State())) && Continues(old(log))
      ensures Sane(t) ==> Read(entries) == old(Read(entries))
      ensures still <==> ok && n in old(entries) && old(entries)[n].Symlink?
      ensures forall m :: m in old(entries) && m != n ==> m in entries && entries[m] == old(entries)[m]
    {
      DoingStep(t, log, State(), Unlink(n));
      if ok {
        CourseStep(t, log, State(), Unlink(n));
      }
      var removed := RemoveVisible(n);
      still := ok && removed;
    }

    ghost predicate AllLinks(es: Entries, names: set<string>) {
      forall n :: n in names ==> n in es && es[n].Symlink?
    }

    /** Step 11: remove the directory of the payload before. */
    method Retire(ghost t: Task, prev: Option<string>, faulty: bool) returns (ok: bool)
      requires control.Pruning? && control.names == {} && control.prev == prev && OnCourse(t, log, State())
      modifies this
      ensures Doing(t, log, State()) && control.Idle? && Continues(old(log))
              && (Sane(t) ==> Read(entries) == old(Read(entries)))
      ensures ok ==> OnCourse(t, log, State())
      ensures !faulty ==> ok
      ensures ok && prev.Some? ==> prev.value !in entries
    {
      CourseStep(t, log, State(), Pruned);
      Note(State(), Pruned);
      if prev.Some? {
        var fails: bool := *;
        if faulty && fails {
          Stop(t);
          return false;
        }
        CourseStep(t, log, State(), DropDir);
        RemoveDir(prev.value);
      }
      ok := true;
    }

    /** Steps 10 and 11. */
    method Finish(ghost t: Task, prev: Option<string>, roots: set<string>, faulty: bool) returns (ok: bool)
      requires control.Pruning? && control.names == roots && control.prev == prev && OnCourse(t, log, State())
      modifies this
      ensures Doing(t, log, State()) && control.Idle? && Continues(old(log))
              && (Sane(t) ==> Read(entries) == old(Read(entries)))
      ensures ok ==> OnCourse(t, log, State())
      ensures !faulty && AllLinks(old(entries), roots) ==> ok
      ensures ok && prev.Some? ==> prev.value !in entries
    {
      ok := UnlinkAll(t, roots, faulty);
      if !ok {
        Stop(t);
        return;
      }
      ok := Retire(t, prev, faulty);
    }

    /** Steps 5 and 6. */
    method FillNew(ghost t: Task, payload: Files, ts: string, faulty: bool) returns (ok: bool)
      requires t == Task(State(), payload) && control.Idle? && log == [] && Enabled(State(), Begin(payload, ts))
      modifies this
      ensures Doing(t, log, State()) && (forall op :: op in log && op.Begin? ==> op.payload == payload)
      ensures Sane(t) ==> Read(entries) == old(Read(entries))
      ensures ok ==> OnCourse(t, log, State()) && Keeps(old(entries), entries, ts, {}) && IsDir(entries, ts)
      ensures ok ==> control == Linking(payload, Target(old(entries)), ts, Tops(payload))
      ensures !faulty && Storable(payload) && [] !in payload ==> ok
      ensures !control.Swapping?
    {
      CourseBegins(t, ts);
      MakeDir(payload, ts);
      ok := FillDir(t, payload, ts, faulty);
    }

    /** Steps 5 to 7. */
    method Prepare(ghost t: Task, payload: Files, ts: string, faulty: bool) returns (ok: bool)
      requires t == Task(State(), payload) && control.Idle? && log == [] && Enabled(State(), Begin(payload, ts))
      modifies this
      ensures Doing(t, log, State()) && (forall op :: op in log && op.Begin? ==> op.payload == payload)
      ensures Sane(t) ==> Read(entries) == old(Read(entries))
      ensures !ok ==> control.Idle?
      ensures ok ==> OnCourse(t, log, State()) && Keeps(old(entries), entries, ts, Tops(payload))
      ensures ok ==> control == Pointing(payload, Target(old(entries)), ts)
      ensures !faulty && Storable(payload) && [] !in payload ==> ok
    {
      var fails: bool := *;
      if faulty && fails {
        return false;
      }
      ok := FillNew(t, payload, ts, faulty);
      if ok {
        ok := LinkAll(t, payload, faulty);
      }
      if !ok {
        Stop(t);
      }
    }

    lemma RootsAreLinks(t: Task, es: Entries, ts: string)
      requires Good(t) && Keeps(t.start.entries, es, ts, Tops(t.payload)) && ts !in t.start.entries && Reserved(ts)
      ensures AllLinks(es[DATA := Symlink(ts)], Leftovers(t.start.entries, Target(t.start.entries), t.payload))
    {
    }

    lemma SameLeftovers(before: Entries, es: Entries, ts: string, payload: Files)
      requires Keeps(before, es, ts, Tops(payload)) && ts !in before && Target(before) != Some(ts)
      ensures Leftovers(es, Target(before), payload) == Leftovers(before, Target(before), payload)
    {
    }

    /** Steps 5 to 11. `roots` are the top-level paths to remove. */
    method Publish(ghost t: Task, payload: Files, ts: string, prev: Option<string>, roots: set<string>, faulty: bool)
      returns (ok: bool)
      requires t == Task(State(), payload) && control.Idle? && log == [] && Enabled(State(), Begin(payload, ts))
      requires prev == Target(entries) != Some(ts) && roots == Leftovers(entries, prev, payload)
      modifies this
      ensures Doing(t, log, State()) && control.Idle? && (forall op :: op in log && op.Begin? ==> op.payload == payload)
      ensures Sane(t) ==> Read(entries) == Some(payload) || (!ok && Read(entries) == old(Read(entries)))
      ensures ok ==> OnCourse(t, log, State()) && TMP !in old(entries)
      ensures !faulty && Good(t) && Storable(payload) && TMP !in old(entries) ==> ok
      ensures ok && prev.Some? ==> prev.value !in entries
    {
      ok := Prepare(t, payload, ts, faulty);
      if !ok {
        return;
      }
      SameLeftovers(old(entries), entries, ts, payload);
      ghost var ready := entries;
      ok := Show(t, ts, faulty);
      if !ok {
        return;
      }
      if Good(t) {
        RootsAreLinks(t, ready, ts);
      }
      ok := Finish(t, prev, roots, faulty);
    }

    /** Steps 2 to 11, for the cleaned paths. */
    method Replace(files: Files, ts: string, faulty: bool) returns (ok: bool)
      requires control.Idle? && log == [] && ts !in entries && Timestamped(ts) && Target(entries) != Some(ts)
      modifies this
      ensures State() == Run(old(State()), log) && control.Idle?
      ensures forall op :: op in log && op.Begin? ==> op.payload == files
      ensures old(Intact(State())) && FreePayload(files) ==>
                Intact(State()) && (Read(entries) == Some(files) || (!ok && Read(entries) == old(Read(entries))))
      ensures old(Inv(State())) && CleanPayload(files) ==> Inv(State())
      ensures ok && old(Inv(State())) && CleanPayload(files) ==>
                Visible(entries) == Visible(old(entries)) + Tops(files)
                                    - Leftovers(old(entries), Target(old(entries)), files)
      ensures !faulty && old(Inv(State())) && CleanPayload(files)
              && !(old(Read(entries)).Some? && Clash(files, old(Read(entries)).value)) ==>
                (ok <==> old(Read(entries)) == Some(files) || (Storable(files) && TMP !in old(entries)))
      ensures old(Read(entries)).Some? && Stuck(files, old(Read(entries)).value) ==> !ok
      ensures old(Intact(State())) && FreePayload(files) && TMP !in old(entries) ==> TMP !in entries
      ensures ok && old(Intact(State())) && old(Read(entries)) != Some(files) && Target(old(entries)).Some? ==>
                Target(old(entries)).value !in entries
    {
      ghost var t := Task(State(), files);
      if Good(t) {
        GoodIsSane(t);
      }
      var needed, prev, roots;
      ok, needed, prev, roots := Compare(entries, files);
      if !ok {
        return;
      }
      if !needed {
        if Good(t) {
          NoopNames(entries, files);
        }
        return;
      }
      ok := Publish(t, files, ts, prev, roots, faulty);
    }

    /** The whole Write. `ts` is the unused name that the new directory gets, `faulty` says that calls may fail by
        themselves. Whatever the directory and the payload, the operations made are those of the algorithm. A payload
        without the names of the two links at the top leaves the old files shown or shows its own, and shows them when
        it succeeds. For clean paths the visible names are as they should be; and unless calls fail by themselves it
        succeeds exactly when its files are shown already, or can be stored with no temporary link left over. It cannot
        succeed when the only files that differ are those that cannot be looked at. */
    method Write(payload: map<string, Bytes>, ts: string, faulty: bool) returns (ok: bool, ghost files: Files)
      requires control.Idle? && log == [] && ts !in entries && Timestamped(ts) && Target(entries) != Some(ts)
      modifies this
      ensures State() == Run(old(State()), log) && control.Idle?
      ensures forall op :: op in log && op.Begin? ==> op.payload == files
      ensures ok ==> forall k :: k in payload ==> ValidPath(k)
      ensures (forall k :: k in payload ==> ValidPath(k)) ==>
                CleanedFrom(payload, files) && forall p :: p in files ==> ".." !in p
      ensures old(Intact(State())) && FreePayload(files) ==>
                Intact(State()) && (Read(entries) == Some(files) || (!ok && Read(entries) == old(Read(entries))))
      ensures old(Inv(State())) && CleanPayload(files) ==> Inv(State())
      ensures ok && old(Inv(State())) && CleanPayload(files) ==>
                && Visible(entries) == Visible(old(entries)) + Tops(files)
                                       - Leftovers(old(entries), Target(old(entries)), files)
                && (Visible(entries) == Tops(files) <==>
                      Visible(old(entries)) <= Leftovers(old(entries), Target(old(entries)), files) + Tops(files))
      ensures !faulty && old(Inv(State())) && CleanPayload(files) && (forall k :: k in payload ==> ValidPath(k))
              && !(old(Read(entries)).Some? && Clash(files, old(Read(entries)).value)) ==>
                (ok <==> old(Read(entries)) == Some(files) || (Storable(files) && TMP !in old(entries)))
      ensures old(Read(entries)).Some? && Stuck(files, old(Read(entries)).value) ==> !ok
      ensures old(Intact(State())) && FreePayload(files) && TMP !in old(entries) ==> TMP !in entries
      ensures ok && old(Intact(State())) && old(Read(entries)) != Some(files) && Target(old(entries)).Some? ==>
                Target(old(entries)).value !in entries
    {
      var clean;
      ok, clean := ValidatePayload(payload);
      files := clean;
      if !ok {
        return;
      }
      NamesExactIff(Visible(entries), Leftovers(entries, Target(entries), clean), Tops(clean));
      ok := Replace(clean, ts, faulty);
    }
  }
}
