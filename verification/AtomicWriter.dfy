/** The atomic directory writer: files are written to a fresh timestamped directory and shown by
    renaming a symbolic link. The algorithm is a sequence of directory operations; it may stop,
    by an error or a crash, after any of them, and a later Write starts from what was left. */
module AtomicWriter {
  import opened Wrappers
  import opened Strings

  type Bytes = string

  /** A cleaned relative path, one string per element. */
  type Path = seq<string>

  type Files = map<Path, Bytes>

  /** An entry of the target directory. */
  datatype Entry = Symlink(target: string) | Directory(files: Files)

  type Entries = map<string, Entry>

  const DATA := "..data"
  const TMP := "..data_tmp"

  predicate Reserved(name: string) {
    HasPrefix(name, "..")
  }

  predicate Timestamped(name: string) {
    Reserved(name) && name != DATA && name != TMP
  }

  function VisibleLink(name: string): Entry {
    Symlink(DATA + "/" + name)
  }

  function Tops(files: Files): set<string> {
    set p | p in files && p != [] :: p[0]
  }

  predicate IsDir(es: Entries, name: string) {
    name in es && es[name].Directory?
  }

  function FilesIn(es: Entries, name: string): Files {
    if IsDir(es, name) then es[name].files else map[]
  }

  /** What the data link points to. */
  function Target(es: Entries): Option<string> {
    if DATA in es && es[DATA].Symlink? then Some(es[DATA].target) else None
  }

  /** The files seen through the data link. */
  function Read(es: Entries): Option<Files> {
    var t := Target(es);
    if t.Some? && IsDir(es, t.value) then Some(es[t.value].files) else None
  }

  /** The file seen at a user-visible path: through the visible link of its first element and the data link. */
  function ReadVisible(es: Entries, p: Path): Option<Bytes> {
    if p != [] && p[0] in es && es[p[0]] == VisibleLink(p[0]) && Read(es).Some? && p in Read(es).value
    then Some(Read(es).value[p]) else None
  }

  /** A file cannot be written where a directory is needed for another file, or under another file. */
  predicate Conflict(files: Files, p: Path) {
    p == [] || p == ["."] || exists q :: q in files && q != p && (q <= p || p <= q)
  }

  // ----- The algorithm as single operations -----

  /** Where a Write stands. */
  datatype Control =
    | Idle
    | Filling(payload: Files, prev: Option<string>, ts: string, left: set<Path>)
    | Linking(payload: Files, prev: Option<string>, ts: string, names: set<string>)
    | Pointing(payload: Files, prev: Option<string>, ts: string)
    | Swapping(payload: Files, prev: Option<string>, ts: string)
    | Pruning(payload: Files, prev: Option<string>, names: set<string>)
    | Dropping(dir: string)

  datatype Snap = Snap(entries: Entries, control: Control)

  datatype Op =
    | Begin(payload: Files, ts: string)
    | Torn(path: Path, part: Bytes)
    | Put(path: Path)
    | Filled
    | Link(name: string)
    | Linked
    | Point
    | PointFails
    | Swap
    | SwapFails
    | Unlink(name: string)
    | UnlinkFails(name: string)
    | Pruned
    | DropFile(path: Path)
    | DropDir
    | Abort

  ghost predicate Enabled(s: Snap, op: Op) {
    var es, c := s.entries, s.control;
    match op
    case Begin(_, ts) => c.Idle? && ts !in es && Timestamped(ts) && (DATA in es ==> es[DATA].Symlink?)
    case Torn(p, _) => c.Filling? && p in c.left && IsDir(es, c.ts) && !Conflict(es[c.ts].files, p)
    case Put(p) => c.Filling? && p in c.left && IsDir(es, c.ts) && !Conflict(es[c.ts].files, p)
    case Filled => c.Filling? && c.left == {}
    case Link(n) => c.Linking? && n in c.names
    case Linked => c.Linking? && c.names == {}
    case Point => c.Pointing? && TMP !in es
    case PointFails => c.Pointing?
    case Swap => c.Swapping? && (DATA in es ==> es[DATA].Symlink?)
    case SwapFails => c.Swapping?
    case Unlink(n) => c.Pruning? && n in c.names
    case UnlinkFails(n) => c.Pruning? && n in c.names
    case Pruned => c.Pruning? && c.names == {}
    case DropFile(p) => c.Dropping? && IsDir(es, c.dir)
    case DropDir => c.Dropping?
    case Abort => true
  }

  ghost function WithFiles(es: Entries, name: string, files: Files): Entries {
    es[name := Directory(files)]
  }

  /** The user-visible names that a swap leaves over. */
  function Leftovers(es: Entries, prev: Option<string>, payload: Files): set<string> {
    if prev.None? then {} else Tops(FilesIn(es, prev.value)) - Tops(payload)
  }

  /** One operation; one that is not enabled changes nothing. Symlink creation at Point fails when the
      temporary link exists. */
  ghost function After(s: Snap, op: Op): Snap {
    if !Enabled(s, op) then s else
    var es, c := s.entries, s.control;
    match op
    case Begin(payload, ts) => Snap(WithFiles(es, ts, map[]), Filling(payload, Target(es), ts, payload.Keys))
    case Torn(p, part) => s.(entries := WithFiles(es, c.ts, es[c.ts].files[p := part]))
    case Put(p) =>
      if p !in c.payload then s
      else Snap(WithFiles(es, c.ts, es[c.ts].files[p := c.payload[p]]), c.(left := c.left - {p}))
    case Filled => s.(control := Linking(c.payload, c.prev, c.ts, Tops(c.payload)))
    case Link(n) =>
      Snap(if n in es then es else es[n := VisibleLink(n)], Linking(c.payload, c.prev, c.ts, c.names - {n}))
    case Linked => s.(control := Pointing(c.payload, c.prev, c.ts))
    case Point => Snap(es[TMP := Symlink(c.ts)], Swapping(c.payload, c.prev, c.ts))
    case PointFails => s.(control := Dropping(c.ts))
    case Swap =>
      Snap((es - {TMP})[DATA := Symlink(c.ts)], Pruning(c.payload, c.prev, Leftovers(es, c.prev, c.payload)))
    case SwapFails => Snap(es - {TMP}, Dropping(c.ts))
    case Unlink(n) =>
      Snap(if n in es && es[n].Symlink? then es - {n} else es, Pruning(c.payload, c.prev, c.names - {n}))
    case UnlinkFails(n) => s.(control := Pruning(c.payload, c.prev, c.names - {n}))
    case Pruned => s.(control := if c.prev.Some? then Dropping(c.prev.value) else Idle)
    case DropFile(p) => s.(entries := WithFiles(es, c.dir, es[c.dir].files - {p}))
    case DropDir => Snap(es - {c.dir}, Idle)
    case Abort => s.(control := Idle)
  }

  ghost function Run(s: Snap, ops: seq<Op>): Snap {
    if ops == [] then s else After(Run(s, ops[..|ops| - 1]), ops[|ops| - 1])
  }

  // ----- What every operation keeps -----

  /** No file lies under another, and none at the place of the directory itself. */
  ghost predicate Storable(files: Files) {
    ["."] !in files && forall p, q :: p in files && q in files && p <= q ==> p == q
  }

  /** No path starts with the name of the data link or of the temporary link. */
  ghost predicate FreePayload(files: Files) {
    forall p :: p in files ==> p != [] && p[0] != DATA && p[0] != TMP
  }

  /** No path starts with a reserved name. */
  ghost predicate CleanPayload(files: Files) {
    forall p :: p in files ==> p != [] && !Reserved(p[0])
  }

  /** The data link, if there is one, leads to a timestamped directory. */
  ghost predicate Sound(es: Entries) {
    DATA in es ==>
      && es[DATA].Symlink? && Timestamped(es[DATA].target) && IsDir(es, es[DATA].target)
      && FreePayload(es[es[DATA].target].files) && Storable(es[es[DATA].target].files)
  }

  /** The new directory is apart from the one that is shown. */
  ghost predicate Apart(es: Entries, payload: Files, prev: Option<string>, ts: string) {
    FreePayload(payload) && Timestamped(ts) && IsDir(es, ts) && Storable(es[ts].files) && Target(es) == prev
    && prev != Some(ts)
  }

  /** What is read through the data link is one payload, and what is written is kept apart from it. */
  ghost predicate Intact(s: Snap) {
    var es, c := s.entries, s.control;
    && Sound(es)
    && match c
       case Idle => true
       case Filling(payload, prev, ts, left) =>
         && Apart(es, payload, prev, ts) && left <= payload.Keys && es[ts].files.Keys <= payload.Keys
         && (forall p :: p in payload && p !in left ==> p in es[ts].files && es[ts].files[p] == payload[p])
       case Linking(payload, prev, ts, names) =>
         Apart(es, payload, prev, ts) && es[ts].files == payload && names <= Tops(payload)
       case Pointing(payload, prev, ts) => Apart(es, payload, prev, ts) && es[ts].files == payload
       case Swapping(payload, prev, ts) =>
         Apart(es, payload, prev, ts) && es[ts].files == payload && TMP in es && es[TMP] == Symlink(ts)
       case Pruning(payload, prev, names) =>
         && Read(es) == Some(payload) && (prev.Some? ==> Timestamped(prev.value) && Target(es) != prev)
         && (forall n :: n in names ==> n != DATA && n != TMP && n !in Tops(payload))
       case Dropping(dir) => Timestamped(dir) && Target(es) != Some(dir)
  }

  /** The names that are not reserved are links into the data directory, and those of the shown files are there. */
  ghost predicate VisibleIn(es: Entries) {
    && (forall n :: n in es && !Reserved(n) ==> es[n] == VisibleLink(n))
    && (Read(es).Some? ==> CleanPayload(Read(es).value) && Tops(Read(es).value) <= es.Keys)
  }

  ghost predicate Visibly(s: Snap) {
    var es, c := s.entries, s.control;
    && VisibleIn(es)
    && match c
       case Idle => true
       case Filling(payload, _, _, _) => CleanPayload(payload)
       case Linking(payload, _, _, names) => CleanPayload(payload) && Tops(payload) - names <= es.Keys
       case Pointing(payload, _, _) => CleanPayload(payload) && Tops(payload) <= es.Keys
       case Swapping(payload, _, _) => CleanPayload(payload) && Tops(payload) <= es.Keys
       case Pruning(_, _, names) => forall n :: n in names ==> !Reserved(n)
       case Dropping(_) => true
  }

  ghost predicate Inv(s: Snap) {
    Intact(s) && Visibly(s)
  }

  ghost predicate KeepsRead(s: Snap, op: Op) {
    Intact(After(s, op)) && Read(After(s, op).entries) == Read(s.entries)
  }

  lemma FillingIsHidden(s: Snap, op: Op)
    requires Intact(s) && (op.Begin? ==> FreePayload(op.payload))
    requires op.Begin? || op.Torn? || op.Put? || op.Filled? || op.Abort?
    ensures KeepsRead(s, op)
  {
  }

  lemma LinkingIsHidden(s: Snap, op: Op)
    requires Intact(s) && (op.Link? || op.Linked? || op.Point? || op.PointFails? || op.SwapFails?)
    ensures KeepsRead(s, op)
  {
  }

  lemma UnlinkIsHidden(s: Snap, n: string)
    requires Intact(s)
    ensures KeepsRead(s, Unlink(n))
  {
  }

  lemma DroppingIsHidden(s: Snap, op: Op)
    requires Intact(s) && (op.UnlinkFails? || op.Pruned? || op.DropFile? || op.DropDir?)
    ensures KeepsRead(s, op)
  {
  }

  lemma SwapShowsPayload(s: Snap)
    requires Intact(s) && Enabled(s, Swap)
    ensures Intact(After(s, Swap)) && Read(After(s, Swap).entries) == Some(s.control.payload)
  {
    var c, t := s.control, After(s, Swap);
    assert Target(t.entries) == Some(c.ts);
  }

  /** An operation leaves what is read through the data link unchanged, except that the swap replaces it by
      the whole new payload. */
  lemma OpIsAtomic(s: Snap, op: Op)
    requires Intact(s) && (op.Begin? ==> FreePayload(op.payload))
    ensures Intact(After(s, op))
    ensures Read(After(s, op).entries) ==
            if op.Swap? && Enabled(s, op) then Some(s.control.payload) else Read(s.entries)
  {
    match op
    case Swap => if Enabled(s, Swap) { SwapShowsPayload(s); }
    case Unlink(n) => UnlinkIsHidden(s, n);
    case UnlinkFails(_) => DroppingIsHidden(s, op);
    case Link(_) => LinkingIsHidden(s, op);
    case Linked => LinkingIsHidden(s, op);
    case Point => LinkingIsHidden(s, op);
    case PointFails => LinkingIsHidden(s, op);
    case SwapFails => LinkingIsHidden(s, op);
    case Pruned => DroppingIsHidden(s, op);
    case DropFile(_) => DroppingIsHidden(s, op);
    case DropDir => DroppingIsHidden(s, op);
    case _ => FillingIsHidden(s, op);
  }

  lemma SwapKeepsVisible(s: Snap)
    requires Inv(s) && Enabled(s, Swap)
    ensures Visibly(After(s, Swap))
  {
    SwapShowsPayload(s);
  }

  lemma OtherOpKeepsVisible(s: Snap, op: Op)
    requires Inv(s) && (op.Begin? ==> CleanPayload(op.payload)) && !op.Swap? && !op.Unlink?
    requires Read(After(s, op).entries) == Read(s.entries)
    ensures Visibly(After(s, op))
  {
  }

  lemma UnlinkKeepsVisible(s: Snap, n: string)
    requires Inv(s) && Read(After(s, Unlink(n)).entries) == Read(s.entries)
    ensures Visibly(After(s, Unlink(n)))
  {
  }

  /** With clean payloads the visible names stay in order as well. */
  lemma OpKeepsInv(s: Snap, op: Op)
    requires Inv(s) && (op.Begin? ==> CleanPayload(op.payload))
    ensures Inv(After(s, op))
  {
    OpIsAtomic(s, op);
    if op.Swap? {
      if Enabled(s, Swap) {
        SwapKeepsVisible(s);
      }
    } else if op.Unlink? {
      UnlinkKeepsVisible(s, op.name);
    } else {
      OtherOpKeepsVisible(s, op);
    }
  }

  // ----- Whole runs -----

  ghost predicate AllFree(ops: seq<Op>) {
    forall i :: 0 <= i < |ops| && ops[i].Begin? ==> FreePayload(ops[i].payload)
  }

  ghost predicate AllClean(ops: seq<Op>) {
    forall i :: 0 <= i < |ops| && ops[i].Begin? ==> CleanPayload(ops[i].payload)
  }

  function PayloadOf(c: Control): Option<Files> {
    if c.Filling? || c.Linking? || c.Pointing? || c.Swapping? || c.Pruning? then Some(c.payload) else None
  }

  ghost predicate Offered(ops: seq<Op>, files: Files) {
    exists i :: 0 <= i < |ops| && ops[i].Begin? && ops[i].payload == files
  }

  lemma PayloadIsOffered(s: Snap, op: Op)
    ensures var c := PayloadOf(After(s, op).control);
            c.None? || c == PayloadOf(s.control) || (op.Begin? && c == Some(op.payload))
  {
  }

  lemma OfferedGrows(ops: seq<Op>, files: Files)
    requires ops != [] && Offered(ops[..|ops| - 1], files)
    ensures Offered(ops, files)
  {
    var front := ops[..|ops| - 1];
    var i :| 0 <= i < |front| && front[i].Begin? && front[i].payload == files;
    assert ops[i] == front[i];
  }

  lemma {:induction false} RunKeepsIntact(s: Snap, ops: seq<Op>)
    requires Intact(s) && s.control.Idle? && AllFree(ops)
    ensures Intact(Run(s, ops))
    ensures PayloadOf(Run(s, ops).control).Some? ==> Offered(ops, PayloadOf(Run(s, ops).control).value)
    ensures Read(Run(s, ops).entries) == Read(s.entries)
            || (Read(Run(s, ops).entries).Some? && Offered(ops, Read(Run(s, ops).entries).value))
  {
    if ops != [] {
      var front, op := ops[..|ops| - 1], ops[|ops| - 1];
      RunKeepsIntact(s, front);
      var t := Run(s, front);
      OpIsAtomic(t, op);
      PayloadIsOffered(t, op);
      if PayloadOf(t.control).Some? {
        OfferedGrows(ops, PayloadOf(t.control).value);
      }
      if Read(t.entries) != Read(s.entries) {
        OfferedGrows(ops, Read(t.entries).value);
      }
      assert op.Begin? ==> Offered(ops, op.payload);
    }
  }

  lemma {:induction false} RunKeepsInv(s: Snap, ops: seq<Op>)
    requires Inv(s) && AllClean(ops)
    ensures Inv(Run(s, ops))
  {
    if ops != [] {
      RunKeepsInv(s, ops[..|ops| - 1]);
      OpKeepsInv(Run(s, ops[..|ops| - 1]), ops[|ops| - 1]);
    }
  }

  /** After any sequence of Writes stopped anywhere, what is read through the data link is one complete payload: the
      one shown at the start or one offered since. */
  lemma AlwaysOnePayload(s: Snap, ops: seq<Op>)
    requires Intact(s) && s.control.Idle? && AllFree(ops)
    ensures var es := Run(s, ops).entries;
            && (DATA in es ==> Read(es).Some?)
            && (Read(es) == Read(s.entries) || (Read(es).Some? && Offered(ops, Read(es).value)))
  {
    RunKeepsIntact(s, ops);
  }

  /** With clean payloads each visible path shows exactly the content that this payload gives it. */
  lemma AlwaysVisible(s: Snap, ops: seq<Op>, p: Path)
    requires Inv(s) && AllClean(ops)
    ensures var es := Run(s, ops).entries;
            ReadVisible(es, p) == if Read(es).Some? && p in Read(es).value then Some(Read(es).value[p]) else None
  {
    RunKeepsInv(s, ops);
  }

  // ----- Runs that can be made -----

  lemma {:induction false} RunConcat(s: Snap, a: seq<Op>, b: seq<Op>)
    ensures Run(s, a + b) == Run(Run(s, a), b)
  {
    if b == [] {
      assert a + b == a;
    } else {
      assert (a + b)[..|a + b| - 1] == a + b[..|b| - 1];
      RunConcat(s, a, b[..|b| - 1]);
    }
  }

  lemma RunOne(s: Snap, op: Op)
    ensures Run(s, [op]) == After(s, op)
  {
    assert [op][..0] == [];
  }

  /** The operations of Writes of `payload` in which nothing fails. */
  ghost predicate Writing(ops: seq<Op>, payload: Files) {
    forall op :: op in ops ==> Advances(op) || (op.Begin? && op.payload == payload)
  }

  lemma {:induction false} CanFill(s: Snap) returns (ops: seq<Op>)
    requires s.control.Filling? && IsDir(s.entries, s.control.ts) && Storable(s.control.payload)
             && [] !in s.control.payload
    requires s.control.left <= s.control.payload.Keys
    requires s.entries[s.control.ts].files == s.control.payload - s.control.left
    ensures var c := s.control;
            && Run(s, ops) ==
                Snap(s.entries[c.ts := Directory(c.payload)], Linking(c.payload, c.prev, c.ts, Tops(c.payload)))
            && forall op :: op in ops ==> Advances(op)
    decreases |s.control.left|
  {
    var c := s.control;
    if c.left == {} {
      ops := [Filled];
      RunOne(s, Filled);
      assert c.payload - {} == c.payload;
      assert s.entries[c.ts := Directory(c.payload)] == s.entries;
    } else {
      var p :| p in c.left;
      var t := After(s, Put(p));
      PutOne(s, p);
      var rest := CanFill(t);
      ops := [Put(p)] + rest;
      RunConcat(s, [Put(p)], rest);
      RunOne(s, Put(p));
      assert t.entries[c.ts := Directory(c.payload)] == s.entries[c.ts := Directory(c.payload)];
    }
  }

  lemma PutOne(s: Snap, p: Path)
    requires s.control.Filling? && IsDir(s.entries, s.control.ts) && Storable(s.control.payload)
             && [] !in s.control.payload
    requires s.control.left <= s.control.payload.Keys && p in s.control.left
    requires s.entries[s.control.ts].files == s.control.payload - s.control.left
    ensures var c := s.control;
            After(s, Put(p)) == Snap(s.entries[c.ts := Directory(c.payload - (c.left - {p}))], c.(left := c.left - {p}))
  {
    var c := s.control;
    assert !Conflict(s.entries[c.ts].files, p);
    assert (c.payload - c.left)[p := c.payload[p]] == c.payload - (c.left - {p});
  }

  function WithLinks(es: Entries, names: set<string>): Entries {
    es + map n | n in names && n !in es :: VisibleLink(n)
  }

  lemma LinkOne(s: Snap, n: string)
    requires s.control.Linking? && n in s.control.names
    ensures var c := s.control;
            After(s, Link(n)) == Snap(WithLinks(s.entries, {n}), Linking(c.payload, c.prev, c.ts, c.names - {n}))
  {
    assert WithLinks(s.entries, {n}) == if n in s.entries then s.entries else s.entries[n := VisibleLink(n)];
  }

  lemma LinksInTurn(es: Entries, n: string, names: set<string>)
    requires n in names
    ensures WithLinks(WithLinks(es, {n}), names - {n}) == WithLinks(es, names)
  {
  }

  lemma {:induction false} CanLink(s: Snap) returns (ops: seq<Op>)
    requires s.control.Linking?
    ensures var c := s.control;
            && Run(s, ops) == Snap(WithLinks(s.entries, c.names), Pointing(c.payload, c.prev, c.ts))
            && forall op :: op in ops ==> Advances(op)
    decreases |s.control.names|
  {
    var c := s.control;
    if c.names == {} {
      ops := [Linked];
      RunOne(s, Linked);
      assert WithLinks(s.entries, {}) == s.entries;
    } else {
      var n :| n in c.names;
      LinkOne(s, n);
      var rest := CanLink(After(s, Link(n)));
      ops := [Link(n)] + rest;
      RunConcat(s, [Link(n)], rest);
      RunOne(s, Link(n));
      LinksInTurn(s.entries, n, c.names);
    }
  }

  /** A Write of a payload that can be stored gets as far as the temporary link. */
  lemma CanPrepare(s: Snap, payload: Files, ts: string) returns (ops: seq<Op>)
    requires Enabled(s, Begin(payload, ts)) && Storable(payload) && [] !in payload
    ensures Writing(ops, payload)
    ensures Run(s, ops) == Snap(Ready(s.entries, payload, ts), Pointing(payload, Target(s.entries), ts))
  {
    var b := After(s, Begin(payload, ts));
    assert payload - payload.Keys == map[];
    var fill := CanFill(b);
    assert b.entries[ts := Directory(payload)] == s.entries[ts := Directory(payload)];
    var link := CanLink(Run(b, fill));
    ops := [Begin(payload, ts)] + fill + link;
    RunOne(s, Begin(payload, ts));
    RunConcat(s, [Begin(payload, ts)], fill);
    RunConcat(s, [Begin(payload, ts)] + fill, link);
  }

  /** The directory when all is ready for the temporary link. */
  function Ready(es: Entries, payload: Files, ts: string): Entries {
    WithLinks(es[ts := Directory(payload)], Tops(payload))
  }

  lemma SwapReady(p: Snap)
    requires p.control.Pointing? && TMP !in p.entries && (DATA in p.entries ==> p.entries[DATA].Symlink?)
    ensures var c, q := p.control, After(p, Point);
            && q == Snap(p.entries[TMP := Symlink(c.ts)], Swapping(c.payload, c.prev, c.ts))
            && After(q, Swap) == Snap(p.entries[DATA := Symlink(c.ts)],
                                      Pruning(c.payload, c.prev, Leftovers(p.entries, c.prev, c.payload)))
  {
    var ts := p.control.ts;
    assert p.entries[TMP := Symlink(ts)] - {TMP} == p.entries;
    assert FilesIn(p.entries[TMP := Symlink(ts)], TMP) == FilesIn(p.entries, TMP) == map[];
  }

  /** Without a temporary link in the way it also gets to the rename and past it. */
  lemma CanSwap(s: Snap, payload: Files, ts: string) returns (before: seq<Op>, ops: seq<Op>)
    requires Enabled(s, Begin(payload, ts)) && Storable(payload) && [] !in payload
    requires TMP !in s.entries && TMP !in Tops(payload)
    ensures Writing(before, payload) && Writing(ops, payload)
    ensures var es, prev := Ready(s.entries, payload, ts), Target(s.entries);
            && Run(s, before) == Snap(es[TMP := Symlink(ts)], Swapping(payload, prev, ts))
            && Run(s, ops) == Snap(es[DATA := Symlink(ts)], Pruning(payload, prev, Leftovers(es, prev, payload)))
  {
    var prepare := CanPrepare(s, payload, ts);
    var p := Run(s, prepare);
    SwapReady(p);
    before := prepare + [Point];
    RunConcat(s, prepare, [Point]);
    RunOne(p, Point);
    ops := before + [Swap];
    RunConcat(s, before, [Swap]);
    RunOne(Run(s, before), Swap);
  }

  // ----- A temporary link left behind -----

  lemma {:induction false} TmpBlocksForever(s: Snap, ops: seq<Op>)
    requires Intact(s) && !s.control.Swapping? && TMP in s.entries && AllFree(ops)
    ensures var t := Run(s, ops);
            Intact(t) && !t.control.Swapping? && TMP in t.entries && Read(t.entries) == Read(s.entries)
  {
    if ops != [] {
      TmpBlocksForever(s, ops[..|ops| - 1]);
      OpIsAtomic(Run(s, ops[..|ops| - 1]), ops[|ops| - 1]);
    }
  }

  /** A Write stopped between creating the temporary link and renaming it blocks the writer: whatever
      is written later, the files shown never change again. */
  lemma CrashBeforeSwapBlocksWriter(s: Snap, ops: seq<Op>)
    requires Intact(s) && s.control.Swapping? && AllFree(ops)
    ensures Read(Run(After(s, Abort), ops).entries) == Read(s.entries)
  {
    OpIsAtomic(s, Abort);
    TmpBlocksForever(After(s, Abort), ops);
  }

  lemma ReadyKeepsRead(es: Entries, payload: Files, ts: string)
    requires Sound(es) && ts !in es && Timestamped(ts) && FreePayload(payload)
    ensures Read(Ready(es, payload, ts)[TMP := Symlink(ts)]) == Read(es)
    ensures Read(Ready(es, payload, ts)[DATA := Symlink(ts)]) == Some(payload)
  {
  }

  /** Without a temporary link a Write can go through to the rename. */
  lemma CanShow(s: Snap, payload: Files, ts: string) returns (before: seq<Op>, ops: seq<Op>)
    requires Intact(s) && s.control.Idle? && TMP !in s.entries && ts !in s.entries && Timestamped(ts)
    requires FreePayload(payload) && Storable(payload)
    ensures Writing(ops, payload) && Read(Run(s, ops).entries) == Some(payload)
    ensures Writing(before, payload) && Run(s, before).control.Swapping?
            && Read(Run(s, before).entries) == Read(s.entries)
  {
    before, ops := CanSwap(s, payload, ts);
    ReadyKeepsRead(s.entries, payload, ts);
  }

  lemma WritingIsFree(ops: seq<Op>, payload: Files)
    requires Writing(ops, payload) && FreePayload(payload)
    ensures AllFree(ops)
  {
    forall i | 0 <= i < |ops| && ops[i].Begin?
      ensures FreePayload(ops[i].payload)
    {
      assert ops[i] in ops;
    }
  }

  ghost predicate CanBeShown(s: Snap, payload: Files) {
    exists ops :: AllFree(ops) && Read(Run(s, ops).entries) == Some(payload)
  }

  /** A payload that is not shown can come to be shown exactly when no temporary link is left over. */
  lemma CanBeShownIff(s: Snap, payload: Files, ts: string)
    requires Intact(s) && s.control.Idle? && ts !in s.entries && Timestamped(ts)
    requires FreePayload(payload) && Storable(payload) && Read(s.entries) != Some(payload)
    ensures CanBeShown(s, payload) <==> TMP !in s.entries
  {
    if TMP !in s.entries {
      var before, ops := CanShow(s, payload, ts);
      WritingIsFree(ops, payload);
    } else if CanBeShown(s, payload) {
      var ops :| AllFree(ops) && Read(Run(s, ops).entries) == Some(payload);
      TmpBlocksForever(s, ops);
    }
  }

  const EMPTY := Snap(map[], Idle)

  /** From an empty directory a Write does get between the temporary link and the rename; stopped there it is the last
      one that changes anything. */
  lemma WriterCanBeBlocked(payload: Files, ts: string) returns (ops: seq<Op>)
    requires FreePayload(payload) && Storable(payload) && Timestamped(ts)
    ensures ops != [] && Writing(ops[..|ops| - 1], payload) && ops[|ops| - 1] == Abort
    ensures forall later :: AllFree(later) ==> Read(Run(Run(EMPTY, ops), later).entries) == None
  {
    var before, _ := CanShow(EMPTY, payload, ts);
    ops := before + [Abort];
    RunConcat(EMPTY, before, [Abort]);
    RunOne(Run(EMPTY, before), Abort);
    WritingIsFree(before, payload);
    RunKeepsIntact(EMPTY, before);
    forall later | AllFree(later)
      ensures Read(Run(Run(EMPTY, ops), later).entries) == None
    {
      CrashBeforeSwapBlocksWriter(Run(EMPTY, before), later);
    }
  }

  // ----- Payloads with the reserved names of the links -----

  /** Writes of `files` and of other payloads that are free of both names; nothing fails. */
  ghost predicate WritingAlso(ops: seq<Op>, files: Files) {
    forall op :: op in ops ==> Advances(op) || (op.Begin? && (op.payload == files || FreePayload(op.payload)))
  }

  /** What is shown is never lost, and no Write finds its temporary link in the way. */
  ghost predicate Promised(ops: seq<Op>) {
    && (Run(EMPTY, ops).control.Pointing? ==> TMP !in Run(EMPTY, ops).entries)
    && forall i :: 0 <= i <= |ops| && Read(Run(EMPTY, ops[..i]).entries).Some? ==> Read(Run(EMPTY, ops).entries).Some?
  }

  ghost predicate Harmless(files: Files) {
    forall ops :: WritingAlso(ops, files) ==> Promised(ops)
  }

  lemma FreeStep(s: Snap, op: Op)
    requires Intact(s) && (TMP in s.entries ==> s.control.Swapping?)
    requires Advances(op) || (op.Begin? && FreePayload(op.payload))
    ensures var t := After(s, op);
            && Intact(t) && (TMP in t.entries ==> t.control.Swapping?)
            && (Read(s.entries).Some? ==> Read(t.entries).Some?)
  {
    OpIsAtomic(s, op);
  }

  lemma {:induction false} FreeWritesKeep(ops: seq<Op>, files: Files)
    requires WritingAlso(ops, files) && FreePayload(files)
    ensures var s := Run(EMPTY, ops); Intact(s) && (TMP in s.entries ==> s.control.Swapping?)
    ensures Promised(ops)
  {
    if ops != [] {
      var n := |ops| - 1;
      var front, op := ops[..n], ops[n];
      assert op in ops && forall o :: o in front ==> o in ops;
      FreeWritesKeep(front, files);
      FreeStep(Run(EMPTY, front), op);
      forall i | 0 <= i <= |ops| && Read(Run(EMPTY, ops[..i]).entries).Some?
        ensures Read(Run(EMPTY, ops).entries).Some?
      {
        if i <= n {
          assert front[..i] == ops[..i];
        } else {
          assert ops[..i] == ops;
        }
      }
    }
  }

  /** A top-level name of the temporary link is in the way of its own Write. */
  lemma TmpTopBreaks(files: Files, ts: string)
    requires Storable(files) && [] !in files && TMP in Tops(files) && Timestamped(ts)
    ensures !Harmless(files)
  {
    var ops := CanPrepare(EMPTY, files, ts);
    assert WritingAlso(ops, files);
    assert !Promised(ops);
  }

  lemma OneMoreOp(s: Snap, ops: seq<Op>, op: Op, payload: Files)
    requires Writing(ops, payload) && Advances(op)
    ensures Writing(ops + [op], payload) && Run(s, ops + [op]) == After(Run(s, ops), op)
  {
    RunConcat(s, ops, [op]);
    RunOne(Run(s, ops), op);
  }

  lemma LastPrune(s: Snap)
    requires s.control.Pruning? && s.control.names == {} && s.control.prev.None?
    ensures After(s, Pruned) == Snap(s.entries, Idle)
  {
  }

  lemma UnlinkOne(s: Snap, n: string)
    requires s.control.Pruning? && n in s.control.names
    ensures var c, t := s.control, After(s, Unlink(n));
            && t.control == Pruning(c.payload, c.prev, c.names - {n}) && t.entries.Keys <= s.entries.Keys
            && (n in s.entries && s.entries[n].Symlink? ==> n !in t.entries)
            && (forall m :: m in s.entries && m != n ==> m in t.entries && t.entries[m] == s.entries[m])
  {
  }

  lemma PruneLast(s: Snap) returns (ops: seq<Op>)
    requires s.control.Pruning? && s.control.names == {}
    ensures Run(s, ops).control.Idle? && Run(s, ops).entries.Keys <= s.entries.Keys
            && forall op :: op in ops ==> Advances(op)
  {
    var t := After(s, Pruned);
    RunOne(s, Pruned);
    ops := [Pruned];
    if s.control.prev.Some? {
      RunConcat(s, [Pruned], [DropDir]);
      RunOne(t, DropDir);
      ops := [Pruned] + [DropDir];
    }
  }

  /** The end of a Write: the names left over go, and then the directory before. */
  lemma {:induction false} CanFinish(s: Snap) returns (ops: seq<Op>)
    requires s.control.Pruning?
    ensures Run(s, ops).control.Idle? && Run(s, ops).entries.Keys <= s.entries.Keys
            && forall op :: op in ops ==> Advances(op)
    ensures forall n :: n in s.control.names && n in s.entries && s.entries[n].Symlink? ==> n !in Run(s, ops).entries
    decreases |s.control.names|
  {
    if s.control.names == {} {
      ops := PruneLast(s);
    } else {
      var n :| n in s.control.names;
      UnlinkOne(s, n);
      var rest := CanFinish(After(s, Unlink(n)));
      ops := [Unlink(n)] + rest;
      RunConcat(s, [Unlink(n)], rest);
      RunOne(s, Unlink(n));
    }
  }

  /** The first Write of such a payload succeeds from an empty directory. */
  lemma FirstWriteShows(files: Files, ts: string) returns (ops: seq<Op>)
    requires Storable(files) && [] !in files && TMP !in Tops(files) && Timestamped(ts)
    ensures Writing(ops, files)
    ensures Run(EMPTY, ops) == Snap(Ready(map[], files, ts)[DATA := Symlink(ts)], Idle)
  {
    var before, swap := CanSwap(EMPTY, files, ts);
    ops := swap + [Pruned];
    OneMoreOp(EMPTY, swap, Pruned, files);
    LastPrune(Run(EMPTY, swap));
  }

  lemma LeftBehind(es: Entries, files: Files, other: Files, ts: string, next: string)
    requires IsDir(es, ts) && es[ts].files == files && DATA in Tops(files) && DATA !in Tops(other) && next !in es
    ensures DATA in Leftovers(Ready(es, other, next), Some(ts), other)
  {
  }

  /** A second Write takes the data link for a name left over, and removes it after showing its payload. */
  lemma SecondWriteLoses(s: Snap, files: Files, other: Files, ts: string, next: string) returns (ops: seq<Op>)
    requires s.control.Idle? && TMP !in s.entries && IsDir(s.entries, ts) && s.entries[ts].files == files
    requires DATA in s.entries && s.entries[DATA] == Symlink(ts) && DATA in Tops(files)
    requires next !in s.entries && Timestamped(next) && FreePayload(other) && Storable(other)
    ensures Writing(ops, other) && Run(s, ops).control.Idle? && DATA !in Run(s, ops).entries
  {
    var before, swap := CanSwap(s, other, next);
    LeftBehind(s.entries, files, other, ts, next);
    var finish := CanFinish(Run(s, swap));
    ops := swap + finish;
    RunConcat(s, swap, finish);
  }

  lemma FirstState(files: Files, ts: string)
    requires Timestamped(ts) && TMP !in Tops(files)
    ensures var es := Ready(map[], files, ts)[DATA := Symlink(ts)];
            && TMP !in es && IsDir(es, ts) && es[ts].files == files && es[DATA] == Symlink(ts)
            && es.Keys <= {ts, DATA} + Tops(files)
  {
  }

  /** From an empty directory: a Write of a payload that has the name of the data link at the top, and then a Write of
      any other payload. Both complete every operation, and then nothing is shown. */
  lemma TwoWritesLoseData(files: Files, other: Files, ts: string, next: string)
    returns (first: seq<Op>, second: seq<Op>)
    requires Storable(files) && [] !in files && DATA in Tops(files) && TMP !in Tops(files)
    requires FreePayload(other) && Storable(other)
    requires Timestamped(ts) && Timestamped(next) && next != ts && next !in Tops(files)
    ensures Writing(first, files) && Run(EMPTY, first).control.Idle? && Read(Run(EMPTY, first).entries) == Some(files)
    ensures Writing(second, other) && Run(EMPTY, first + second).control.Idle?
            && DATA !in Run(EMPTY, first + second).entries
  {
    first := FirstWriteShows(files, ts);
    FirstState(files, ts);
    second := SecondWriteLoses(Run(EMPTY, first), files, other, ts, next);
    RunConcat(EMPTY, first, second);
  }

  /** A top-level name of the data link lets the next Write remove the data link. */
  lemma DataTopBreaks(files: Files, ts: string, next: string)
    requires Storable(files) && [] !in files && DATA in Tops(files) && TMP !in Tops(files)
    requires Timestamped(ts) && Timestamped(next) && next != ts && next !in Tops(files)
    ensures !Harmless(files)
  {
    var first, second := TwoWritesLoseData(files, map[], ts, next);
    var ops := first + second;
    assert ops[..|first|] == first;
    assert WritingAlso(ops, files);
    assert !Promised(ops);
  }

  /** Among the payloads that can be stored exactly those without the names of the two links at the top keep the
      promise in all runs of Writes. */
  lemma HarmlessIff(files: Files, ts: string, next: string)
    requires Storable(files) && [] !in files
    requires Timestamped(ts) && Timestamped(next) && next != ts && next !in Tops(files)
    ensures Harmless(files) <==> DATA !in Tops(files) && TMP !in Tops(files)
  {
    if TMP in Tops(files) {
      TmpTopBreaks(files, ts);
    } else if DATA in Tops(files) {
      DataTopBreaks(files, ts, next);
    } else {
      forall ops | WritingAlso(ops, files)
        ensures Promised(ops)
      {
        FreeWritesKeep(ops, files);
      }
    }
  }

  // ----- Visible names -----

  function Visible(es: Entries): set<string> {
    set n | n in es && !Reserved(n)
  }

  /** The visible names there will be when the Write at this point succeeds. */
  ghost function FinalNames(s: Snap): set<string> {
    var es, c := s.entries, s.control;
    if c.Filling? || c.Linking? || c.Pointing? || c.Swapping? then
      Visible(es) + Tops(c.payload) - Leftovers(es, c.prev, c.payload)
    else if c.Pruning? then Visible(es) - c.names
    else Visible(es)
  }

  /** The operations of a Write that succeeds. */
  predicate Advances(op: Op) {
    op.Torn? || op.Put? || op.Filled? || op.Link? || op.Linked? || op.Point? || op.Swap? || op.Unlink? || op.Pruned?
    || op.DropFile? || op.DropDir?
  }

  lemma AdvanceKeepsNames(s: Snap, op: Op)
    requires Inv(s) && Advances(op)
    ensures FinalNames(After(s, op)) == FinalNames(s)
  {
    if Enabled(s, op) {
      var t, c := After(s, op), s.control;
      if op.Torn? || op.Put? || op.Link? || op.Point? {
        LeftoversStay(s, op);
      } else if op.Swap? {
        assert Visible(t.entries) == Visible(s.entries);
        assert Tops(c.payload) <= Visible(s.entries);
      }
    }
  }

  lemma LeftoversStay(s: Snap, op: Op)
    requires Inv(s) && Enabled(s, op) && (op.Torn? || op.Put? || op.Link? || op.Point?)
    ensures var c := s.control;
            Leftovers(After(s, op).entries, c.prev, c.payload) == Leftovers(s.entries, c.prev, c.payload)
  {
  }
}
