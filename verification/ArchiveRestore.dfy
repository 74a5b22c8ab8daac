/**
 Restoring a backup: all or nothing, exactly the tree that a verified archive describes, and the
 archives for which that is not the tree that was backed up.
 */
module ArchiveRestore {
  import opened Wrappers
  import opened Texts
  import opened Decimals
  import opened Blake3
  import opened ArchiveFormat
  import opened ArchiveReader

  // ---------------------------------------------------------------- restoring

  /** The tree that an accepted archive describes. */
  ghost function RestoredTree<S>(f: Format<S>, raw: bytes): map<string, bytes> {
    match Parse(f, raw)
    case Err(_) => map[]
    case Ok((m, payloads)) => if |payloads| == |m.entries| then Stored(Restore, Named(m.entries, payloads)) else map[]
  }

  class Importer {
    var target: Option<map<string, bytes>>  // the restore target, when it exists
    var stage: Option<map<string, bytes>>  // the staging directory beside it, when it exists

    constructor (target: Option<map<string, bytes>>)
      ensures this.target == target && stage == None
    {
      this.target, stage := target, None;
    }

    /**
     `import`: an existing target is never touched; the target appears all at once, holding exactly
     what a verified archive describes, or not at all.  When the disk is in order, the archives that are
     restored are exactly those that verification accepts, whose paths are safe and free of NUL, in which
     no path leads through another, and whose databases are sound.
     */
    method Import<S(!new)>(f: Format<S>, decrypted: Result<bytes, ArchiveError>, buffer: nat, healthy: bool,
                           sound: bytes -> bool)
      returns (r: Result<Manifest, ArchiveError>)
      requires buffer > 0 && Incremental(f.hasher)
      modifies this
      ensures r.Err? ==> target == old(target)
      ensures old(target).Some? || old(stage).Some? ==> r == Err(InvalidRestoreTarget) && stage == old(stage)
      ensures r.Ok? ==>
                && old(target).None? && decrypted.Ok? && r == Outcome(Parse(f, decrypted.value))
                && Restores(f, decrypted.value, sound)
                && target == Some(RestoredTree(f, decrypted.value)) && stage.None?
      ensures healthy && old(target).None? && old(stage).None? ==> stage.None?
      ensures healthy && old(target).None? && old(stage).None? && decrypted.Ok? ==>
                (r.Ok? <==> Restores(f, decrypted.value, sound))
    {
      if target.Some? || stage.Some? {
        return Err(InvalidRestoreTarget);
      }
      var created: bool := *;
      if !created && !healthy {
        return Err(IoFailed);
      }
      stage := Some(map[]);
      r := RestoreInto(f, decrypted, buffer, healthy, sound);
      if r.Err? {
        CleanUp(healthy);
        return;
      }
      var renamed: bool := *;
      if renamed || healthy {
        target, stage := stage, None;
      } else {
        CleanUp(healthy);
        r := Err(IoFailed);
      }
    }

    /** Fills the staging directory. */
    method RestoreInto<S(!new)>(f: Format<S>, decrypted: Result<bytes, ArchiveError>, buffer: nat, healthy: bool,
                                sound: bytes -> bool)
      returns (r: Result<Manifest, ArchiveError>)
      requires buffer > 0 && Incremental(f.hasher)
      modifies this`stage
      ensures r.Ok? ==>
                && decrypted.Ok? && r == Outcome(Parse(f, decrypted.value)) && Restores(f, decrypted.value, sound)
                && stage == Some(RestoredTree(f, decrypted.value))
      ensures healthy && decrypted.Ok? ==>
                (r.Ok? <==> Restores(f, decrypted.value, sound))
    {
      if decrypted.Err? {
        return Err(decrypted.error);
      }
      var reader := new Reader(decrypted.value);
      var sink := new Sink(Restore, healthy, sound);
      r := ProcessArchive(f, reader, sink, buffer);
      stage := Some(sink.files);
    }

    /** Removing the staging directory may fail; that is only logged. */
    method CleanUp(healthy: bool)
      modifies this`stage
      ensures stage.None? || (!healthy && stage == old(stage))
    {
      var removed: bool := *;
      if removed || healthy {
        stage := None;
      }
    }
  }

  // ---------------------------------------------------------------- what a restored tree holds

  /** Entries that land on the same place carry the same bytes. */
  predicate NoClash(kind: SinkKind, delivered: seq<(string, bytes)>) {
    forall i, j :: 0 <= i < j < |delivered| && Key(kind, delivered[i].0) == Key(kind, delivered[j].0) ==>
                     delivered[i].1 == delivered[j].1
  }

  predicate Holds(files: map<string, bytes>, kind: SinkKind, item: (string, bytes)) {
    Key(kind, item.0) in files && files[Key(kind, item.0)] == item.1
  }

  /**
   A sink keeps every payload exactly when no two entries that land on the same place differ.
   Duplicate paths are refused, but `a/b` and `a//b` are different paths of one file.
   */
  lemma KeepsAllPayloads(kind: SinkKind, delivered: seq<(string, bytes)>)
    requires !kind.Noop?
    ensures (forall i :: 0 <= i < |delivered| ==> Holds(Stored(kind, delivered), kind, delivered[i])) <==>
            NoClash(kind, delivered)
  {
    if NoClash(kind, delivered) {
      KeptWithoutClash(kind, delivered);
    }
    if forall i :: 0 <= i < |delivered| ==> Holds(Stored(kind, delivered), kind, delivered[i]) {
      forall i, j | 0 <= i < j < |delivered| && Key(kind, delivered[i].0) == Key(kind, delivered[j].0)
        ensures delivered[i].1 == delivered[j].1
      {
        assert Holds(Stored(kind, delivered), kind, delivered[i]);
        assert Holds(Stored(kind, delivered), kind, delivered[j]);
      }
    }
  }

  lemma {:induction false} KeptWithoutClash(kind: SinkKind, delivered: seq<(string, bytes)>)
    requires !kind.Noop? && NoClash(kind, delivered)
    ensures forall i :: 0 <= i < |delivered| ==> Holds(Stored(kind, delivered), kind, delivered[i])
    decreases |delivered|
  {
    if delivered != [] {
      var front := delivered[..|delivered| - 1];
      KeptWithoutClash(kind, front);
      forall i | 0 <= i < |delivered|
        ensures Holds(Stored(kind, delivered), kind, delivered[i])
      {
        if i < |front| {
          assert front[i] == delivered[i];
          assert Holds(Stored(kind, front), kind, front[i]);
        }
      }
    }
  }

  /** A path the exporter builds: names joined by slashes. */
  predicate PlainPath(path: string) {
    forall i :: 0 <= i < |Split(path, '/')| ==> Normal(Split(path, '/')[i])
  }

  lemma PlainPathIsItsKey(path: string)
    requires PlainPath(path)
    ensures Key(Restore, path) == path
  {
    JoinSplit(path, '/');
    SanitizeKeepsNormal(Split(path, '/'));
  }

  /** Backing up a tree and restoring the archive gives the tree back. */
  lemma BackupRestores<S>(f: Format<S>, files: map<string, bytes>, order: seq<string>, m: Manifest)
    requires Faithful(f) && Collected(files, order) && (forall p :: p in files ==> p in order && PlainPath(p))
    requires m.version == CURRENT_VERSION && m.entries == ExportEntries(f, files, order)
    requires |f.encode(m)| <= MAX_MANIFEST_BYTES
    ensures Covered(m.entries, files)
    ensures RestoredTree(f, Layout(f.encode(m), Payloads(m.entries, files))) == files
  {
    ExportAccepted(f, files, order, m);
    ExportNames(f, files, order);
    forall i | 0 <= i < |order|
      ensures Key(Restore, order[i]) == order[i]
    {
      PlainPathIsItsKey(order[i]);
    }
    StoresTheTree(files, order, Named(m.entries, Payloads(m.entries, files)));
  }

  lemma ExportNames<S>(f: Format<S>, files: map<string, bytes>, order: seq<string>)
    requires Collected(files, order)
    ensures var entries := ExportEntries(f, files, order);
            && Covered(entries, files)
            && forall i :: 0 <= i < |order| ==>
                             Named(entries, Payloads(entries, files))[i] == (order[i], files[order[i]])
  {
  }

  lemma StoresTheTree(files: map<string, bytes>, order: seq<string>, named: seq<(string, bytes)>)
    requires |named| == |order| && (forall p :: p in files ==> p in order)
    requires forall i :: 0 <= i < |order| ==>
                           && order[i] in files && named[i] == (order[i], files[order[i]])
                           && Key(Restore, order[i]) == order[i]
    ensures Stored(Restore, named) == files
  {
    KeptWithoutClash(Restore, named);
    var tree := Stored(Restore, named);
    forall p | p in files
      ensures p in tree && tree[p] == files[p]
    {
      var i :| 0 <= i < |order| && order[i] == p;
      assert Holds(tree, Restore, named[i]);
    }
    forall p | p in tree
      ensures p in files
    {
      StoresOnlyEntries(Restore, named, p);
    }
  }

  /** No path of the tree leads through another, as in any directory tree. */
  predicate IsTree(files: map<string, bytes>) {
    forall p, q :: p in files && q in files ==> !Nested(Split(p, '/'), Split(q, '/'))
  }

  /**
   The archive of a directory tree can be restored exactly when its names are free of NUL, as in any
   directory, and each file that the importer takes for a database is sound.  The exporter makes sure of
   one database only.
   */
  lemma TreesAreRestorable<S>(f: Format<S>, files: map<string, bytes>, order: seq<string>, m: Manifest,
                              sound: bytes -> bool)
    requires Faithful(f) && Collected(files, order) && IsTree(files)
    requires forall p :: p in files ==> p in order && PlainPath(p)
    requires m.version == CURRENT_VERSION && m.entries == ExportEntries(f, files, order)
    requires |f.encode(m)| <= MAX_MANIFEST_BYTES
    ensures Covered(m.entries, files)
    ensures Restores(f, Layout(f.encode(m), Payloads(m.entries, files)), sound) <==>
            forall p :: p in files ==> Nameable(p) && PassesCheck(sound, p, files[p])
  {
    ExportAccepted(f, files, order, m);
    ExportNames(f, files, order);
    TreesHavePlaces(f, files, order);
    assert forall i :: 0 <= i < |order| ==> m.entries[i].path == order[i];
    var payloads := Payloads(m.entries, files);
    if AllPass(sound, m.entries, payloads) {
      forall p | p in files
        ensures PassesCheck(sound, p, files[p])
      {
        var i :| 0 <= i < |order| && order[i] == p;
        assert PassesCheck(sound, m.entries[i].path, payloads[i]);
      }
    }
  }

  lemma TreesHavePlaces<S>(f: Format<S>, files: map<string, bytes>, order: seq<string>)
    requires Collected(files, order) && IsTree(files) && forall p :: p in files ==> p in order && PlainPath(p)
    ensures Restorable(ExportEntries(f, files, order)) <==> forall p :: p in files ==> Nameable(p)
  {
    var entries := ExportEntries(f, files, order);
    forall i | 0 <= i < |order|
      ensures entries[i].path == order[i] && Sanitize(order[i]) == Some(Split(order[i], '/'))
    {
      JoinSplit(order[i], '/');
      SanitizeKeepsNormal(Split(order[i], '/'));
    }
  }

  /** A path text that begins with `data/` and ends in `.db`. */
  ghost predicate BeginsAndEnds(path: string) {
    && (exists rest :: path == "data/" + rest)
    && (exists stem :: path == stem + ".db")
  }

  /** Those are the paths that the importer takes for databases. */
  lemma DatabasesByText(path: string)
    ensures IsDatabase(path) <==> BeginsAndEnds(path)
  {
    if IsDatabase(path) {
      assert path == "data/" + path[5..];
      assert path == path[..|path| - 3] + ".db";
    }
    if BeginsAndEnds(path) {
      var rest :| path == "data/" + rest;
      var stem :| path == stem + ".db";
      assert path[..5] == "data/" && path[|stem|..] == ".db";
    }
  }

  /** A safe path can be used exactly when its text is free of NUL. */
  lemma NameableByText(path: string)
    requires Sanitize(path).Some?
    ensures Nameable(path) <==> '\0' !in path
  {
    var parts := Split(path, '/');
    JoinSplit(path, '/');
    KeptHolds(parts, '\0');
    JoinHolds(parts, '/', '\0');
    assert Sanitize(path).value == Kept(parts);
  }

  lemma {:induction false} KeptHolds(parts: seq<string>, c: char)
    requires c != '.'
    ensures Free(Kept(parts), c) <==> Free(parts, c)
  {
    if parts != [] {
      KeptHolds(parts[1..], c);
      FreeCons(parts, c);
      if parts[0] == "" || parts[0] == "." {
        assert Kept(parts) == Kept(parts[1..]) && c !in parts[0];
      } else {
        assert Kept(parts) == [parts[0]] + Kept(parts[1..]);
        FreeAppend([parts[0]], Kept(parts[1..]), c);
        assert [parts[0]][0] == parts[0];
      }
    }
  }

  lemma FreeCons(parts: seq<string>, c: char)
    requires parts != []
    ensures Free(parts, c) <==> c !in parts[0] && Free(parts[1..], c)
  {
    assert parts == [parts[0]] + parts[1..];
  }

  lemma FreeAppend(a: seq<string>, b: seq<string>, c: char)
    ensures Free(a + b, c) <==> Free(a, c) && Free(b, c)
  {
    assert forall i :: 0 <= i < |a| ==> (a + b)[i] == a[i];
    assert forall i :: 0 <= i < |b| ==> (a + b)[|a| + i] == b[i];
  }

  lemma {:induction false} JoinHolds(parts: seq<string>, separator: char, c: char)
    requires c != separator
    ensures c in Join(parts, separator) <==> !Free(parts, c)
  {
    if |parts| > 1 {
      JoinHolds(parts[1..], separator, c);
      FreeCons(parts, c);
    }
  }

  /** A tree in which no file is named like a database is restored whatever SQLite would say. */
  lemma OrdinaryTreesRestore<S>(f: Format<S>, files: map<string, bytes>, order: seq<string>, m: Manifest)
    requires Faithful(f) && Collected(files, order) && IsTree(files)
    requires forall p :: p in files ==> p in order && PlainPath(p) && '\0' !in p && !BeginsAndEnds(p)
    requires m.version == CURRENT_VERSION && m.entries == ExportEntries(f, files, order)
    requires |f.encode(m)| <= MAX_MANIFEST_BYTES
    ensures Covered(m.entries, files)
    ensures Restores(f, Layout(f.encode(m), Payloads(m.entries, files)), _ => false)
  {
    forall p | p in files
      ensures Nameable(p) && PassesCheck(_ => false, p, files[p])
    {
      JoinSplit(p, '/');
      SanitizeKeepsNormal(Split(p, '/'));
      NameableByText(p);
      DatabasesByText(p);
    }
    TreesAreRestorable(f, files, order, m, _ => false);
  }

  /** And a file that is has to be sound. */
  lemma DatabasesMustBeSound<S>(f: Format<S>, files: map<string, bytes>, order: seq<string>, m: Manifest,
                                sound: bytes -> bool, p: string)
    requires Faithful(f) && Collected(files, order) && IsTree(files) && p in files && BeginsAndEnds(p)
    requires forall q :: q in files ==> q in order && PlainPath(q)
    requires m.version == CURRENT_VERSION && m.entries == ExportEntries(f, files, order)
    requires |f.encode(m)| <= MAX_MANIFEST_BYTES
    ensures Covered(m.entries, files)
    ensures Restores(f, Layout(f.encode(m), Payloads(m.entries, files)), sound) ==> sound(files[p])
  {
    TreesAreRestorable(f, files, order, m, sound);
    DatabasesByText(p);
    assert PassesCheck(sound, p, files[p]) ==> sound(files[p]);
  }

  // ---------------------------------------------------------------- archives that do not come back

  function TwoEntries<S>(f: Format<S>, one: string, first: bytes, two: string, second: bytes): seq<Entry>
    requires Storable(first) && Storable(second)
  {
    [Entry(one, |first|, HashText(f, first)), Entry(two, |second|, HashText(f, second))]
  }

  /** An archive of two files under different paths is accepted. */
  lemma TwoEntriesAccepted<S>(f: Format<S>, m: Manifest, one: string, first: bytes, two: string, second: bytes)
    requires Faithful(f) && one != two && Storable(first) && Storable(second)
    requires m.version == CURRENT_VERSION && m.entries == TwoEntries(f, one, first, two, second)
    requires |f.encode(m)| <= MAX_MANIFEST_BYTES
    ensures AllStorable([first, second]) && Parse(f, Layout(f.encode(m), [first, second])) == Ok((m, [first, second]))
  {
    LayoutParses(f, f.encode(m), m, [first, second]);
  }

  /**
   Two paths, one file: verification accepts the archive, it has a place for both unless a name holds
   NUL, and the second payload has replaced the first.
   */
  lemma TwoPathsOneFile<S>(f: Format<S>, m: Manifest, a: string, b: string, first: bytes, second: bytes)
    requires Faithful(f) && Normal(a) && Normal(b) && Storable(first) && Storable(second)
    requires m.version == CURRENT_VERSION && |f.encode(m)| <= MAX_MANIFEST_BYTES
    requires m.entries == TwoEntries(f, a + ['/'] + b, first, a + ['/'] + (['/'] + b), second)
    ensures AllStorable([first, second])
    ensures var raw := Layout(f.encode(m), [first, second]);
            && Parse(f, raw).Ok? && RestoredTree(f, raw) == map[a + ['/'] + b := second]
            && (Restorable(m.entries) <==> '\0' !in a && '\0' !in b)
  {
    var one, two := a + ['/'] + b, a + ['/'] + (['/'] + b);
    TwoEntriesAccepted(f, m, one, first, two, second);
    SanitizeKeepsNormal([a, b]);
    assert [a, b][1..] == [b] && Join([a, b], '/') == one;
    DoubledSlash(a, b);
    SecondReplacesFirst(one, first, two, second);
    TwoPlaces(m.entries, a, b);
    assert Named(m.entries, [first, second]) == [(one, first), (two, second)];
  }

  lemma TwoPlaces(entries: seq<Entry>, a: string, b: string)
    requires |entries| == 2 && forall i :: 0 <= i < 2 ==> Sanitize(entries[i].path) == Some([a, b])
    ensures Restorable(entries) <==> '\0' !in a && '\0' !in b
  {
    assert Nameable(entries[0].path) ==> '\0' !in Sanitize(entries[0].path).value[0];
    assert Nameable(entries[0].path) ==> '\0' !in Sanitize(entries[0].path).value[1];
  }

  lemma SecondReplacesFirst(one: string, first: bytes, two: string, second: bytes)
    requires Key(Restore, one) == one && Key(Restore, two) == one
    ensures Stored(Restore, [(one, first), (two, second)]) == map[one := second]
  {
    var front, both := [(one, first)], [(one, first), (two, second)];
    assert front[..0] == [] && Stored(Restore, front) == map[one := first];
    assert both[..1] == front;
  }

  function OneEntry<S>(f: Format<S>, path: string, data: bytes): seq<Entry>
    requires Storable(data)
  {
    [Entry(path, |data|, HashText(f, data))]
  }

  lemma OneEntryAccepted<S>(f: Format<S>, m: Manifest, path: string, data: bytes)
    requires Faithful(f) && Storable(data) && m.version == CURRENT_VERSION && m.entries == OneEntry(f, path, data)
    requires |f.encode(m)| <= MAX_MANIFEST_BYTES
    ensures AllStorable([data]) && Parse(f, Layout(f.encode(m), [data])) == Ok((m, [data]))
  {
    LayoutParses(f, f.encode(m), m, [data]);
  }

  /** A name with a NUL character: verification accepts the archive, its path is safe, and no import can restore it. */
  lemma NulInAName<S>(f: Format<S>, m: Manifest, a: string, b: string, data: bytes, sound: bytes -> bool)
    requires Faithful(f) && Storable(data) && m.version == CURRENT_VERSION && |f.encode(m)| <= MAX_MANIFEST_BYTES
    requires Normal(a + ['\0'] + b) && m.entries == OneEntry(f, a + ['\0'] + b, data)
    ensures AllStorable([data]) && Sanitize(a + ['\0'] + b).Some?
    ensures var raw := Layout(f.encode(m), [data]);
            Parse(f, raw).Ok? && !Restores(f, raw, sound)
  {
    var name := a + ['\0'] + b;
    OneEntryAccepted(f, m, name, data);
    SanitizeKeepsNormal([name]);
    assert Join([name], '/') == name;
    assert Sanitize(name).value[0] == name && name[|a|] == '\0';
  }

  /**
   Any bytes for a database: the exporter writes the archive, verification accepts it, and it can be
   restored exactly if SQLite takes these bytes for a database.
   */
  lemma BrokenDatabase<S>(f: Format<S>, m: Manifest, path: string, data: bytes, sound: bytes -> bool)
    requires Faithful(f) && Storable(data) && m.version == CURRENT_VERSION && |f.encode(m)| <= MAX_MANIFEST_BYTES
    requires Nameable(path) && IsDatabase(path) && m.entries == OneEntry(f, path, data)
    ensures Collected(map[path := data], [path]) && m.entries == ExportEntries(f, map[path := data], [path])
    ensures AllStorable([data])
    ensures var raw := Layout(f.encode(m), [data]);
            Parse(f, raw).Ok? && (Restores(f, raw, sound) <==> sound(data))
  {
    OneEntryAccepted(f, m, path, data);
  }

  /** `data/ghost.db` is the database that the exporter looks at; this one it does not. */
  const OTHER_DATABASE := "data/x.db"

  lemma OtherIsDatabase()
    ensures IsDatabase(OTHER_DATABASE)
  {
    assert OTHER_DATABASE[..5] == "data/" && OTHER_DATABASE[6..] == ".db";
  }

  lemma OtherIsNameable()
    ensures Nameable(OTHER_DATABASE)
  {
    var dir, name := "data", "x.db";
    TwoNames(dir, name);
    assert dir + ['/'] + name == OTHER_DATABASE;
  }

  lemma TwoNames(a: string, b: string)
    requires Normal(a) && Normal(b) && '\0' !in a && '\0' !in b
    ensures Nameable(a + ['/'] + b)
  {
    SanitizeKeepsNormal([a, b]);
    assert [a, b][1..] == [b] && Join([a, b], '/') == a + ['/'] + b;
  }

  /** One path leads through the other: verification accepts the archive, and no import can restore it. */
  lemma FileUnderAFile<S>(f: Format<S>, m: Manifest, a: string, b: string, first: bytes, second: bytes)
    requires Faithful(f) && Normal(a) && Normal(b) && Storable(first) && Storable(second)
    requires m.version == CURRENT_VERSION && |f.encode(m)| <= MAX_MANIFEST_BYTES
    requires m.entries == TwoEntries(f, a, first, a + ['/'] + b, second)
    ensures AllStorable([first, second])
    ensures Parse(f, Layout(f.encode(m), [first, second])).Ok? && !Restorable(m.entries)
    ensures Sanitize(a).Some? && Sanitize(a + ['/'] + b).Some?
  {
    SanitizeKeepsNormal([a]);
    SanitizeKeepsNormal([a, b]);
    assert [a, b][1..] == [b] && Join([a, b], '/') == a + ['/'] + b && Join([a], '/') == a;
    TwoEntriesAccepted(f, m, a, first, a + ['/'] + b, second);
    assert [a] < [a, b];
    assert Nested(PartsOf(m.entries[0].path), PartsOf(m.entries[1].path));
  }

  /** The same the other way round: the directory is there before the file. */
  lemma FileOverADirectory<S>(f: Format<S>, m: Manifest, a: string, b: string, first: bytes, second: bytes)
    requires Faithful(f) && Normal(a) && Normal(b) && Storable(first) && Storable(second)
    requires m.version == CURRENT_VERSION && |f.encode(m)| <= MAX_MANIFEST_BYTES
    requires m.entries == TwoEntries(f, a + ['/'] + b, first, a, second)
    ensures AllStorable([first, second])
    ensures Parse(f, Layout(f.encode(m), [first, second])).Ok? && !Restorable(m.entries)
  {
    SanitizeKeepsNormal([a]);
    SanitizeKeepsNormal([a, b]);
    assert [a, b][1..] == [b] && Join([a, b], '/') == a + ['/'] + b && Join([a], '/') == a;
    TwoEntriesAccepted(f, m, a + ['/'] + b, first, a, second);
    assert [a] < [a, b];
    assert Nested(PartsOf(m.entries[0].path), PartsOf(m.entries[1].path));
  }

  // ---------------------------------------------------------------- an export too large to import

  /** Numbered files in a directory. */
  function NumberedPaths(root: string, n: nat): (paths: seq<string>)
    ensures |paths| == n && forall i :: 0 <= i < n ==> paths[i] == root + Decimal(i)
  {
    if n == 0 then [] else NumberedPaths(root, n - 1) + [root + Decimal(n - 1)]
  }

  lemma NumberedPathsDiffer(root: string, n: nat)
    ensures var paths := NumberedPaths(root, n); forall i, j :: 0 <= i < j < n ==> paths[i] != paths[j]
  {
    var paths := NumberedPaths(root, n);
    forall i, j | 0 <= i < j < n
      ensures paths[i] != paths[j]
    {
      assert paths[i][|root|..] == Decimal(i) && paths[j][|root|..] == Decimal(j);
      if paths[i] == paths[j] {
        DecimalsDiffer(i, j);
      }
    }
  }

  function EmptyFiles(paths: seq<string>): (files: map<string, bytes>)
    ensures forall p :: p in files <==> p in paths
    ensures forall p :: p in files ==> files[p] == []
  {
    map p | p in paths :: []
  }

  function EmptyEntries<S>(f: Format<S>, paths: seq<string>): (entries: seq<Entry>)
    ensures |entries| == |paths| && forall i :: 0 <= i < |paths| ==> entries[i] == Entry(paths[i], 0, HashText(f, []))
  {
    if paths == [] then []
    else EmptyEntries(f, paths[..|paths| - 1]) + [Entry(paths[|paths| - 1], 0, HashText(f, []))]
  }

  /** They are what the exporter writes for these files. */
  lemma EmptyEntriesAreExported<S>(f: Format<S>, root: string, n: nat)
    ensures var order := NumberedPaths(root, n);
            && Collected(EmptyFiles(order), order)
            && EmptyEntries(f, order) == ExportEntries(f, EmptyFiles(order), order)
  {
    var order := NumberedPaths(root, n);
    NumberedPathsDiffer(root, n);
    assert forall i :: 0 <= i < |order| ==> order[i] in order;
  }

  /** An archive as the exporter writes it, that the importer refuses for its long manifest. */
  ghost predicate ExportedTooLarge<S>(f: Format<S>, m: Manifest, files: map<string, bytes>) {
    && Storable(f.encode(m)) && Covered(m.entries, files) && AllStorable(Payloads(m.entries, files))
    && Parse(f, Layout(f.encode(m), Payloads(m.entries, files))) == Err(ManifestTooLarge)
  }

  lemma MoreEntriesThanBytes<S>(f: Format<S>, files: map<string, bytes>, order: seq<string>, m: Manifest)
    requires Faithful(f) && Collected(files, order) && Storable(f.encode(m))
    requires m.version == CURRENT_VERSION && m.entries == ExportEntries(f, files, order)
    requires |f.encode(m)| >= |m.entries| && |order| > MAX_MANIFEST_BYTES
    ensures ExportedTooLarge(f, m, files)
  {
    ExportAccepted(f, files, order, m);
  }

  /**
   A directory of more than 8 Mi empty files can be exported and never imported, for every manifest
   text that spends at least a byte on each entry.
   */
  lemma TooManyFiles<S>(f: Format<S>, root: string, n: nat, createdAt: string, platform: string)
    requires Faithful(f)
    ensures var order := NumberedPaths(root, n);
            var m := Manifest(CURRENT_VERSION, createdAt, platform, EmptyEntries(f, order));
            MAX_MANIFEST_BYTES < n <= |f.encode(m)| < TWO_64 ==> ExportedTooLarge(f, m, EmptyFiles(order))
  {
    var order := NumberedPaths(root, n);
    var m := Manifest(CURRENT_VERSION, createdAt, platform, EmptyEntries(f, order));
    if MAX_MANIFEST_BYTES < n <= |f.encode(m)| < TWO_64 {
      EmptyEntriesAreExported(f, root, n);
      MoreEntriesThanBytes(f, EmptyFiles(order), order, m);
    }
  }

  // ---------------------------------------------------------------- path details

  lemma DoubledSlash(a: string, b: string)
    requires Normal(a) && Normal(b)
    ensures Sanitize(a + ['/'] + (['/'] + b)) == Some([a, b])
  {
    var path := a + ['/'] + (['/'] + b);
    SplitAt(a, ['/'] + b, '/');
    SplitPlain(b, '/');
    assert (['/'] + b)[1..] == b;
    assert Split(path, '/') == [a, "", b];
    KeptOfThree(a, b);
    assert path[0] == a[0];
  }

  lemma KeptOfThree(a: string, b: string)
    requires Normal(a) && Normal(b)
    ensures Kept([a, "", b]) == [a, b]
  {
    KeptAll([b]);
    assert ["", b][1..] == [b];
    assert Kept(["", b]) == [b];
    assert [a, "", b][1..] == ["", b];
  }
}
