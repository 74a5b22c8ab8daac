/**
 The streaming archive reader: it pulls entries through a fixed-size buffer, hashes and hands on
 each chunk, and feeds one of three sinks.  It is proved to agree with the whole-input decoder of
 `ArchiveFormat` for every buffer size, and restoring is proved to be all or nothing.
 */
module ArchiveReader {
  import opened Wrappers
  import opened Texts
  import opened Seqs
  import opened Blake3
  import opened ArchiveFormat

  // ---------------------------------------------------------------- entry paths

  /** A path component that names something inside its directory. */
  predicate Normal(c: string) {
    c != "" && c != "." && c != ".." && '/' !in c
  }

  /** Drops the components that stand for nothing. */
  function Kept(parts: seq<string>): seq<string> {
    if parts == [] then []
    else (if parts[0] == "" || parts[0] == "." then [] else [parts[0]]) + Kept(parts[1..])
  }

  /** `sanitize_entry_path` on a Unix path. */
  function Sanitize(path: string): Option<seq<string>> {
    if path == "" || path[0] == '/' then None
    else
      var parts := Split(path, '/');
      if parts[0] == "." || ".." in Kept(parts) || Kept(parts) == [] then None
      else Some(Kept(parts))
  }

  /**
   A path is accepted exactly when it is not absolute, does not begin with a dot component, has no
   component that leads up, and names something; what is kept are the components that name something.
   */
  lemma AcceptedPaths(path: string)
    ensures Sanitize(path).Some? <==>
            var parts := Split(path, '/');
            && path != "" && path[0] != '/' && parts[0] != "." && ".." !in parts
            && exists i :: 0 <= i < |parts| && parts[i] != "" && parts[i] != "."
    ensures Sanitize(path).Some? ==>
              forall c :: c in Sanitize(path).value <==> c in Split(path, '/') && c != "" && c != "."
  {
    var parts := Split(path, '/');
    forall c
      ensures c in Kept(parts) <==> c in parts && c != "" && c != "."
    {
      KeptContains(parts, c);
    }
    if i :| 0 <= i < |parts| && parts[i] != "" && parts[i] != "." {
      assert parts[i] in Kept(parts);
    }
    if Kept(parts) != [] {
      assert Kept(parts)[0] in Kept(parts);
    }
  }

  lemma {:induction false} KeptContains(parts: seq<string>, c: string)
    ensures c in Kept(parts) <==> c in parts && c != "" && c != "."
  {
    if parts != [] {
      KeptContains(parts[1..], c);
      assert c in parts <==> c == parts[0] || c in parts[1..];
    }
  }

  /** A sanitized path cannot leave the directory it is resolved in. */
  lemma SanitizeIsNormal(path: string)
    requires Sanitize(path).Some?
    ensures forall i :: 0 <= i < |Sanitize(path).value| ==> Normal(Sanitize(path).value[i])
  {
    JoinSplit(path, '/');
    KeptIsNormal(Split(path, '/'));
  }

  lemma {:induction false} KeptIsNormal(parts: seq<string>)
    requires Free(parts, '/') && ".." !in Kept(parts)
    ensures forall i :: 0 <= i < |Kept(parts)| ==> Normal(Kept(parts)[i])
  {
    if parts != [] {
      KeptIsNormal(parts[1..]);
    }
  }

  /** A path made of normal components is kept as it is. */
  lemma SanitizeKeepsNormal(parts: seq<string>)
    requires parts != [] && forall i :: 0 <= i < |parts| ==> Normal(parts[i])
    ensures Sanitize(Join(parts, '/')) == Some(parts)
  {
    SplitJoin(parts, '/');
    KeptAll(parts);
    var path := Join(parts, '/');
    assert path[0] == parts[0][0];
  }

  lemma {:induction false} KeptAll(parts: seq<string>)
    requires forall i :: 0 <= i < |parts| ==> Normal(parts[i])
    ensures Kept(parts) == parts
  {
    if parts != [] {
      KeptAll(parts[1..]);
      assert [parts[0]] + parts[1..] == parts;
    }
  }

  // ---------------------------------------------------------------- sinks

  datatype SinkKind = Noop | Collect | Restore

  /** Where a sink puts an entry. */
  function Key(kind: SinkKind, path: string): string {
    if kind.Restore? && Sanitize(path).Some? then Join(Sanitize(path).value, '/') else path
  }

  /** Collecting keeps the names as they are. */
  lemma CollectedUnderItsName(path: string, data: bytes)
    ensures Stored(Collect, [(path, data)]) == map[path := data]
  {
    assert [(path, data)][..0] == [];
  }

  /** The files a sink holds after these entries; a later entry replaces an earlier one at the same place. */
  function Stored(kind: SinkKind, delivered: seq<(string, bytes)>): map<string, bytes> {
    if delivered == [] || kind.Noop? then map[]
    else
      var (path, data) := delivered[|delivered| - 1];
      Stored(kind, delivered[..|delivered| - 1])[Key(kind, path) := data]
  }

  /** One path leads through the other: it would have to be a file and a directory. */
  predicate Nested(a: seq<string>, b: seq<string>) {
    a < b || b < a
  }

  /** A file stands where a directory is needed, or a directory where the file is to be. */
  predicate Collides(files: map<string, bytes>, key: string) {
    exists k :: k in files && Nested(Split(k, '/'), Split(key, '/'))
  }

  /** The path is safe, and the file system takes its components: they hold no NUL character. */
  predicate Nameable(path: string) {
    Sanitize(path).Some? && forall i :: 0 <= i < |Sanitize(path).value| ==> '\0' !in Sanitize(path).value[i]
  }

  /** A file can be created under this path beside those delivered before. */
  ghost predicate HasPlace(delivered: seq<(string, bytes)>, path: string) {
    Nameable(path) && !Collides(Stored(Restore, delivered), Key(Restore, path))
  }

  /** Files under `data/` that end in `.db` are checked when they have been restored. */
  predicate IsDatabase(path: string) {
    |path| >= 5 && path[..5] == "data/" && path[|path| - 3..] == ".db"
  }

  /** `sound` says which bytes SQLite finds to be an intact database. */
  predicate PassesCheck(sound: bytes -> bool, path: string, data: bytes) {
    IsDatabase(path) ==> sound(data)
  }

  class Sink {
    const kind: SinkKind
    const healthy: bool  // the disk and the permissions are in order
    const sound: bytes -> bool
    var files: map<string, bytes>
    var key: string
    var open: bytes

    ghost var delivered: seq<(string, bytes)>
    ghost var base: map<string, bytes>  // the files when the current entry began

    /** Between two entries. */
    ghost predicate Settled()
      reads this
    {
      files == Stored(kind, delivered)
    }

    /** While the payload of an entry is coming in: restoring writes through, collecting does not. */
    ghost predicate Receiving()
      reads this
    {
      files == if kind.Restore? then base[key := open] else base
    }

    constructor (kind: SinkKind, healthy: bool, sound: bytes -> bool)
      ensures Settled() && delivered == []
      ensures this.kind == kind && this.healthy == healthy && this.sound == sound
    {
      this.healthy, this.sound := healthy, sound;
      this.kind, files, key, open, delivered, base := kind, map[], "", [], [], map[];
    }

    method BeginEntry(e: Entry) returns (ok: bool)
      requires Settled()
      modifies this
      ensures delivered == old(delivered)
      ensures !ok ==> kind.Restore? && (healthy ==> !HasPlace(delivered, e.path))
      ensures ok && kind.Restore? ==> HasPlace(delivered, e.path)
      ensures ok ==> Receiving() && open == [] && key == Key(kind, e.path) && base == Stored(kind, delivered)
    {
      key, open, base := Key(kind, e.path), [], files;
      ok := true;
      if kind.Restore? {
        ok := *;  // creating directories and the file may fail
        ok := (healthy || ok) && Nameable(e.path) && !Collides(files, key);
        if ok {
          files := files[key := []];
        }
      }
    }

    method WriteChunk(chunk: bytes) returns (ok: bool)
      requires Receiving()
      modifies this`open, this`files
      ensures !ok ==> kind.Restore? && !healthy
      ensures ok ==> Receiving() && open == old(open) + chunk
    {
      open := open + chunk;
      ok := true;
      if kind.Restore? {
        ok := *;
        ok := healthy || ok;
        files := files[key := open];
      }
    }

    method FinishEntry(e: Entry) returns (ok: bool)
      requires Receiving() && key == Key(kind, e.path) && base == Stored(kind, delivered)
      modifies this
      ensures !ok ==> kind.Restore? && (healthy ==> !PassesCheck(sound, e.path, old(open)))
      ensures ok && kind.Restore? ==> PassesCheck(sound, e.path, old(open))
      ensures ok ==> Settled() && delivered == old(delivered) + [(e.path, old(open))]
    {
      ok := true;
      if kind.Restore? {
        ok := *;  // flushing may fail
        ok := (healthy || ok) && PassesCheck(sound, e.path, open);
      }
      if kind.Collect? {
        files := files[key := open];
      }
      delivered := delivered + [(e.path, open)];
      assert delivered[..|delivered| - 1] == old(delivered);
    }
  }

  // ---------------------------------------------------------------- reading

  class Reader {
    var rest: bytes  // what has not been read yet

    constructor (data: bytes)
      ensures rest == data
    {
      rest := data;
    }

    method ReadExact(n: nat) returns (chunk: Option<bytes>)
      modifies this
      ensures chunk.Some? <==> n <= |old(rest)|
      ensures chunk.Some? ==> chunk.value == old(rest)[..n] && rest == old(rest)[n..]
    {
      if n > |rest| {
        return None;
      }
      chunk := Some(rest[..n]);
      rest := rest[n..];
    }
  }

  lemma SplitBack(got: bytes, rest: bytes)
    ensures (got + rest)[..|got|] == got && (got + rest)[|got|..] == rest
  {
  }

  /** One pass of the chunk loop: read, hash, hand on. */
  method ReadChunk<S(!new)>(f: Format<S>, reader: Reader, sink: Sink, state: S, n: nat, ghost got: bytes)
    returns (r: Result<S, ArchiveError>, ghost chunk: bytes)
    requires Incremental(f.hasher) && sink.Receiving() && sink.open == got
    requires state == Fed(f.hasher, got)
    modifies reader, sink`open, sink`files
    ensures r == Err(SinkFailed) ==> sink.kind.Restore? && !sink.healthy
    ensures r.Err? && r.error != SinkFailed ==> |old(reader.rest)| < n && r.error == Truncated
    ensures r.Ok? ==>
              && |chunk| == n && old(reader.rest) == chunk + reader.rest
              && sink.Receiving() && sink.open == got + chunk
              && r.value == Fed(f.hasher, got + chunk)
  {
    chunk := [];
    var read := reader.ReadExact(n);
    if read.None? {
      return Err(Truncated), chunk;
    }
    chunk := read.value;
    var next := Feed(f.hasher, state, read.value, got);
    var ok := sink.WriteChunk(read.value);
    r := if ok then Ok(next) else Err(SinkFailed);
  }

  /** The loop over the chunks of one payload. */
  method ReadPayload<S(!new)>(f: Format<S>, reader: Reader, sink: Sink, size: nat, buffer: nat)
    returns (r: Result<string, ArchiveError>)
    requires buffer > 0 && Incremental(f.hasher) && sink.Receiving() && sink.open == []
    modifies reader, sink`open, sink`files
    ensures r == Err(SinkFailed) ==> sink.kind.Restore? && !sink.healthy
    ensures r.Err? && r.error != SinkFailed ==> |old(reader.rest)| < size && r.error == Truncated
    ensures r.Ok? ==>
              && size <= |old(reader.rest)| && reader.rest == old(reader.rest)[size..]
              && r.value == HashText(f, old(reader.rest)[..size])
              && sink.Receiving() && sink.open == old(reader.rest)[..size]
  {
    var remaining: nat := size;
    var state := Begin(f.hasher);
    ghost var all := reader.rest;
    ghost var got: bytes := [];
    while remaining > 0
      invariant |got| + remaining == size && all == got + reader.rest
      invariant sink.Receiving() && sink.open == got
      invariant state == Fed(f.hasher, got)
    {
      var n := if remaining < buffer then remaining else buffer;
      var next;
      ghost var chunk;
      next, chunk := ReadChunk(f, reader, sink, state, n, got);
      if next.Err? {
        return Err(next.error);
      }
      Associate(got, chunk, reader.rest);
      got := got + chunk;
      state := next.value;
      remaining := remaining - n;
    }
    SplitBack(got, reader.rest);
    var digest := Digested(f.hasher, state, got);
    r := Ok(f.hex(digest));
  }

  lemma CutInside(s: bytes, i: nat, n: nat)
    requires i + n <= |s|
    ensures s[i..][..n] == s[i..i + n] && s[i..][n..] == s[i + n..]
  {
  }

  /** What is left of reading an entry once its length has been read. */
  function ParseBody<S>(f: Format<S>, e: Entry, rest: bytes): Result<(bytes, bytes), ArchiveError> {
    if |rest| < e.size then Err(Truncated)
    else if HashText(f, rest[..e.size]) != e.blake3Hash then Err(HashMismatch(e.path))
    else Ok((rest[..e.size], rest[e.size..]))
  }

  lemma BodyOf<S>(f: Format<S>, e: Entry, seen: set<string>, all: bytes)
    requires e.path !in seen && |all| >= 8 && FromLe(all[..8]) == e.size
    ensures ParseEntry(f, e, seen, all) == ParseBody(f, e, all[8..])
  {
    if |all| >= 8 + e.size {
      CutInside(all, 8, e.size);
    }
  }

  /** The payload is intact, and it is not the database that it should be. */
  predicate FailsCheck(sound: bytes -> bool, e: Entry, r: Result<(bytes, bytes), ArchiveError>) {
    r.Ok? && !PassesCheck(sound, e.path, r.value.0)
  }

  method ReadBody<S(!new)>(f: Format<S>, reader: Reader, sink: Sink, e: Entry, buffer: nat)
    returns (r: Option<ArchiveError>)
    requires buffer > 0 && Incremental(f.hasher) && sink.Settled()
    modifies reader, sink
    ensures r == Some(SinkFailed) ==>
              && sink.kind.Restore?
              && (sink.healthy ==>
                    !HasPlace(old(sink.delivered), e.path) || FailsCheck(sink.sound, e, ParseBody(f, e, old(reader.rest))))
    ensures r.Some? && r.value != SinkFailed ==> ParseBody(f, e, old(reader.rest)) == Err(r.value)
    ensures r.None? ==>
              && (sink.kind.Restore? ==>
                    && HasPlace(old(sink.delivered), e.path)
                    && !FailsCheck(sink.sound, e, ParseBody(f, e, old(reader.rest))))
              && ParseBody(f, e, old(reader.rest)).Ok?
              && (var (data, tail) := ParseBody(f, e, old(reader.rest)).value;
                  reader.rest == tail && sink.Settled() && sink.delivered == old(sink.delivered) + [(e.path, data)])
  {
    var ok := sink.BeginEntry(e);
    if !ok {
      return Some(SinkFailed);
    }
    var hash := ReadPayload(f, reader, sink, e.size, buffer);
    if hash.Err? {
      return Some(hash.error);
    }
    if hash.value != e.blake3Hash {
      return Some(HashMismatch(e.path));
    }
    ok := sink.FinishEntry(e);
    r := if ok then None else Some(SinkFailed);
  }

  /** One entry, read as `ParseEntry` reads it unless the sink fails. */
  method ReadEntry<S(!new)>(f: Format<S>, reader: Reader, sink: Sink, e: Entry, seen: set<string>, buffer: nat)
    returns (r: Option<ArchiveError>)
    requires buffer > 0 && Incremental(f.hasher) && sink.Settled()
    modifies reader, sink
    ensures r == Some(SinkFailed) ==>
              && sink.kind.Restore?
              && (sink.healthy ==>
                    || !HasPlace(old(sink.delivered), e.path)
                    || FailsCheck(sink.sound, e, ParseEntry(f, e, seen, old(reader.rest))))
    ensures r.Some? && r.value != SinkFailed ==> ParseEntry(f, e, seen, old(reader.rest)) == Err(r.value)
    ensures r.None? ==>
              && (sink.kind.Restore? ==>
                    && HasPlace(old(sink.delivered), e.path)
                    && !FailsCheck(sink.sound, e, ParseEntry(f, e, seen, old(reader.rest))))
              && ParseEntry(f, e, seen, old(reader.rest)).Ok?
              && (var (data, tail) := ParseEntry(f, e, seen, old(reader.rest)).value;
                  reader.rest == tail && sink.Settled() && sink.delivered == old(sink.delivered) + [(e.path, data)])
  {
    if e.path in seen {
      return Some(DuplicateEntry(e.path));
    }
    ghost var all := reader.rest;
    var length := reader.ReadExact(8);
    if length.None? {
      return Some(Truncated);
    }
    if FromLe(length.value) != e.size {
      return Some(SizeMismatch(e.path));
    }
    BodyOf(f, e, seen, all);
    r := ReadBody(f, reader, sink, e, buffer);
  }

  // ---------------------------------------------------------------- whole archives

  function PartsOf(path: string): seq<string> {
    if Sanitize(path).Some? then Sanitize(path).value else []
  }

  /** The first `n` entries all have a place: their paths can be used, and none leads through another. */
  predicate RestorableTo(entries: seq<Entry>, n: nat)
    requires n <= |entries|
  {
    && (forall i :: 0 <= i < n ==> Nameable(entries[i].path))
    && (forall i, j :: 0 <= i < j < n ==> !Nested(PartsOf(entries[i].path), PartsOf(entries[j].path)))
  }

  predicate Restorable(entries: seq<Entry>) {
    RestorableTo(entries, |entries|)
  }

  /** Every payload that should be a database is one. */
  predicate AllPass(sound: bytes -> bool, entries: seq<Entry>, payloads: seq<bytes>)
    requires |payloads| <= |entries|
  {
    forall i :: 0 <= i < |payloads| ==> PassesCheck(sound, entries[i].path, payloads[i])
  }

  /** The entries are intact, all have a place, and the databases among them are sound. */
  predicate EntriesRestore<S>(f: Format<S>, entries: seq<Entry>, rest: bytes, sound: bytes -> bool) {
    match ParseEntries(f, entries, {}, rest)
    case Err(_) => false
    case Ok((payloads, _)) => |payloads| == |entries| && Restorable(entries) && AllPass(sound, entries, payloads)
  }

  /** The archive is intact, and every one of its entries can be restored. */
  predicate Restores<S>(f: Format<S>, raw: bytes, sound: bytes -> bool) {
    match Parse(f, raw)
    case Err(_) => false
    case Ok((m, payloads)) =>
      |payloads| == |m.entries| && Restorable(m.entries) && AllPass(sound, m.entries, payloads)
  }

  lemma KeyParts(path: string)
    requires Sanitize(path).Some?
    ensures Split(Key(Restore, path), '/') == PartsOf(path)
  {
    SanitizeIsNormal(path);
    SplitJoin(PartsOf(path), '/');
  }

  /** The places a sink has given out are exactly those of the entries delivered. */
  lemma CollidesWithAnEntry(delivered: seq<(string, bytes)>, path: string)
    requires Sanitize(path).Some? && forall k :: 0 <= k < |delivered| ==> Sanitize(delivered[k].0).Some?
    ensures Collides(Stored(Restore, delivered), Key(Restore, path)) <==>
            exists k :: 0 <= k < |delivered| && Nested(PartsOf(delivered[k].0), PartsOf(path))
  {
    var files := Stored(Restore, delivered);
    KeyParts(path);
    if Collides(files, Key(Restore, path)) {
      var place :| place in files && Nested(Split(place, '/'), Split(Key(Restore, path), '/'));
      StoresOnlyEntries(Restore, delivered, place);
      var k :| 0 <= k < |delivered| && Key(Restore, delivered[k].0) == place;
      KeyParts(delivered[k].0);
    }
    if k :| 0 <= k < |delivered| && Nested(PartsOf(delivered[k].0), PartsOf(path)) {
      StoresEveryKey(Restore, delivered, k);
      KeyParts(delivered[k].0);
      assert Nested(Split(Key(Restore, delivered[k].0), '/'), Split(Key(Restore, path), '/'));
    }
  }

  /** Nothing else is stored. */
  lemma {:induction false} StoresOnlyEntries(kind: SinkKind, delivered: seq<(string, bytes)>, place: string)
    requires place in Stored(kind, delivered)
    ensures exists i :: 0 <= i < |delivered| && Key(kind, delivered[i].0) == place
    decreases |delivered|
  {
    var front := delivered[..|delivered| - 1];
    if Key(kind, delivered[|front|].0) != place {
      StoresOnlyEntries(kind, front, place);
      var i :| 0 <= i < |front| && Key(kind, front[i].0) == place;
      assert delivered[i] == front[i];
    }
  }

  lemma {:induction false} StoresEveryKey(kind: SinkKind, delivered: seq<(string, bytes)>, k: nat)
    requires !kind.Noop? && k < |delivered|
    ensures Key(kind, delivered[k].0) in Stored(kind, delivered)
    decreases |delivered|
  {
    if k < |delivered| - 1 {
      StoresEveryKey(kind, delivered[..|delivered| - 1], k);
    }
  }

  /** One more entry can be restored exactly when it has a place beside the others. */
  lemma OneMorePlace(entries: seq<Entry>, payloads: seq<bytes>)
    requires |payloads| < |entries| && RestorableTo(entries, |payloads|)
    ensures var n := |payloads|;
            RestorableTo(entries, n + 1) <==> HasPlace(Named(entries[..n], payloads), entries[n].path)
  {
    var n := |payloads|;
    var delivered, path := Named(entries[..n], payloads), entries[n].path;
    OneMoreEntry(entries, n);
    if Nameable(path) {
      forall k | 0 <= k < n
        ensures delivered[k].0 == entries[k].path && Sanitize(delivered[k].0).Some?
      {
        assert Nameable(entries[k].path);
      }
      CollidesWithAnEntry(delivered, path);
    }
  }

  lemma OneMoreEntry(entries: seq<Entry>, n: nat)
    requires n < |entries| && RestorableTo(entries, n)
    ensures RestorableTo(entries, n + 1) <==>
            && Nameable(entries[n].path)
            && forall k :: 0 <= k < n ==> !Nested(PartsOf(entries[k].path), PartsOf(entries[n].path))
  {
  }

  /** Entry paths with their payloads. */
  function Named(entries: seq<Entry>, payloads: seq<bytes>): (named: seq<(string, bytes)>)
    requires |entries| == |payloads|
    ensures |named| == |entries|
    ensures forall i :: 0 <= i < |named| ==> named[i] == (entries[i].path, payloads[i])
  {
    seq(|entries|, i requires 0 <= i < |entries| => (entries[i].path, payloads[i]))
  }

  /** What is delivered when a suffix of the entries is read. */
  ghost predicate Follows<S>(f: Format<S>, entries: seq<Entry>, seen: set<string>, rest: bytes,
                             delivered: seq<(string, bytes)>, end: bytes)
  {
    match ParseEntries(f, entries, seen, rest)
    case Err(_) => false
    case Ok((payloads, tail)) => |payloads| == |entries| && delivered == Named(entries, payloads) && tail == end
  }

  /** The loop over the entries, as a recursion on what is left of the manifest. */
  method ReadEntries<S(!new)>(f: Format<S>, reader: Reader, sink: Sink, entries: seq<Entry>, buffer: nat)
    returns (r: Option<ArchiveError>)
    requires buffer > 0 && Incremental(f.hasher) && sink.Settled() && sink.delivered == []
    modifies reader, sink
    ensures r == Some(SinkFailed) ==>
              sink.kind.Restore? && (sink.healthy ==> !EntriesRestore(f, entries, old(reader.rest), sink.sound))
    ensures r.Some? && r.value != SinkFailed ==> ParseEntries(f, entries, {}, old(reader.rest)) == Err(r.value)
    ensures r.None? ==>
              && Follows(f, entries, {}, old(reader.rest), sink.delivered, reader.rest)
              && sink.Settled()
              && (sink.kind.Restore? ==> EntriesRestore(f, entries, old(reader.rest), sink.sound))
  {
    var seen: set<string> := {};
    ghost var start := reader.rest;
    ghost var payloads: seq<bytes> := [];
    r := None;
    PrependNothing(ParseEntries(f, entries, {}, start));
    assert entries[0..] == entries;
    for i := 0 to |entries|
      invariant r.None? && |payloads| == i && Reached(f, entries, start, sink, payloads, seen, reader.rest)
    {
      ghost var data;
      r, data := ReadNext(f, reader, sink, entries, i, seen, buffer, start, payloads);
      if r.Some? {
        return;
      }
      payloads := payloads + [data];
      seen := seen + {entries[i].path};
    }
    assert entries[..|entries|] == entries;
    assert payloads + [] == payloads;
  }

  /** Some entries have been read and delivered; the rest decides the verdict. */
  ghost predicate Reached<S>(f: Format<S>, entries: seq<Entry>, start: bytes, sink: Sink, payloads: seq<bytes>,
                             seen: set<string>, rest: bytes)
    reads sink
  {
    && |payloads| <= |entries| && sink.Settled() && sink.delivered == Named(entries[..|payloads|], payloads)
    && ParseEntries(f, entries, {}, start) == Prepend(payloads, ParseEntries(f, entries[|payloads|..], seen, rest))
    && (sink.kind.Restore? ==> RestorableTo(entries, |payloads|) && AllPass(sink.sound, entries, payloads))
  }

  method ReadNext<S(!new)>(f: Format<S>, reader: Reader, sink: Sink, entries: seq<Entry>, i: nat, seen: set<string>,
                           buffer: nat, ghost start: bytes, ghost payloads: seq<bytes>)
    returns (r: Option<ArchiveError>, ghost data: bytes)
    requires buffer > 0 && Incremental(f.hasher) && i == |payloads| < |entries|
    requires Reached(f, entries, start, sink, payloads, seen, reader.rest)
    modifies reader, sink
    ensures r == Some(SinkFailed) ==>
              sink.kind.Restore? && (sink.healthy ==> !EntriesRestore(f, entries, start, sink.sound))
    ensures r.Some? && r.value != SinkFailed ==> ParseEntries(f, entries, {}, start) == Err(r.value)
    ensures r.None? ==> Reached(f, entries, start, sink, payloads + [data], seen + {entries[i].path}, reader.rest)
  {
    ghost var rest := reader.rest;
    if sink.kind.Restore? {
      OneMorePlace(entries, payloads);
    }
    r := ReadEntry(f, reader, sink, entries[i], seen, buffer);
    ParseEntriesStep(f, entries, i, seen, rest, payloads);
    data := [];
    if r.None? {
      data := ParseEntry(f, entries[i], seen, rest).value.0;
      NamedSnoc(entries, payloads, data);
    } else if FailsCheck(sink.sound, entries[i], ParseEntry(f, entries[i], seen, rest)) {
      OneFails(f, entries, start, payloads, ParseEntry(f, entries[i], seen, rest).value.0, sink.sound);
    }
  }

  /** A payload that is not sound stays so whatever comes behind it. */
  lemma OneFails<S>(f: Format<S>, entries: seq<Entry>, start: bytes, payloads: seq<bytes>, data: bytes,
                    sound: bytes -> bool)
    requires |payloads| < |entries| && !PassesCheck(sound, entries[|payloads|].path, data)
    requires match ParseEntries(f, entries, {}, start)
             case Err(_) => true
             case Ok((all, _)) => payloads + [data] <= all
    ensures !EntriesRestore(f, entries, start, sound)
  {
    if ParseEntries(f, entries, {}, start).Ok? {
      var (all, _) := ParseEntries(f, entries, {}, start).value;
      assert all[|payloads|] == data;
    }
  }

  function Prepend(front: seq<bytes>, r: Result<(seq<bytes>, bytes), ArchiveError>)
    : Result<(seq<bytes>, bytes), ArchiveError>
  {
    match r
    case Err(e) => Err(e)
    case Ok((more, end)) => Ok((front + more, end))
  }

  lemma PrependNothing(r: Result<(seq<bytes>, bytes), ArchiveError>)
    ensures Prepend([], r) == r
  {
    if r.Ok? {
      assert [] + r.value.0 == r.value.0;
    }
  }

  /** Reading the suffix from `i` is reading entry `i` and then the suffix from `i + 1`. */
  lemma ParseEntriesStep<S>(f: Format<S>, entries: seq<Entry>, i: nat, seen: set<string>, rest: bytes,
                            payloads: seq<bytes>)
    requires i < |entries|
    ensures Prepend(payloads, ParseEntries(f, entries[i..], seen, rest)) ==
            match ParseEntry(f, entries[i], seen, rest)
            case Err(e) => Err(e)
            case Ok((data, tail)) =>
              Prepend(payloads + [data], ParseEntries(f, entries[i + 1..], seen + {entries[i].path}, tail))
  {
    assert entries[i..][1..] == entries[i + 1..];
    match ParseEntry(f, entries[i], seen, rest)
    case Err(_) =>
    case Ok((data, tail)) =>
      match ParseEntries(f, entries[i + 1..], seen + {entries[i].path}, tail)
      case Err(_) =>
      case Ok((more, _)) => assert payloads + ([data] + more) == payloads + [data] + more;
  }

  lemma NamedSnoc(entries: seq<Entry>, payloads: seq<bytes>, data: bytes)
    requires |payloads| < |entries|
    ensures var n := |payloads|;
            Named(entries[..n + 1], payloads + [data]) == Named(entries[..n], payloads) + [(entries[n].path, data)]
  {
    var n := |payloads|;
    var longer := Named(entries[..n + 1], payloads + [data]);
    assert longer[..n] == Named(entries[..n], payloads) && longer[n] == (entries[n].path, data);
  }

  function Outcome(r: Result<(Manifest, seq<bytes>), ArchiveError>): Result<Manifest, ArchiveError> {
    match r
    case Err(e) => Err(e)
    case Ok((m, _)) => Ok(m)
  }

  /** Reads the header and the manifest. */
  method ReadManifest<S>(f: Format<S>, reader: Reader) returns (r: Result<Manifest, ArchiveError>)
    modifies reader
    ensures match ParseManifest(f, old(reader.rest))
            case Err(e) => r == Err(e)
            case Ok((m, rest)) => r == Ok(m) && reader.rest == rest
  {
    var magic := reader.ReadExact(|MAGIC|);
    if magic.None? {
      return Err(Truncated);
    }
    if magic.value != MAGIC {
      return Err(UnsupportedArchive);
    }
    ghost var tail := reader.rest;
    var length := reader.ReadExact(8);
    if length.None? {
      return Err(Truncated);
    }
    var n := FromLe(length.value);
    if n > MAX_MANIFEST_BYTES {
      return Err(ManifestTooLarge);
    }
    var json := reader.ReadExact(n);
    if json.None? {
      return Err(Truncated);
    }
    CutInside(tail, 8, n);
    match f.decode(json.value)
    case None => return Err(ManifestUnreadable);
    case Some(m) =>
      if m.version != CURRENT_VERSION {
        return Err(VersionMismatch);
      }
      r := Ok(m);
  }

  /**
   `process_archive_reader`: for every buffer size the verdict is that of the whole-input decoder,
   unless the sink fails, and on success the sink has received exactly the payloads.
   */
  method ProcessArchive<S(!new)>(f: Format<S>, reader: Reader, sink: Sink, buffer: nat)
    returns (r: Result<Manifest, ArchiveError>)
    requires buffer > 0 && Incremental(f.hasher) && sink.Settled() && sink.delivered == []
    modifies reader, sink
    ensures r == Err(SinkFailed) ==> sink.kind.Restore?
    ensures r == Err(SinkFailed) && sink.healthy ==>
              ParseManifest(f, old(reader.rest)).Ok? && !Restores(f, old(reader.rest), sink.sound)
    ensures r != Err(SinkFailed) ==> r == Outcome(Parse(f, old(reader.rest)))
    ensures r.Ok? ==>
              && Delivers(f, old(reader.rest), sink.delivered)
              && sink.files == Stored(sink.kind, sink.delivered)
              && (sink.kind.Restore? ==> Restores(f, old(reader.rest), sink.sound))
  {
    ghost var raw := reader.rest;
    r := ReadManifest(f, reader);
    if r.Err? {
      ParseHasNoSinkErrors(f, raw);
      return;
    }
    ghost var body := reader.rest;
    var failure := ReadEntries(f, reader, sink, r.value.entries, buffer);
    if failure.Some? {
      r := Err(failure.value);
      return;
    }
    if reader.rest != [] {
      r := Err(TrailingData);
    }
  }

  /** The decoder accepts these bytes, and this is what it finds. */
  ghost predicate Delivers<S>(f: Format<S>, raw: bytes, delivered: seq<(string, bytes)>) {
    match Parse(f, raw)
    case Err(_) => false
    case Ok((m, payloads)) => |payloads| == |m.entries| && delivered == Named(m.entries, payloads)
  }

  lemma ParseHasNoSinkErrors<S>(f: Format<S>, raw: bytes)
    ensures ParseManifest(f, raw) != Err(SinkFailed)
  {
  }

  /** `verify_archive`: the verdict of the whole-input decoder, once the envelope has been decrypted. */
  method VerifyArchive<S(!new)>(f: Format<S>, decrypted: Result<bytes, ArchiveError>, buffer: nat)
    returns (r: Result<Manifest, ArchiveError>)
    requires buffer > 0 && Incremental(f.hasher)
    ensures match decrypted
            case Err(e) => r == Err(e)
            case Ok(raw) => r == Outcome(Parse(f, raw))
  {
    if decrypted.Err? {
      return Err(decrypted.error);
    }
    var reader := new Reader(decrypted.value);
    var sink := new Sink(Noop, true, _ => true);
    r := ProcessArchive(f, reader, sink, buffer);
  }
}
