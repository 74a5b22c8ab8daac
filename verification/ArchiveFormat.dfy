/**
 The `.ghost-backup` archive format: magic, manifest length, manifest JSON, then one
 length-prefixed payload per manifest entry.  The encoder, a whole-input decoder that serves as
 reference for the streaming one, and what accepted byte strings look like.
 */
module ArchiveFormat {
  import opened Wrappers
  import opened Blake3
  import opened Seqs

  // "GHOST-BACKUP-V2\0"
  const MAGIC: bytes := [71, 72, 79, 83, 84, 45, 66, 65, 67, 75, 85, 80, 45, 86, 50, 0]
  const MAX_MANIFEST_BYTES: nat := 8 * 1024 * 1024
  const CURRENT_VERSION: string := "2"
  const TWO_64: nat := 0x1_0000_0000_0000_0000

  type u64 = n: nat | n < TWO_64

  datatype Entry = Entry(path: string, size: u64, blake3Hash: string)

  datatype Manifest = Manifest(version: string, createdAt: string, platformVersion: string, entries: seq<Entry>)

  /** The parts the format does not define itself: manifest JSON and the hash. */
  datatype Format<!S> = Format(encode: Manifest -> bytes, decode: bytes -> Option<Manifest>,
                               hasher: Hasher<S>, hex: Digest -> string)

  ghost predicate Faithful<S>(f: Format<S>) {
    forall m :: f.decode(f.encode(m)) == Some(m)
  }

  function HashText<S>(f: Format<S>, data: bytes): string {
    f.hex(Hash(f.hasher, data))
  }

  datatype ArchiveError =
    | MissingData(path: string)
    | Truncated | UnsupportedArchive | ManifestTooLarge | ManifestUnreadable | VersionMismatch
    | DuplicateEntry(path: string) | SizeMismatch(path: string) | HashMismatch(path: string)
    | TrailingData
    | SinkFailed | InvalidRestoreTarget | IoFailed

  // ---------------------------------------------------------------- little-endian lengths

  function Pow256(k: nat): nat {
    if k == 0 then 1 else 256 * Pow256(k - 1)
  }

  function ToLe(n: nat, k: nat): (bs: bytes)
    ensures |bs| == k
    decreases k
  {
    if k == 0 then [] else [(n % 256) as byte] + ToLe(n / 256, k - 1)
  }

  function FromLe(bs: bytes): nat {
    if bs == [] then 0 else bs[0] as nat + 256 * FromLe(bs[1..])
  }

  lemma {:induction false} LeRoundTrip(n: nat, k: nat)
    requires n < Pow256(k)
    ensures FromLe(ToLe(n, k)) == n
    decreases k
  {
    if k > 0 {
      LeRoundTrip(n / 256, k - 1);
      assert ToLe(n, k)[1..] == ToLe(n / 256, k - 1);
    }
  }

  lemma {:induction false} LeInverse(bs: bytes)
    ensures FromLe(bs) < Pow256(|bs|) && ToLe(FromLe(bs), |bs|) == bs
    decreases |bs|
  {
    if bs != [] {
      LeInverse(bs[1..]);
      LowestByte(bs[0], FromLe(bs[1..]));
      assert bs == [bs[0]] + bs[1..];
    }
  }

  lemma LowestByte(b: byte, rest: nat)
    ensures var n := b as nat + 256 * rest; n % 256 == b as nat && n / 256 == rest
  {
  }

  /** The eight bytes written for a length. */
  function Length(n: u64): (bs: bytes)
    ensures |bs| == 8
  {
    ToLe(n, 8)
  }

  lemma LengthReadBack(n: u64)
    ensures FromLe(Length(n)) == n
  {
    Pow256Of8();
    LeRoundTrip(n, 8);
  }

  lemma LengthOfRead(bs: bytes)
    requires |bs| == 8
    ensures FromLe(bs) < TWO_64 && Length(FromLe(bs)) == bs
  {
    Pow256Of8();
    LeInverse(bs);
  }

  lemma Pow256Of8()
    ensures Pow256(8) == TWO_64
  {
    assert Pow256(4) == 0x1_0000_0000;
    assert Pow256(8) == 256 * (256 * (256 * (256 * Pow256(4))));
  }

  // ---------------------------------------------------------------- encoding

  predicate Storable(data: bytes) {
    |data| < TWO_64
  }

  predicate AllStorable(payloads: seq<bytes>) {
    forall i :: 0 <= i < |payloads| ==> Storable(payloads[i])
  }

  /** Payloads as they stand in an archive. */
  function Frames(payloads: seq<bytes>): bytes
    requires AllStorable(payloads)
  {
    if payloads == [] then []
    else Length(|payloads[0]|) + payloads[0] + Frames(payloads[1..])
  }

  function Layout(json: bytes, payloads: seq<bytes>): bytes
    requires Storable(json) && AllStorable(payloads)
  {
    MAGIC + (Length(|json|) + json + Frames(payloads))
  }

  /** Sixteen bytes of text, the length of the manifest in eight, and the manifest. */
  lemma LayoutBegins(json: bytes, payloads: seq<bytes>)
    requires Storable(json) && AllStorable(payloads)
    ensures var raw, text := Layout(json, payloads), "GHOST-BACKUP-V2\0";
            && |raw| >= 24 + |json| && raw[24..24 + |json|] == json
            && (forall i :: 0 <= i < 16 ==> raw[i] as int == text[i] as int)
            && FromLe(raw[16..24]) == |json|
  {
    LengthReadBack(|json|);
    MagicIsText();
    Slices(MAGIC, Length(|json|), json, Frames(payloads));
  }

  lemma MagicIsText()
    ensures |MAGIC| == 16 && forall i :: 0 <= i < 16 ==> MAGIC[i] as int == "GHOST-BACKUP-V2\0"[i] as int
  {
  }

  lemma Slices(a: bytes, b: bytes, c: bytes, d: bytes)
    ensures var s := a + (b + c + d);
            && s[..|a|] == a && s[|a|..|a| + |b|] == b && s[|a| + |b|..|a| + |b| + |c|] == c
            && forall i :: 0 <= i < |a| ==> s[i] == a[i]
  {
  }

  lemma {:induction false} FramesAppend(payloads: seq<bytes>, data: bytes)
    requires AllStorable(payloads) && Storable(data)
    ensures Frames(payloads + [data]) == Frames(payloads) + (Length(|data|) + data)
  {
    if payloads == [] {
      assert payloads + [data] == [data] && [data][1..] == [];
      assert Frames([data]) == Length(|data|) + data + [];
    } else {
      FramesAppend(payloads[1..], data);
      assert (payloads + [data])[1..] == payloads[1..] + [data];
      Associate(Length(|payloads[0]|) + payloads[0], Frames(payloads[1..]), Length(|data|) + data);
    }
  }

  lemma FramesGrow(head: bytes, raw: bytes, payloads: seq<bytes>, data: bytes)
    requires AllStorable(payloads) && Storable(data) && raw == head + Frames(payloads)
    ensures raw + Length(|data|) + data == head + Frames(payloads + [data])
  {
    FramesAppend(payloads, data);
    AssociateFour(head, Frames(payloads), Length(|data|), data);
  }

  /** The payloads of the entries in order, if all are there. */
  predicate Covered(entries: seq<Entry>, files: map<string, bytes>) {
    forall i :: 0 <= i < |entries| ==> entries[i].path in files
  }

  function Payloads(entries: seq<Entry>, files: map<string, bytes>): (ps: seq<bytes>)
    requires Covered(entries, files)
    ensures |ps| == |entries| && forall i :: 0 <= i < |ps| ==> ps[i] == files[entries[i].path]
  {
    seq(|entries|, i requires 0 <= i < |entries| => files[entries[i].path])
  }

  /** `encode_archive`: it fails exactly when an entry has no data, and names the first. */
  method EncodeArchive<S>(f: Format<S>, m: Manifest, files: map<string, bytes>) returns (r: Result<bytes, ArchiveError>)
    requires Storable(f.encode(m)) && forall p :: p in files ==> Storable(files[p])
    ensures r.Ok? <==> Covered(m.entries, files)
    ensures r.Ok? ==> r.value == Layout(f.encode(m), Payloads(m.entries, files))
    ensures r.Err? ==> exists i :: 0 <= i < |m.entries| && FirstMissing(m.entries, files, i)
                                   && r.error == MissingData(m.entries[i].path)
  {
    var json := f.encode(m);
    var raw := MAGIC + Length(|json|) + json;
    r := AppendEntries(raw, m.entries, files);
    if r.Ok? {
      AssociateFour(MAGIC, Length(|json|), json, Frames(Payloads(m.entries, files)));
    }
  }

  /** This entry has no data, and all entries before it have. */
  predicate FirstMissing(entries: seq<Entry>, files: map<string, bytes>, i: nat)
    requires i < |entries|
  {
    entries[i].path !in files && forall k :: 0 <= k < i ==> entries[k].path in files
  }

  /** The loop of `encode_archive` over the entries. */
  method AppendEntries(head: bytes, entries: seq<Entry>, files: map<string, bytes>)
    returns (r: Result<bytes, ArchiveError>)
    requires forall p :: p in files ==> Storable(files[p])
    ensures r.Ok? <==> Covered(entries, files)
    ensures r.Ok? ==> r.value == head + Frames(Payloads(entries, files))
    ensures r.Err? ==> exists i :: 0 <= i < |entries| && FirstMissing(entries, files, i)
                                   && r.error == MissingData(entries[i].path)
  {
    var raw := head;
    ghost var written: seq<bytes> := [];
    for i := 0 to |entries|
      invariant |written| == i && Fetched(entries, files, written)
      invariant raw == head + Frames(written)
    {
      var path := entries[i].path;
      if path !in files {
        assert FirstMissing(entries, files, i);
        return Err(MissingData(path));
      }
      var data := files[path];
      FramesGrow(head, raw, written, data);
      FetchedStep(entries, files, written);
      written := written + [data];
      raw := raw + Length(|data|) + data;
    }
    FetchedAll(entries, files, written);
    r := Ok(raw);
  }

  /** The data of the first entries. */
  predicate Fetched(entries: seq<Entry>, files: map<string, bytes>, data: seq<bytes>) {
    && |data| <= |entries| && AllStorable(data)
    && forall k :: 0 <= k < |data| ==> entries[k].path in files && data[k] == files[entries[k].path]
  }

  lemma FetchedStep(entries: seq<Entry>, files: map<string, bytes>, data: seq<bytes>)
    requires Fetched(entries, files, data) && |data| < |entries|
    requires var p := entries[|data|].path; p in files && Storable(files[p])
    ensures Fetched(entries, files, data + [files[entries[|data|].path]])
  {
  }

  lemma FetchedAll(entries: seq<Entry>, files: map<string, bytes>, data: seq<bytes>)
    requires Fetched(entries, files, data) && |data| == |entries|
    ensures Covered(entries, files) && data == Payloads(entries, files)
  {
  }

  // ---------------------------------------------------------------- the reference decoder

  /** Reads the payload of one entry from the front of `rest`. */
  function ParseEntry<S>(f: Format<S>, e: Entry, seen: set<string>, rest: bytes): Result<(bytes, bytes), ArchiveError> {
    if e.path in seen then Err(DuplicateEntry(e.path))
    else if |rest| < 8 then Err(Truncated)
    else if FromLe(rest[..8]) != e.size then Err(SizeMismatch(e.path))
    else if |rest| < 8 + e.size then Err(Truncated)
    else
      var data := rest[8..8 + e.size];
      if HashText(f, data) != e.blake3Hash then Err(HashMismatch(e.path))
      else Ok((data, rest[8 + e.size..]))
  }

  function ParseEntries<S>(f: Format<S>, entries: seq<Entry>, seen: set<string>, rest: bytes)
    : Result<(seq<bytes>, bytes), ArchiveError>
    decreases |entries|
  {
    if entries == [] then Ok(([], rest))
    else
      match ParseEntry(f, entries[0], seen, rest)
      case Err(e) => Err(e)
      case Ok((data, tail)) =>
        match ParseEntries(f, entries[1..], seen + {entries[0].path}, tail)
        case Err(e) => Err(e)
        case Ok((more, end)) => Ok(([data] + more, end))
  }

  function ParseManifest<S>(f: Format<S>, raw: bytes): Result<(Manifest, bytes), ArchiveError> {
    if |raw| < |MAGIC| then Err(Truncated)
    else if raw[..|MAGIC|] != MAGIC then Err(UnsupportedArchive)
    else
      var rest := raw[|MAGIC|..];
      if |rest| < 8 then Err(Truncated)
      else
        var n := FromLe(rest[..8]);
        if n > MAX_MANIFEST_BYTES then Err(ManifestTooLarge)
        else if |rest| < 8 + n then Err(Truncated)
        else
          match f.decode(rest[8..8 + n])
          case None => Err(ManifestUnreadable)
          case Some(m) => if m.version != CURRENT_VERSION then Err(VersionMismatch) else Ok((m, rest[8 + n..]))
  }

  function Parse<S>(f: Format<S>, raw: bytes): Result<(Manifest, seq<bytes>), ArchiveError> {
    match ParseManifest(f, raw)
    case Err(e) => Err(e)
    case Ok((m, rest)) =>
      match ParseEntries(f, m.entries, {}, rest)
      case Err(e) => Err(e)
      case Ok((payloads, end)) => if end != [] then Err(TrailingData) else Ok((m, payloads))
  }

  // ---------------------------------------------------------------- what is accepted

  predicate DistinctPaths(entries: seq<Entry>) {
    forall i, j :: 0 <= i < j < |entries| ==> entries[i].path != entries[j].path
  }

  /** Sizes and hashes of the manifest are those of the payloads. */
  predicate Agree<S>(f: Format<S>, entries: seq<Entry>, payloads: seq<bytes>) {
    |entries| == |payloads| &&
    forall i :: 0 <= i < |entries| ==>
                  entries[i].size == |payloads[i]| && entries[i].blake3Hash == HashText(f, payloads[i])
  }

  predicate Unseen(entries: seq<Entry>, seen: set<string>) {
    forall i :: 0 <= i < |entries| ==> entries[i].path !in seen
  }

  lemma FrameSplit(data: bytes, tail: bytes)
    requires Storable(data)
    ensures var rest := Length(|data|) + data + tail;
            rest[..8] == Length(|data|) && rest[8..8 + |data|] == data && rest[8 + |data|..] == tail
  {
  }

  /** Framed payloads that agree with the manifest are read back, and only those. */
  lemma {:induction false} EntriesAccepted<S>(f: Format<S>, entries: seq<Entry>, seen: set<string>, payloads: seq<bytes>,
                                              tail: bytes)
    requires Agree(f, entries, payloads) && AllStorable(payloads)
    requires DistinctPaths(entries) && Unseen(entries, seen)
    ensures ParseEntries(f, entries, seen, Frames(payloads) + tail) == Ok((payloads, tail))
    decreases |entries|
  {
    if entries == [] {
      assert Frames(payloads) + tail == tail;
    } else {
      var data, more := payloads[0], Frames(payloads[1..]) + tail;
      Associate(Length(|data|) + data, Frames(payloads[1..]), tail);
      EntryAccepted(f, entries[0], seen, data, more);
      EntriesAccepted(f, entries[1..], seen + {entries[0].path}, payloads[1..], tail);
      assert payloads == [data] + payloads[1..];
    }
  }

  lemma EntryAccepted<S>(f: Format<S>, e: Entry, seen: set<string>, data: bytes, tail: bytes)
    requires Storable(data) && e.path !in seen && e.size == |data| && e.blake3Hash == HashText(f, data)
    ensures ParseEntry(f, e, seen, Length(|data|) + data + tail) == Ok((data, tail))
  {
    FrameSplit(data, tail);
    LengthReadBack(|data|);
  }

  lemma {:induction false} EntriesShape<S>(f: Format<S>, entries: seq<Entry>, seen: set<string>, rest: bytes)
    requires ParseEntries(f, entries, seen, rest).Ok?
    ensures var (payloads, end) := ParseEntries(f, entries, seen, rest).value;
            && Agree(f, entries, payloads) && AllStorable(payloads)
            && DistinctPaths(entries) && Unseen(entries, seen)
            && rest == Frames(payloads) + end
    decreases |entries|
  {
    if entries != [] {
      var e := entries[0];
      var (data, tail) := ParseEntry(f, e, seen, rest).value;
      EntriesShape(f, entries[1..], seen + {e.path}, tail);
      var (more, end) := ParseEntries(f, entries[1..], seen + {e.path}, tail).value;
      EntrySplit(f, e, seen, rest);
      ShapeCons(f, entries, data, more);
      assert ([data] + more)[1..] == more;
      Associate(Length(|data|) + data, Frames(more), end);
    }
  }

  lemma EntrySplit<S>(f: Format<S>, e: Entry, seen: set<string>, rest: bytes)
    requires ParseEntry(f, e, seen, rest).Ok?
    ensures var (data, tail) := ParseEntry(f, e, seen, rest).value;
            Storable(data) && e.size == |data| && rest == Length(|data|) + data + tail
  {
    LengthOfRead(rest[..8]);
    CutTwice(rest, 8, 8 + e.size);
  }

  lemma CutTwice(s: bytes, i: nat, j: nat)
    requires i <= j <= |s|
    ensures s == s[..i] + s[i..j] + s[j..]
  {
  }

  lemma ShapeCons<S>(f: Format<S>, entries: seq<Entry>, data: bytes, more: seq<bytes>)
    requires entries != [] && Agree(f, entries[1..], more) && DistinctPaths(entries[1..])
    requires Unseen(entries[1..], {entries[0].path})
    requires entries[0].size == |data| && entries[0].blake3Hash == HashText(f, data)
    ensures Agree(f, entries, [data] + more) && DistinctPaths(entries)
  {
    forall i, j | 0 <= i < j < |entries|
      ensures entries[i].path != entries[j].path
    {
      assert entries[1..][j - 1] == entries[j];
      if i > 0 {
        assert entries[1..][i - 1] == entries[i];
      }
    }
    forall i | 0 <= i < |entries|
      ensures entries[i].size == |([data] + more)[i]| && entries[i].blake3Hash == HashText(f, ([data] + more)[i])
    {
      if i > 0 {
        assert entries[1..][i - 1] == entries[i];
      }
    }
  }

  /** The one way an archive can be accepted as `m` with these payloads. */
  predicate WellFormed<S>(f: Format<S>, json: bytes, m: Manifest, payloads: seq<bytes>) {
    && |json| <= MAX_MANIFEST_BYTES && f.decode(json) == Some(m) && m.version == CURRENT_VERSION
    && DistinctPaths(m.entries) && Agree(f, m.entries, payloads) && AllStorable(payloads)
  }

  lemma LayoutParses<S>(f: Format<S>, json: bytes, m: Manifest, payloads: seq<bytes>)
    requires WellFormed(f, json, m, payloads)
    ensures Parse(f, Layout(json, payloads)) == Ok((m, payloads))
  {
    var raw := Layout(json, payloads);
    ManifestParses(f, json, Frames(payloads));
    EntriesAccepted(f, m.entries, {}, payloads, []);
    assert Frames(payloads) + [] == Frames(payloads);
  }

  lemma ManifestParses<S>(f: Format<S>, json: bytes, rest: bytes)
    requires Storable(json)
    ensures ParseManifest(f, MAGIC + (Length(|json|) + json + rest)) ==
            if |json| > MAX_MANIFEST_BYTES then Err(ManifestTooLarge)
            else match f.decode(json)
                 case None => Err(ManifestUnreadable)
                 case Some(m) => if m.version != CURRENT_VERSION then Err(VersionMismatch) else Ok((m, rest))
  {
    var tail := Length(|json|) + json + rest;
    var raw := MAGIC + tail;
    assert raw[..|MAGIC|] == MAGIC && raw[|MAGIC|..] == tail;
    FrameSplit(json, rest);
    LengthReadBack(|json|);
  }

  lemma ManifestShape<S>(f: Format<S>, raw: bytes) returns (json: bytes)
    requires ParseManifest(f, raw).Ok?
    ensures var (m, rest) := ParseManifest(f, raw).value;
            && |json| <= MAX_MANIFEST_BYTES && f.decode(json) == Some(m) && m.version == CURRENT_VERSION
            && raw == MAGIC + (Length(|json|) + json + rest)
  {
    var tail := raw[|MAGIC|..];
    var n := FromLe(tail[..8]);
    json := tail[8..8 + n];
    LengthOfRead(tail[..8]);
    CutTwice(tail, 8, 8 + n);
    assert raw == MAGIC + tail;
  }

  /** Accepted byte strings are exactly the well-formed layouts (with `LayoutParses`). */
  lemma ParseShape<S>(f: Format<S>, raw: bytes) returns (json: bytes)
    requires Parse(f, raw).Ok?
    ensures var (m, payloads) := Parse(f, raw).value;
            WellFormed(f, json, m, payloads) && raw == Layout(json, payloads)
  {
    json := ManifestShape(f, raw);
    var (m, rest) := ParseManifest(f, raw).value;
    EntriesShape(f, m.entries, {}, rest);
    var (payloads, end) := ParseEntries(f, m.entries, {}, rest).value;
    assert rest == Frames(payloads) + [] == Frames(payloads);
  }

  // ---------------------------------------------------------------- consequences

  lemma {:induction false} FramesSize<S>(f: Format<S>, entries: seq<Entry>, a: seq<bytes>, b: seq<bytes>)
    requires Agree(f, entries, a) && Agree(f, entries, b) && AllStorable(a) && AllStorable(b)
    ensures |Frames(a)| == |Frames(b)|
    decreases |entries|
  {
    if entries != [] {
      FramesSize(f, entries[1..], a[1..], b[1..]);
    }
  }

  /** No strict prefix and no strict extension of an accepted archive is accepted. */
  lemma AcceptedIsPrefixFree<S>(f: Format<S>, raw: bytes, longer: bytes)
    requires raw <= longer && Parse(f, raw).Ok? && Parse(f, longer).Ok?
    ensures raw == longer
  {
    var json := ParseShape(f, raw);
    var json' := ParseShape(f, longer);
    var (m, a) := Parse(f, raw).value;
    var (m', b) := Parse(f, longer).value;
    SameHeader(json, Frames(a), json', Frames(b), raw, longer);
    FramesSize(f, m.entries, a, b);
  }

  /** The length field decides where the manifest ends, so nested archives share their manifest. */
  lemma SameHeader(json: bytes, rest: bytes, json': bytes, rest': bytes, raw: bytes, longer: bytes)
    requires Storable(json) && Storable(json') && raw <= longer
    requires raw == MAGIC + (Length(|json|) + json + rest) && longer == MAGIC + (Length(|json'|) + json' + rest')
    ensures json == json'
  {
    var k := |MAGIC|;
    assert raw[k..k + 8] == Length(|json|) && longer[k..k + 8] == Length(|json'|);
    assert raw[k..k + 8] == longer[k..k + 8];
    LengthReadBack(|json|);
    LengthReadBack(|json'|);
    assert |json| == |json'|;
    assert raw[k + 8..k + 8 + |json|] == json && longer[k + 8..k + 8 + |json|] == json';
  }

  /** The manifest and the files fit together. */
  predicate Consistent<S>(f: Format<S>, m: Manifest, files: map<string, bytes>)
    requires Covered(m.entries, files)
  {
    m.version == CURRENT_VERSION && DistinctPaths(m.entries) && Agree(f, m.entries, Payloads(m.entries, files))
  }

  /**
   Decoding what was encoded gives the manifest and the payloads back exactly when the manifest
   text is within its limit and describes the files.
   */
  lemma RoundTrip<S>(f: Format<S>, m: Manifest, files: map<string, bytes>)
    requires Faithful(f) && Storable(f.encode(m)) && Covered(m.entries, files)
    requires forall p :: p in files ==> Storable(files[p])
    ensures var payloads := Payloads(m.entries, files);
            Parse(f, Layout(f.encode(m), payloads)) == Ok((m, payloads)) <==>
            |f.encode(m)| <= MAX_MANIFEST_BYTES && Consistent(f, m, files)
  {
    var json, payloads := f.encode(m), Payloads(m.entries, files);
    var raw := Layout(json, payloads);
    if |json| <= MAX_MANIFEST_BYTES && Consistent(f, m, files) {
      LayoutParses(f, json, m, payloads);
    }
    if Parse(f, raw) == Ok((m, payloads)) {
      var json' := ParseShape(f, raw);
      SameHeader(json, Frames(payloads), json', Frames(payloads), raw, raw);
    }
  }

  // ---------------------------------------------------------------- export

  predicate Collected(files: map<string, bytes>, order: seq<string>) {
    && (forall p :: p in files ==> Storable(files[p]))
    && (forall i :: 0 <= i < |order| ==> order[i] in files)
    && (forall i, j :: 0 <= i < j < |order| ==> order[i] != order[j])
  }

  /** One entry per collected file, in the order of the map. */
  function ExportEntries<S>(f: Format<S>, files: map<string, bytes>, order: seq<string>): (entries: seq<Entry>)
    requires Collected(files, order)
    ensures |entries| == |order|
    ensures forall i :: 0 <= i < |order| ==>
                          entries[i] == Entry(order[i], |files[order[i]]|, HashText(f, files[order[i]]))
    decreases |order|
  {
    if order == [] then []
    else
      var last := order[|order| - 1];
      ExportEntries(f, files, order[..|order| - 1]) + [Entry(last, |files[last]|, HashText(f, files[last]))]
  }

  lemma ExportConsistent<S>(f: Format<S>, files: map<string, bytes>, order: seq<string>)
    requires Collected(files, order)
    ensures var entries := ExportEntries(f, files, order);
            Covered(entries, files) && DistinctPaths(entries) && Agree(f, entries, Payloads(entries, files))
  {
  }

  /**
   What `export` writes is accepted exactly when its manifest stays within 8 MiB: the exporter does
   not check the limit that the importer enforces.
   */
  lemma ExportAccepted<S>(f: Format<S>, files: map<string, bytes>, order: seq<string>, m: Manifest)
    requires Faithful(f) && Collected(files, order) && Storable(f.encode(m))
    requires m.version == "2" && m.entries == ExportEntries(f, files, order)
    ensures Covered(m.entries, files)
    ensures var r := Parse(f, Layout(f.encode(m), Payloads(m.entries, files)));
            r == if |f.encode(m)| <= 8 * 1024 * 1024 then Ok((m, Payloads(m.entries, files)))
                 else Err(ManifestTooLarge)
  {
    ExportConsistent(f, files, order);
    var json, payloads := f.encode(m), Payloads(m.entries, files);
    if |json| <= MAX_MANIFEST_BYTES {
      LayoutParses(f, json, m, payloads);
    } else {
      ManifestParses(f, json, Frames(payloads));
    }
  }
}
