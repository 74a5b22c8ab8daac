/**
 CSV export of audit entries, and a reader of the format in section 2 of RFC 4180 with records
 ended by LF.  What is exported is read back, so the eight printed columns are never confused.
 */
module Csv {
  import opened Wrappers
  import opened Seqs

  datatype Entry = Entry(id: string, timestamp: string, agentId: string, eventType: string, severity: string,
                         toolName: Option<string>, details: string, sessionId: Option<string>,
                         actorId: Option<string>, operationId: Option<string>, requestId: Option<string>,
                         idempotencyKey: Option<string>, idempotencyStatus: Option<string>)

  /** The header line. */
  const NAMES: seq<string> :=
    ["id", "timestamp", "agent_id", "event_type", "severity", "tool_name", "details", "session_id"]

  function OrEmpty(s: Option<string>): string {
    if s.Some? then s.value else ""
  }

  /** The printed columns. */
  function Columns(e: Entry): seq<string> {
    [e.id, e.timestamp, e.agentId, e.eventType, e.severity, OrEmpty(e.toolName), e.details, OrEmpty(e.sessionId)]
  }

  /** The columns stand under their names. */
  lemma ColumnsUnderTheirNames(e: Entry)
    ensures |NAMES| == |Columns(e)| == 8
    ensures NAMES[0] == "id" && Columns(e)[0] == e.id
    ensures NAMES[1] == "timestamp" && Columns(e)[1] == e.timestamp
    ensures NAMES[2] == "agent_id" && Columns(e)[2] == e.agentId
    ensures NAMES[3] == "event_type" && Columns(e)[3] == e.eventType
    ensures NAMES[4] == "severity" && Columns(e)[4] == e.severity
    ensures NAMES[5] == "tool_name" && Columns(e)[5] == (match e.toolName case None => "" case Some(tool) => tool)
    ensures NAMES[6] == "details" && Columns(e)[6] == e.details
    ensures NAMES[7] == "session_id" && Columns(e)[7] == (match e.sessionId case None => "" case Some(id) => id)
  {
  }

  // ---------------------------------------------------------------- writing

  function Doubled(s: string): string {
    if s == "" then "" else (if s[0] == '"' then ['"', '"'] else [s[0]]) + Doubled(s[1..])
  }

  predicate NeedsQuotes(s: string) {
    ',' in s || '"' in s || '\n' in s
  }

  /** `csv_escape`. */
  function Escape(s: string): string {
    if NeedsQuotes(s) then ['"'] + Doubled(s) + ['"'] else s
  }

  /** Only a field with a comma, a quote or a line end is quoted. */
  lemma QuotedExactly(s: string)
    ensures if ',' in s || '"' in s || '\n' in s then Escape(s) != s && Escape(s)[0] == '"' else Escape(s) == s
  {
    if ',' in s || '"' in s || '\n' in s {
      DoubledIsLonger(s);
      assert |Escape(s)| > |s|;
    }
  }

  lemma {:induction false} DoubledIsLonger(s: string)
    ensures |Doubled(s)| >= |s|
  {
    if s != "" {
      DoubledIsLonger(s[1..]);
    }
  }

  function Line(fields: seq<string>): string
    requires fields != []
  {
    if |fields| == 1 then Escape(fields[0]) + ['\n']
    else Escape(fields[0]) + [','] + Line(fields[1..])
  }

  function Lines(entries: seq<Entry>): string {
    if entries == [] then "" else Line(Columns(entries[0])) + Lines(entries[1..])
  }

  function Document(entries: seq<Entry>): string {
    Line(NAMES) + Lines(entries)
  }

  lemma {:induction false} LinesAppend(a: seq<Entry>, e: Entry)
    ensures Lines(a + [e]) == Lines(a) + Line(Columns(e))
  {
    if a == [] {
      assert a + [e] == [e];
    } else {
      LinesAppend(a[1..], e);
      assert (a + [e])[1..] == a[1..] + [e];
      Associate(Line(Columns(a[0])), Lines(a[1..]), Line(Columns(e)));
    }
  }

  method ExportCsv(entries: seq<Entry>) returns (text: string)
    ensures text == Document(entries)
    ensures Read(text) == Some([NAMES] + Tables(entries))
  {
    text := WriteLines(Line(NAMES), entries);
    ReadsBack(entries);
  }

  method WriteLines(start: string, entries: seq<Entry>) returns (text: string)
    ensures text == start + Lines(entries)
  {
    text := start;
    for i := 0 to |entries|
      invariant text == start + Lines(entries[..i])
    {
      LinesAppend(entries[..i], entries[i]);
      assert entries[..i] + [entries[i]] == entries[..i + 1];
      Associate(start, Lines(entries[..i]), Line(Columns(entries[i])));
      text := text + Line(Columns(entries[i]));
    }
    assert entries[..|entries|] == entries;
  }

  // ---------------------------------------------------------------- reading

  /** Reads the rest of a quoted field, up to its closing quote. */
  function ReadQuoted(text: string): (r: Option<(string, string)>)
    ensures r.Some? ==> |r.value.1| < |text|
  {
    if text == "" then None
    else if text[0] != '"' then
      match ReadQuoted(text[1..])
      case None => None
      case Some((field, rest)) => Some(([text[0]] + field, rest))
    else if |text| >= 2 && text[1] == '"' then
      match ReadQuoted(text[2..])
      case None => None
      case Some((field, rest)) => Some((['"'] + field, rest))
    else Some(("", text[1..]))
  }

  /** Reads a field without quotes, up to a separator. */
  function ReadPlain(text: string): (r: (string, string))
    ensures |r.1| <= |text|
  {
    if text == "" || text[0] == ',' || text[0] == '\n' then ("", text)
    else
      var (field, rest) := ReadPlain(text[1..]);
      ([text[0]] + field, rest)
  }

  function ReadField(text: string): (r: Option<(string, string)>)
    ensures r.Some? ==> |r.value.1| <= |text|
  {
    if text != "" && text[0] == '"' then ReadQuoted(text[1..]) else Some(ReadPlain(text))
  }

  /** Fields separated by commas, up to the LF that ends the record. */
  function ReadRecord(text: string): (r: Option<(seq<string>, string)>)
    ensures r.Some? ==> |r.value.1| < |text|
    decreases |text|
  {
    match ReadField(text)
    case None => None
    case Some((field, rest)) =>
      if rest == "" then None
      else if rest[0] == '\n' then Some(([field], rest[1..]))
      else if rest[0] != ',' then None
      else
        match ReadRecord(rest[1..])
        case None => None
        case Some((fields, end)) => Some(([field] + fields, end))
  }

  function Read(text: string): Option<seq<seq<string>>>
    decreases |text|
  {
    if text == "" then Some([])
    else
      match ReadRecord(text)
      case None => None
      case Some((fields, rest)) =>
        match Read(rest)
        case None => None
        case Some(more) => Some([fields] + more)
  }

  // ---------------------------------------------------------------- reading what was written

  predicate StartsWithSeparator(s: string) {
    s != "" && (s[0] == ',' || s[0] == '\n')
  }

  lemma {:induction false} QuotedReadsBack(s: string, rest: string)
    requires StartsWithSeparator(rest)
    ensures ReadQuoted(Doubled(s) + (['"'] + rest)) == Some((s, rest))
  {
    var tail := ['"'] + rest;
    if s == "" {
      assert Doubled(s) + tail == tail;
      assert tail[1..] == rest;
    } else {
      QuotedReadsBack(s[1..], rest);
      var head := if s[0] == '"' then ['"', '"'] else [s[0]];
      Associate(head, Doubled(s[1..]), tail);
      Associate(head, Doubled(s[1..]) + tail, "");
      assert [s[0]] + s[1..] == s;
    }
  }

  lemma {:induction false} PlainReadsBack(s: string, rest: string)
    requires StartsWithSeparator(rest) && ',' !in s && '\n' !in s
    ensures ReadPlain(s + rest) == (s, rest)
  {
    if s == "" {
      assert s + rest == rest;
    } else {
      PlainReadsBack(s[1..], rest);
      assert (s + rest)[1..] == s[1..] + rest;
      assert [s[0]] + s[1..] == s;
    }
  }

  lemma FieldReadsBack(s: string, rest: string)
    requires StartsWithSeparator(rest)
    ensures ReadField(Escape(s) + rest) == Some((s, rest))
  {
    if NeedsQuotes(s) {
      QuotedReadsBack(s, rest);
      Associate(['"'] + Doubled(s), ['"'], rest);
      Associate(['"'], Doubled(s), ['"'] + rest);
      Associate(['"'], Doubled(s) + (['"'] + rest), "");
    } else {
      PlainReadsBack(s, rest);
      if s == "" {
        assert s + rest == rest;
      }
    }
  }

  lemma LastField(s: string, rest: string)
    ensures ReadRecord(Escape(s) + (['\n'] + rest)) == Some(([s], rest))
  {
    FieldReadsBack(s, ['\n'] + rest);
    Associate(['\n'], rest, "");
  }

  lemma NextField(s: string, more: string, fields: seq<string>, end: string)
    requires ReadRecord(more) == Some((fields, end))
    ensures ReadRecord(Escape(s) + ([','] + more)) == Some(([s] + fields, end))
  {
    FieldReadsBack(s, [','] + more);
    Associate([','], more, "");
  }

  lemma LineSplits(fields: seq<string>, rest: string)
    requires fields != []
    ensures Line(fields) + rest ==
            Escape(fields[0]) + if |fields| == 1 then ['\n'] + rest else [','] + (Line(fields[1..]) + rest)
  {
    var first := Escape(fields[0]);
    if |fields| == 1 {
      Associate(first, ['\n'], rest);
    } else {
      Associate(first + [','], Line(fields[1..]), rest);
      Associate(first, [','], Line(fields[1..]) + rest);
    }
  }

  lemma {:induction false} RecordReadsBack(fields: seq<string>, rest: string)
    requires fields != []
    ensures ReadRecord(Line(fields) + rest) == Some((fields, rest))
    decreases |fields|
  {
    LineSplits(fields, rest);
    if |fields| == 1 {
      LastField(fields[0], rest);
      assert [fields[0]] == fields;
    } else {
      RecordReadsBack(fields[1..], rest);
      NextField(fields[0], Line(fields[1..]) + rest, fields[1..], rest);
      assert [fields[0]] + fields[1..] == fields;
    }
  }

  function Tables(entries: seq<Entry>): seq<seq<string>> {
    if entries == [] then [] else [Columns(entries[0])] + Tables(entries[1..])
  }

  lemma {:induction false} RecordsReadBack(entries: seq<Entry>)
    ensures Read(Lines(entries)) == Some(Tables(entries))
  {
    if entries != [] {
      RecordReadsBack(Columns(entries[0]), Lines(entries[1..]));
      RecordsReadBack(entries[1..]);
    }
  }

  /** The exported document holds exactly the printed columns of the entries. */
  lemma ReadsBack(entries: seq<Entry>)
    ensures Read(Document(entries)) == Some([NAMES] + Tables(entries))
  {
    RecordReadsBack(NAMES, Lines(entries));
    RecordsReadBack(entries);
  }

  lemma {:induction false} TablesMeaning(entries: seq<Entry>)
    ensures |Tables(entries)| == |entries|
    ensures forall i :: 0 <= i < |entries| ==> Tables(entries)[i] == Columns(entries[i])
  {
    if entries != [] {
      TablesMeaning(entries[1..]);
    }
  }

  /** Entries print alike: as many of them, with the same eight columns each. */
  predicate PrintAlike(a: seq<Entry>, b: seq<Entry>) {
    |a| == |b| && forall i :: 0 <= i < |a| ==> Columns(a[i]) == Columns(b[i])
  }

  /** Two exports are the same text exactly when their entries print alike. */
  lemma SameDocumentSameColumns(a: seq<Entry>, b: seq<Entry>)
    ensures Document(a) == Document(b) <==> PrintAlike(a, b)
  {
    if Document(a) == Document(b) {
      ReadsBack(a);
      ReadsBack(b);
      assert ([NAMES] + Tables(a))[1..] == Tables(a) && ([NAMES] + Tables(b))[1..] == Tables(b);
      TablesMeaning(a);
      TablesMeaning(b);
    }
    if PrintAlike(a, b) {
      AlikeLines(a, b);
    }
  }

  lemma {:induction false} AlikeLines(a: seq<Entry>, b: seq<Entry>)
    requires PrintAlike(a, b)
    ensures Lines(a) == Lines(b)
  {
    if a != [] {
      AlikeLines(a[1..], b[1..]);
    }
  }
}
