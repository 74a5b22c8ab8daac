/**
 Reassembling a streamed model answer: text deltas are concatenated, and the argument
 fragments of each tool call are gathered under the call's id.
 */
module StreamAssembly {
  import opened Wrappers
  import opened TurnTrace

  datatype Usage = Usage(promptTokens: nat, completionTokens: nat, totalTokens: nat)

  datatype Chunk =
    | TextDelta(text: string)
    | ToolCallStart(id: string, name: string)
    | ToolCallDelta(callId: string, fragment: string)

  /** A tool call under construction: its name and its argument text so far. */
  datatype Draft = Draft(name: string, arguments: string)

  function TextOf(chunks: seq<Chunk>): string {
    if chunks == [] then ""
    else
      var last := chunks[|chunks| - 1];
      TextOf(chunks[..|chunks| - 1]) + if last.TextDelta? then last.text else ""
  }

  /** The fragments addressed to `id`, in order. */
  function FragmentsFor(chunks: seq<Chunk>, id: string): string {
    if chunks == [] then ""
    else
      var last := chunks[|chunks| - 1];
      FragmentsFor(chunks[..|chunks| - 1], id) +
      if last.ToolCallDelta? && last.callId == id then last.fragment else ""
  }

  /** The draft of one call after some chunks; fragments before any start are dropped. */
  function DraftOf(chunks: seq<Chunk>, id: string): Option<Draft> {
    if chunks == [] then None
    else
      var before, last := DraftOf(chunks[..|chunks| - 1], id), chunks[|chunks| - 1];
      match last
      case ToolCallStart(started, name) => if started == id then Some(Draft(name, "")) else before
      case ToolCallDelta(to, fragment) =>
        if to == id && before.Some? then Some(before.value.(arguments := before.value.arguments + fragment))
        else before
      case TextDelta(_) => before
  }

  /** A call is what its latest start names it, with every fragment sent to it since. */
  lemma {:induction false} DraftMeaning(chunks: seq<Chunk>, id: string, i: nat)
    requires i < |chunks| && chunks[i].ToolCallStart? && chunks[i].id == id
    requires forall k :: i < k < |chunks| && chunks[k].ToolCallStart? ==> chunks[k].id != id
    ensures DraftOf(chunks, id) == Some(Draft(chunks[i].name, FragmentsFor(chunks[i + 1..], id)))
    decreases |chunks|
  {
    if i + 1 == |chunks| {
      assert chunks[i + 1..] == [];
    } else {
      var before, rest := chunks[..|chunks| - 1], chunks[i + 1..];
      DraftMeaning(before, id, i);
      assert rest[..|rest| - 1] == before[i + 1..] && rest[|rest| - 1] == chunks[|chunks| - 1];
      assert FragmentsFor(before[i + 1..], id) + "" == FragmentsFor(before[i + 1..], id);
    }
  }

  /** Without a start there is no call. */
  lemma {:induction false} NoStartNoDraft(chunks: seq<Chunk>, id: string)
    requires forall k :: 0 <= k < |chunks| && chunks[k].ToolCallStart? ==> chunks[k].id != id
    ensures DraftOf(chunks, id) == None
  {
    if chunks != [] {
      NoStartNoDraft(chunks[..|chunks| - 1], id);
    }
  }

  /** The drafts gathered in a map are those of the chunks read so far. */
  ghost predicate Gathered(drafts: map<string, Draft>, chunks: seq<Chunk>) {
    forall id :: DraftOf(chunks, id) == if id in drafts then Some(drafts[id]) else None
  }

  /** What the loop does with one chunk. */
  method Gather(drafts: map<string, Draft>, chunk: Chunk, ghost chunks: seq<Chunk>)
    returns (gathered: map<string, Draft>)
    requires Gathered(drafts, chunks)
    ensures Gathered(gathered, chunks + [chunk])
  {
    assert (chunks + [chunk])[..|chunks|] == chunks;
    gathered := drafts;
    match chunk
    case TextDelta(_) =>
    case ToolCallStart(id, name) => gathered := drafts[id := Draft(name, "")];
    case ToolCallDelta(id, fragment) =>
      if id in drafts {
        gathered := drafts[id := drafts[id].(arguments := drafts[id].arguments + fragment)];
      }
  }

  /** The calls are the drafts, each once, with their arguments read by `parse`. */
  ghost predicate Assembled(calls: seq<ToolCall>, drafts: map<string, Draft>, parse: string -> string) {
    && (forall i :: 0 <= i < |calls| ==>
                      && calls[i].id in drafts
                      && calls[i] == ToolCall(calls[i].id, drafts[calls[i].id].name, parse(drafts[calls[i].id].arguments)))
    && (forall i, j :: 0 <= i < j < |calls| ==> calls[i].id != calls[j].id)
    && (forall id :: id in drafts ==> exists i :: 0 <= i < |calls| && calls[i].id == id)
  }

  /** Some of the drafts have been turned into calls; these are left. */
  ghost predicate AssembledBut(calls: seq<ToolCall>, drafts: map<string, Draft>, parse: string -> string, left: set<string>) {
    && (forall i :: 0 <= i < |calls| ==>
                      && calls[i].id in drafts && calls[i].id !in left
                      && calls[i] == ToolCall(calls[i].id, drafts[calls[i].id].name, parse(drafts[calls[i].id].arguments)))
    && (forall i, j :: 0 <= i < j < |calls| ==> calls[i].id != calls[j].id)
    && (forall id :: id in drafts ==> id in left || exists i :: 0 <= i < |calls| && calls[i].id == id)
  }

  /** Turns the drafts into calls, in whatever order the map yields them. */
  method Assemble(drafts: map<string, Draft>, parse: string -> string) returns (calls: seq<ToolCall>)
    ensures Assembled(calls, drafts, parse)
  {
    calls := [];
    var ids := drafts.Keys;
    while ids != {}
      invariant ids <= drafts.Keys && AssembledBut(calls, drafts, parse, ids)
      decreases |ids|
    {
      var id :| id in ids;
      ghost var before := calls;
      calls := calls + [ToolCall(id, drafts[id].name, parse(drafts[id].arguments))];
      ids := ids - {id};
      assert calls[|before|].id == id && forall i :: 0 <= i < |before| ==> calls[i] == before[i];
    }
  }
}
