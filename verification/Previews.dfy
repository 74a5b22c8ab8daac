/**
 What a streaming turn shows of a tool's answer: the whole text, or its first 200 bytes.  Cutting a
 text inside a character panics, and the process with it.
 */
module Previews {
  import opened Wrappers
  import opened Blake3
  import opened TurnTrace
  import opened Utf8

  const PREVIEW_BYTES: nat := 200

  const ELLIPSIS: char := '\U{2026}'

  /** The text of an answer. */
  function ContentText(content: Content): string {
    match content
    case Text(text) => text
    case PlanDenied(reason) => "ERROR: Tool plan denied \U{2014} " + reason
    case DuplicateSuppressed(tool) =>
      "ERROR: Duplicate failing tool call suppressed \U{2014} '" + tool +
      "' with the same arguments already failed in this turn. Choose a different tool or change the arguments."
    case ToolError(error) => "ERROR: " + error
  }

  /** No text of exactly 200 bytes stands at the beginning of this longer one. */
  predicate CutsInside(text: string) {
    Size(text) > PREVIEW_BYTES && forall k :: 0 <= k <= |text| ==> Size(text[..k]) != PREVIEW_BYTES
  }

  predicate PreviewPanics(content: Content) {
    CutsInside(ContentText(content))
  }

  /** The preview of a text; without a value it panics. */
  method Preview(text: string) returns (shown: Option<bytes>)
    ensures shown.None? <==> CutsInside(text)
    ensures shown.Some? ==>
              shown.value == if Size(text) <= PREVIEW_BYTES then Bytes(text)
                             else Bytes(text)[..200] + Encode('\U{2026}')
  {
    BoundaryMeaning(text, PREVIEW_BYTES);
    if Size(text) <= PREVIEW_BYTES {
      return Some(Bytes(text));
    }
    FirstBoundary(text);
    var head := Slice(text, 0, PREVIEW_BYTES);
    shown := if head.Some? then Some(head.value + Encode(ELLIPSIS)) else None;
  }

  /** A text of 199 ASCII characters, then any wider one, then anything, cannot be shown. */
  lemma WideCharacterAtTheLimit(before: string, wide: char, after: string)
    requires Ascii(before) && |before| == 199 && wide as int >= 0x80
    ensures CutsInside(before + [wide] + after)
    ensures PreviewPanics(Text(before + [wide] + after))
  {
    var text := before + [wide] + after;
    AsciiBytes(before);
    BytesAppend(before, [wide]);
    BytesAppend(before + [wide], after);
    assert [wide][1..] == "" && Bytes([wide]) == Encode(wide);
    assert Bytes(text)[PREVIEW_BYTES] == Encode(wide)[1];
    assert Size(text) > PREVIEW_BYTES;
    BoundaryMeaning(text, PREVIEW_BYTES);
  }

  /** An error is shown behind seven characters, so 192 are enough there. */
  lemma WideCharacterInAnError(before: string, wide: char, after: string)
    requires Ascii(before) && |before| == 192 && wide as int >= 0x80
    ensures PreviewPanics(ToolError(before + [wide] + after))
  {
    var head := "ERROR: " + before;
    assert Ascii(head);
    WideCharacterAtTheLimit(head, wide, after);
    assert ContentText(ToolError(before + [wide] + after)) == head + [wide] + after;
  }

  /** ASCII text always can. */
  lemma AsciiIsShown(text: string)
    requires Ascii(text)
    ensures !CutsInside(text)
  {
    AsciiBytes(text);
    if |text| > PREVIEW_BYTES {
      AsciiBytes(text[..PREVIEW_BYTES]);
    }
  }
}
