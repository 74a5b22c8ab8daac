/** Comma-separated filter values: split, trim, drop what is empty. */
module FilterValues {
  import opened Texts

  /** Unicode `White_Space`. */
  predicate IsSpace(c: char) {
    var n := c as int;
    || 0x9 <= n <= 0xD || n == 0x20 || n == 0x85 || n == 0xA0 || n == 0x1680 || 0x2000 <= n <= 0x200A
    || n == 0x2028 || n == 0x2029 || n == 0x202F || n == 0x205F || n == 0x3000
  }

  /** Tab to carriage return, space, and the spaces and separators of Unicode. */
  const SPACES: set<char> :=
    {'\t', '\n', '\U{B}', '\U{C}', '\r', ' ', '\U{85}', '\U{A0}', '\U{1680}', '\U{2000}', '\U{2001}', '\U{2002}',
     '\U{2003}', '\U{2004}', '\U{2005}', '\U{2006}', '\U{2007}', '\U{2008}', '\U{2009}', '\U{200A}', '\U{2028}',
     '\U{2029}', '\U{202F}', '\U{205F}', '\U{3000}'}

  lemma SpacesByName(c: char)
    ensures IsSpace(c) <==> c in SPACES
  {
  }

  predicate AllSpace(s: string) {
    forall i :: 0 <= i < |s| ==> IsSpace(s[i])
  }

  function TrimStart(s: string): string {
    if s != "" && IsSpace(s[0]) then TrimStart(s[1..]) else s
  }

  function TrimEnd(s: string): string {
    if s != "" && IsSpace(s[|s| - 1]) then TrimEnd(s[..|s| - 1]) else s
  }

  function Trim(s: string): string {
    TrimEnd(TrimStart(s))
  }

  /** No space at either end. */
  predicate Tight(s: string) {
    s != "" ==> !IsSpace(s[0]) && !IsSpace(s[|s| - 1])
  }

  /** Trims every part and keeps what is left of it. */
  function Cleaned(parts: seq<string>): seq<string> {
    if parts == [] then []
    else
      var value := Trim(parts[0]);
      (if value == "" then [] else [value]) + Cleaned(parts[1..])
  }

  /** `parse_filter_values`. */
  function Parse(raw: string): seq<string> {
    Cleaned(Split(raw, ','))
  }

  // ---------------------------------------------------------------- what trimming does

  lemma {:induction false} TrimStartPadded(left: string, v: string)
    requires AllSpace(left) && (v == "" || !IsSpace(v[0]))
    ensures TrimStart(left + v) == v
  {
    if left == "" {
      assert left + v == v;
    } else {
      assert (left + v)[1..] == left[1..] + v;
      TrimStartPadded(left[1..], v);
    }
  }

  lemma {:induction false} TrimEndPadded(v: string, right: string)
    requires AllSpace(right) && (v == "" || !IsSpace(v[|v| - 1]))
    ensures TrimEnd(v + right) == v
    decreases |right|
  {
    if right == "" {
      assert v + right == v;
    } else {
      assert (v + right)[..|v + right| - 1] == v + right[..|right| - 1];
      TrimEndPadded(v, right[..|right| - 1]);
    }
  }

  lemma TrimPadded(left: string, v: string, right: string)
    requires AllSpace(left) && AllSpace(right) && Tight(v)
    ensures Trim(left + v + right) == v
  {
    if v == "" {
      assert left + v + right == (left + right) + "";
      TrimStartPadded(left + right, "");
    } else {
      assert left + v + right == left + (v + right);
      TrimStartPadded(left, v + right);
      TrimEndPadded(v, right);
    }
  }

  /** Trimming gives back a tight middle part with only spaces around it. */
  lemma TrimSplits(s: string) returns (left: string, right: string)
    ensures s == left + Trim(s) + right && AllSpace(left) && AllSpace(right) && Tight(Trim(s))
  {
    left := TrimStartSplits(s);
    right := TrimEndSplits(TrimStart(s));
    if Trim(s) != "" {
      assert Trim(s)[0] == TrimStart(s)[0];
    }
  }

  lemma {:induction false} TrimStartSplits(s: string) returns (left: string)
    ensures s == left + TrimStart(s) && AllSpace(left) && (TrimStart(s) != "" ==> !IsSpace(TrimStart(s)[0]))
  {
    left := "";
    if s != "" && IsSpace(s[0]) {
      var more := TrimStartSplits(s[1..]);
      left := [s[0]] + more;
    }
  }

  lemma {:induction false} TrimEndSplits(s: string) returns (right: string)
    ensures s == TrimEnd(s) + right && AllSpace(right)
    ensures TrimEnd(s) != "" ==> !IsSpace(TrimEnd(s)[|TrimEnd(s)| - 1])
    decreases |s|
  {
    right := "";
    if s != "" && IsSpace(s[|s| - 1]) {
      var more := TrimEndSplits(s[..|s| - 1]);
      right := more + [s[|s| - 1]];
    }
  }

  // ---------------------------------------------------------------- what parsing does

  predicate Clean(v: string) {
    v != "" && Tight(v) && ',' !in v
  }

  /** Every parsed value is non-empty, tight and free of commas. */
  lemma ParsedAreClean(raw: string)
    ensures forall i :: 0 <= i < |Parse(raw)| ==> Clean(Parse(raw)[i])
  {
    JoinSplit(raw, ',');
    CleanedAreClean(Split(raw, ','));
  }

  lemma {:induction false} CleanedAreClean(parts: seq<string>)
    requires Free(parts, ',')
    ensures forall i :: 0 <= i < |Cleaned(parts)| ==> Clean(Cleaned(parts)[i])
  {
    if parts != [] {
      CleanedAreClean(parts[1..]);
      var left, right := TrimSplits(parts[0]);
      assert forall i :: 0 <= i < |Trim(parts[0])| ==> Trim(parts[0])[i] == parts[0][|left| + i];
    }
  }

  /** `parts` are the values, in order, padded with spaces and interspersed with blank parts. */
  ghost predicate Pads(parts: seq<string>, values: seq<string>) {
    if parts == [] then values == []
    else
      || (AllSpace(parts[0]) && Pads(parts[1..], values))
      || (values != [] && Surrounds(parts[0], values[0]) && Pads(parts[1..], values[1..]))
  }

  ghost predicate Surrounds(part: string, value: string) {
    exists left, right :: part == left + value + right && AllSpace(left) && AllSpace(right)
  }

  /** However a list of clean values is padded and joined, parsing finds exactly these values. */
  lemma ParseFindsValues(parts: seq<string>, values: seq<string>)
    requires parts != [] && Free(parts, ',') && Pads(parts, values)
    requires forall i :: 0 <= i < |values| ==> Clean(values[i])
    ensures Parse(Join(parts, ',')) == values
  {
    SplitJoin(parts, ',');
    CleanedFindsValues(parts, values);
  }

  lemma {:induction false} CleanedFindsValues(parts: seq<string>, values: seq<string>)
    requires Pads(parts, values) && forall i :: 0 <= i < |values| ==> Clean(values[i])
    ensures Cleaned(parts) == values
  {
    if parts != [] {
      if AllSpace(parts[0]) && Pads(parts[1..], values) {
        TrimPadded(parts[0], "", "");
        assert parts[0] + "" + "" == parts[0];
        CleanedFindsValues(parts[1..], values);
      } else {
        var left, right :| parts[0] == left + values[0] + right && AllSpace(left) && AllSpace(right);
        TrimPadded(left, values[0], right);
        CleanedFindsValues(parts[1..], values[1..]);
        assert values == [values[0]] + values[1..];
      }
    }
  }
}
