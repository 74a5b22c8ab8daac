/**
 SQLite's `LIKE … ESCAPE '\'` and the escaping of a search text: the pattern built from a text
 matches exactly the texts that contain it, up to ASCII case.
 */
module Like {
  import opened Seqs

  const ESCAPE: char := '\\'
  const ANY_RUN: char := '%'
  const ANY_ONE: char := '_'

  predicate Special(c: char) {
    c == ESCAPE || c == ANY_RUN || c == ANY_ONE
  }

  /** LIKE folds ASCII letters only. */
  function Fold(c: char): char {
    if 'A' <= c <= 'Z' then (c as int + 32) as char else c
  }

  /** Does the text match the pattern?  A trailing escape character matches nothing. */
  predicate Matches(pattern: string, text: string)
    decreases |pattern|
  {
    if pattern == "" then text == ""
    else if pattern[0] == '%' then exists k :: 0 <= k <= |text| && Matches(pattern[1..], text[k..])
    else if pattern[0] == '_' then text != "" && Matches(pattern[1..], text[1..])
    else if pattern[0] == '\\' then
      |pattern| >= 2 && text != "" && Fold(pattern[1]) == Fold(text[0]) && Matches(pattern[2..], text[1..])
    else text != "" && Fold(pattern[0]) == Fold(text[0]) && Matches(pattern[1..], text[1..])
  }

  /** Characters are alike if they are the same, or the capital and the small form of an ASCII letter. */
  lemma FoldingMeaning(a: char, b: char)
    ensures Fold(a) == Fold(b) <==>
            || a == b
            || ('A' <= a <= 'Z' && b as int == a as int + 32)
            || ('A' <= b <= 'Z' && a as int == b as int + 32)
  {
  }

  /** Wildcards: a bare `%` matches everything, a bare `_` any one character, and an escaped one itself. */
  lemma Wildcards(text: string)
    ensures Matches("%", text)
    ensures Matches("_", text) <==> |text| == 1
    ensures (Matches("\\%", text) <==> text == "%") && (Matches("\\_", text) <==> text == "_")
  {
    assert Matches("%"[1..], text[|text|..]);
    assert |text| >= 1 ==> ("_"[1..] == "" && (text[1..] == "" <==> |text| == 1));
    assert "\\%"[2..] == "" && "\\_"[2..] == "";
    if |text| == 1 {
      assert text == [text[0]];
      FoldingMeaning('%', text[0]);
      FoldingMeaning('_', text[0]);
    }
  }

  /** Equal up to ASCII case. */
  predicate Alike(a: string, b: string) {
    |a| == |b| && forall i :: 0 <= i < |a| ==> Fold(a[i]) == Fold(b[i])
  }

  predicate OccursAt(text: string, search: string, k: nat) {
    k + |search| <= |text| && Alike(search, text[k..k + |search|])
  }

  predicate Contains(text: string, search: string) {
    exists k: nat :: k <= |text| && OccursAt(text, search, k)
  }

  // ---------------------------------------------------------------- escaping

  /** `str::replace` of one character. */
  function Replace(s: string, c: char, text: string): string {
    if s == "" then "" else (if s[0] == c then text else [s[0]]) + Replace(s[1..], c, text)
  }

  /** The three replacements of the source, in its order. */
  function EscapeLike(s: string): string {
    Replace(Replace(Replace(s, ESCAPE, [ESCAPE, ESCAPE]), ANY_RUN, [ESCAPE, ANY_RUN]), ANY_ONE, [ESCAPE, ANY_ONE])
  }

  function Quoted(s: string): string {
    if s == "" then "" else (if Special(s[0]) then [ESCAPE, s[0]] else [s[0]]) + Quoted(s[1..])
  }

  lemma {:induction false} ReplaceAppend(a: string, b: string, c: char, text: string)
    ensures Replace(a + b, c, text) == Replace(a, c, text) + Replace(b, c, text)
  {
    if a == "" {
      assert a + b == b;
    } else {
      ReplaceAppend(a[1..], b, c, text);
      assert (a + b)[1..] == a[1..] + b && (a + b)[0] == a[0];
      Associate(if a[0] == c then text else [a[0]], Replace(a[1..], c, text), Replace(b, c, text));
    }
  }

  lemma ReplaceOne(x: char, c: char, text: string)
    ensures Replace([x], c, text) == if x == c then text else [x]
  {
    assert [x][1..] == "";
  }

  lemma ReplaceTwo(x: char, y: char, c: char, text: string)
    requires x != c
    ensures Replace([x, y], c, text) == [x] + if y == c then text else [y]
  {
    assert [x, y][1..] == [y];
    ReplaceOne(y, c, text);
  }

  /** What the three replacements do to one character. */
  lemma EscapeOne(x: char)
    ensures EscapeLike([x]) == if Special(x) then [ESCAPE, x] else [x]
  {
    ReplaceOne(x, ESCAPE, [ESCAPE, ESCAPE]);
    if x == ESCAPE {
      ReplaceTwo(ESCAPE, ESCAPE, ANY_RUN, [ESCAPE, ANY_RUN]);
      ReplaceTwo(ESCAPE, ESCAPE, ANY_ONE, [ESCAPE, ANY_ONE]);
    } else {
      ReplaceOne(x, ANY_RUN, [ESCAPE, ANY_RUN]);
      ReplaceOne(x, ANY_ONE, [ESCAPE, ANY_ONE]);
      ReplaceTwo(ESCAPE, ANY_RUN, ANY_ONE, [ESCAPE, ANY_ONE]);
    }
  }

  lemma EscapeAppend(a: string, b: string)
    ensures EscapeLike(a + b) == EscapeLike(a) + EscapeLike(b)
  {
    var a1, b1 := Replace(a, ESCAPE, [ESCAPE, ESCAPE]), Replace(b, ESCAPE, [ESCAPE, ESCAPE]);
    ReplaceAppend(a, b, ESCAPE, [ESCAPE, ESCAPE]);
    ReplaceAppend(a1, b1, ANY_RUN, [ESCAPE, ANY_RUN]);
    ReplaceAppend(Replace(a1, ANY_RUN, [ESCAPE, ANY_RUN]), Replace(b1, ANY_RUN, [ESCAPE, ANY_RUN]),
                  ANY_ONE, [ESCAPE, ANY_ONE]);
  }

  /** Replacing three times is escaping each special character once. */
  lemma {:induction false} EscapeIsQuoting(s: string)
    ensures EscapeLike(s) == Quoted(s)
  {
    if s != "" {
      assert s == [s[0]] + s[1..];
      EscapeAppend([s[0]], s[1..]);
      EscapeOne(s[0]);
      EscapeIsQuoting(s[1..]);
    }
  }

  // ---------------------------------------------------------------- the pattern of a search text

  function SearchPattern(search: string): string {
    [ANY_RUN] + EscapeLike(search) + [ANY_RUN]
  }

  /** A quoted text in front of a pattern matches that text and nothing else. */
  lemma {:induction false} QuotedFirst(s: string, pattern: string, text: string)
    ensures Matches(Quoted(s) + pattern, text) <==>
            |s| <= |text| && Alike(s, text[..|s|]) && Matches(pattern, text[|s|..])
  {
    if s == "" {
      assert Quoted(s) + pattern == pattern;
    } else {
      var rest := Quoted(s[1..]) + pattern;
      QuotedHead(s, pattern, text);
      if text != "" {
        QuotedFirst(s[1..], pattern, text[1..]);
        AlikeHead(s, text);
      }
    }
  }

  lemma QuotedHead(s: string, pattern: string, text: string)
    requires s != ""
    ensures Matches(Quoted(s) + pattern, text) <==>
            text != "" && Fold(s[0]) == Fold(text[0]) && Matches(Quoted(s[1..]) + pattern, text[1..])
  {
    var whole, rest := Quoted(s) + pattern, Quoted(s[1..]) + pattern;
    var head := if Special(s[0]) then [ESCAPE, s[0]] else [s[0]];
    Associate(head, Quoted(s[1..]), pattern);
    Associate(head, rest, "");
  }

  lemma AlikeHead(s: string, text: string)
    requires s != "" && text != ""
    ensures |s| <= |text| <==> |s[1..]| <= |text[1..]|
    ensures |s| <= |text| ==>
              && text[1..][|s[1..]|..] == text[|s|..]
              && (Alike(s, text[..|s|]) <==> Fold(s[0]) == Fold(text[0]) && Alike(s[1..], text[1..][..|s[1..]|]))
  {
    if |s| <= |text| {
      var t := text[..|s|];
      assert text[1..][..|s[1..]|] == t[1..];
      assert forall i :: 1 <= i < |s| ==> s[i] == s[1..][i - 1] && t[i] == t[1..][i - 1];
      assert forall i :: 0 <= i < |s| - 1 ==> s[1..][i] == s[i + 1] && t[1..][i] == t[i + 1];
    }
  }

  lemma AnyRunMatchesAll(text: string)
    ensures Matches([ANY_RUN], text)
  {
    assert [ANY_RUN][1..] == "" && text[|text|..] == "";
    assert Matches("", text[|text|..]);
  }

  /** The search condition selects exactly the texts that contain the search text. */
  lemma SearchMeansContains(search: string, text: string)
    ensures Matches(SearchPattern(search), text) <==> Contains(text, search)
  {
    EscapeIsQuoting(search);
    var pattern, inner := SearchPattern(search), Quoted(search) + [ANY_RUN];
    assert pattern[1..] == inner;
    forall k: nat | k <= |text|
      ensures Matches(inner, text[k..]) <==> OccursAt(text, search, k)
    {
      QuotedFirst(search, [ANY_RUN], text[k..]);
      if |search| <= |text[k..]| {
        assert text[k..][..|search|] == text[k..k + |search|];
        AnyRunMatchesAll(text[k..][|search|..]);
      }
    }
    if k: nat :| k <= |text| && OccursAt(text, search, k) {
      assert Matches(inner, text[k..]);
    }
  }

  // ---------------------------------------------------------------- the order of the replacements

  /** Escaping the escape character last. */
  function EscapeLate(s: string): string {
    Replace(Replace(Replace(s, ANY_RUN, [ESCAPE, ANY_RUN]), ANY_ONE, [ESCAPE, ANY_ONE]), ESCAPE, [ESCAPE, ESCAPE])
  }

  lemma EscapeLateAppend(a: string, b: string)
    ensures EscapeLate(a + b) == EscapeLate(a) + EscapeLate(b)
  {
    var a1, b1 := Replace(a, ANY_RUN, [ESCAPE, ANY_RUN]), Replace(b, ANY_RUN, [ESCAPE, ANY_RUN]);
    ReplaceAppend(a, b, ANY_RUN, [ESCAPE, ANY_RUN]);
    ReplaceAppend(a1, b1, ANY_ONE, [ESCAPE, ANY_ONE]);
    ReplaceAppend(Replace(a1, ANY_ONE, [ESCAPE, ANY_ONE]), Replace(b1, ANY_ONE, [ESCAPE, ANY_ONE]),
                  ESCAPE, [ESCAPE, ESCAPE]);
  }

  lemma EscapeLateOne(x: char)
    ensures |EscapeLate([x])| == if x == ANY_RUN || x == ANY_ONE then 3 else if x == ESCAPE then 2 else 1
    ensures x != ANY_RUN && x != ANY_ONE ==> EscapeLate([x]) == EscapeLike([x])
  {
    EscapeOne(x);
    ReplaceOne(x, ANY_RUN, [ESCAPE, ANY_RUN]);
    ReplaceOne(x, ANY_ONE, [ESCAPE, ANY_ONE]);
    ReplaceOne(x, ESCAPE, [ESCAPE, ESCAPE]);
    if x == ANY_RUN {
      ReplaceTwo(ESCAPE, ANY_RUN, ANY_ONE, [ESCAPE, ANY_ONE]);
    }
    if x == ANY_RUN || x == ANY_ONE {
      assert [ESCAPE, x] == [ESCAPE] + [x];
      ReplaceAppend([ESCAPE], [x], ESCAPE, [ESCAPE, ESCAPE]);
      ReplaceOne(ESCAPE, ESCAPE, [ESCAPE, ESCAPE]);
    }
  }

  /** The order matters: escaping the escape character last is right only for texts without wildcards. */
  lemma {:induction false} EscapeCharacterComesFirst(s: string)
    ensures |EscapeLate(s)| >= |EscapeLike(s)|
    ensures EscapeLate(s) == EscapeLike(s) <==> ANY_RUN !in s && ANY_ONE !in s
  {
    if s != "" {
      assert s == [s[0]] + s[1..];
      EscapeCharacterComesFirst(s[1..]);
      EscapeAppend([s[0]], s[1..]);
      EscapeLateAppend([s[0]], s[1..]);
      EscapeOne(s[0]);
      EscapeLateOne(s[0]);
      var head := EscapeLike([s[0]]);
      assert EscapeLike(s)[|head|..] == EscapeLike(s[1..]);
      if s[0] != ANY_RUN && s[0] != ANY_ONE {
        assert EscapeLate(s)[|head|..] == EscapeLate(s[1..]);
      }
    }
  }
}
