/**
 Ordered chains of replacements - for GitHub workflow commands, for Markdown and
 for LIKE patterns - as one pass over the characters that can be undone.
 */
module Escaping {
  import opened Replacement

  // ---------------------------------------------------------------- reading codes back

  /** Reads code after code: `head` names the first character of a text and the length of its code. */
  function DecodeAll(s: string, head: string -> (char, nat)): string {
    if s == "" then ""
    else
      var (c, n) := head(s);
      if 0 < n <= |s| then [c] + DecodeAll(s[n..], head) else ""
  }

  /** `head` recognises every code of `f`, whatever follows. */
  ghost predicate Reads(head: string -> (char, nat), f: char -> string) {
    forall c, rest :: |f(c)| > 0 && head(f(c) + rest) == (c, |f(c)|)
  }

  lemma {:induction false} DecodingUndoesPass(s: string, f: char -> string, head: string -> (char, nat))
    requires Reads(head, f)
    ensures DecodeAll(MapChars(s, f), head) == s
  {
    if s != "" {
      var rest := MapChars(s[1..], f);
      DecodingUndoesPass(s[1..], f, head);
      assert head(f(s[0]) + rest) == (s[0], |f(s[0])|);
      assert (f(s[0]) + rest)[|f(s[0])|..] == rest;
    }
  }

  /** Characters that no code contains are not in the output. */
  lemma {:induction false} PassAvoids(s: string, f: char -> string, bad: char)
    requires forall c :: bad !in f(c)
    ensures bad !in MapChars(s, f)
  {
    if s != "" {
      PassAvoids(s[1..], f, bad);
    }
  }

  // ---------------------------------------------------------------- workflow commands

  function EscapeData(value: string): string {
    Replace(Replace(Replace(value, "%", "%25"), "\r", "%0D"), "\n", "%0A")
  }

  function EscapeProperty(value: string): string {
    Replace(Replace(EscapeData(value), ":", "%3A"), ",", "%2C")
  }

  function DataCode(): char -> string {
    (c: char) => if c == '%' then "%25" else if c == '\r' then "%0D" else if c == '\n' then "%0A" else [c]
  }

  function PropertyCode(): char -> string {
    (c: char) => if c == ':' then "%3A" else if c == ',' then "%2C" else DataCode()(c)
  }

  /** What a runner reads at the start of an escaped text. */
  function PercentHead(): string -> (char, nat) {
    (s: string) =>
      if |s| < 3 || s[0] != '%' then (if s == "" then (' ', 0) else (s[0], 1))
      else if s[1] == '2' && s[2] == '5' then ('%', 3)
      else if s[1] == '0' && s[2] == 'D' then ('\r', 3)
      else if s[1] == '0' && s[2] == 'A' then ('\n', 3)
      else if s[1] == '3' && s[2] == 'A' then (':', 3)
      else if s[1] == '2' && s[2] == 'C' then (',', 3)
      else (s[0], 1)
  }

  function PercentFirst(): char -> string {
    (c: char) => if c == '%' then "%25" else [c]
  }

  function PercentAndReturn(): char -> string {
    (c: char) => if c == '%' then "%25" else if c == '\r' then "%0D" else [c]
  }

  function DataAndColon(): char -> string {
    (c: char) => if c == ':' then "%3A" else DataCode()(c)
  }

  lemma MapOne(a: char, f: char -> string)
    ensures MapChars([a], f) == f(a)
  {
    assert [a][1..] == "";
  }

  lemma MapTwo(a: char, b: char, f: char -> string)
    ensures MapChars([a, b], f) == f(a) + f(b)
  {
    MapOne(b, f);
    assert [a, b][1..] == [b];
  }

  lemma MapThree(a: char, b: char, c: char, f: char -> string)
    ensures MapChars([a, b, c], f) == f(a) + f(b) + f(c)
  {
    MapTwo(b, c, f);
    assert [a, b, c][1..] == [b, c];
  }

  /** A code of at most three characters, none of which is replaced, stays. */
  lemma CodeStays(code: string, c: char, image: string)
    requires 0 < |code| <= 3 && c !in code
    ensures MapChars(code, ReplacesChar(c, image)) == code
  {
    if |code| == 1 {
      assert code == [code[0]];
      MapOne(code[0], ReplacesChar(c, image));
    } else if |code| == 2 {
      assert code == [code[0], code[1]];
      MapTwo(code[0], code[1], ReplacesChar(c, image));
    } else {
      assert code == [code[0], code[1], code[2]];
      MapThree(code[0], code[1], code[2], ReplacesChar(c, image));
    }
  }

  /** One more replacement: `c` was passed through so far, and no code contains it otherwise. */
  lemma Extends(f: char -> string, c: char, image: string, g: char -> string)
    requires f(c) == [c] && g(c) == image
    requires forall x :: x != c ==> 0 < |f(x)| <= 3 && c !in f(x) && g(x) == f(x)
    ensures forall x :: MapChars(f(x), ReplacesChar(c, image)) == g(x)
  {
    forall x
      ensures MapChars(f(x), ReplacesChar(c, image)) == g(x)
    {
      if x == c {
        MapOne(c, ReplacesChar(c, image));
      } else {
        CodeStays(f(x), c, image);
      }
    }
  }

  /** The chain of `escape_data` is one pass. */
  lemma EscapeDataIsOnePass(value: string)
    ensures EscapeData(value) == MapChars(value, DataCode())
  {
    hide Replace, MapChars;
    ReplaceCharIsOnePass(value, '%', "%25");
    SameOnCharacters(value, ReplacesChar('%', "%25"), PercentFirst());
    Extends(PercentFirst(), '\r', "%0D", PercentAndReturn());
    ReplaceAfterPass(value, PercentFirst(), '\r', "%0D", PercentAndReturn());
    Extends(PercentAndReturn(), '\n', "%0A", DataCode());
    ReplaceAfterPass(value, PercentAndReturn(), '\n', "%0A", DataCode());
  }

  /** So is the longer chain of `escape_property`. */
  lemma EscapePropertyIsOnePass(value: string)
    ensures EscapeProperty(value) == MapChars(value, PropertyCode())
  {
    hide Replace, MapChars, EscapeData;
    EscapeDataIsOnePass(value);
    Extends(DataCode(), ':', "%3A", DataAndColon());
    ReplaceAfterPass(value, DataCode(), ':', "%3A", DataAndColon());
    Extends(DataAndColon(), ',', "%2C", PropertyCode());
    ReplaceAfterPass(value, DataAndColon(), ',', "%2C", PropertyCode());
  }

  lemma PercentReads()
    ensures Reads(PercentHead(), DataCode()) && Reads(PercentHead(), PropertyCode())
  {
    forall c, rest
      ensures PercentHead()(PropertyCode()(c) + rest) == (c, |PropertyCode()(c)|)
      ensures PercentHead()(DataCode()(c) + rest) == (c, |DataCode()(c)|)
    {
      PercentReadsOne(c, rest);
    }
  }

  lemma PercentReadsOne(c: char, rest: string)
    ensures PercentHead()(PropertyCode()(c) + rest) == (c, |PropertyCode()(c)|)
    ensures PercentHead()(DataCode()(c) + rest) == (c, |DataCode()(c)|)
  {
    var data, property := DataCode()(c), PropertyCode()(c);
    assert (data + rest)[0] == data[0] && (property + rest)[0] == property[0];
    if |data| == 3 {
      assert (data + rest)[1] == data[1] && (data + rest)[2] == data[2];
    }
    if |property| == 3 {
      assert (property + rest)[1] == property[1] && (property + rest)[2] == property[2];
    }
  }

  /**
   Escaped data can be read back and holds no line break; an escaped property
   also holds no colon or comma, so it ends neither the property nor the command.
   */
  lemma WorkflowEscapesAreSafe(value: string)
    ensures DecodeAll(EscapeData(value), PercentHead()) == value
    ensures '\r' !in EscapeData(value) && '\n' !in EscapeData(value)
    ensures DecodeAll(EscapeProperty(value), PercentHead()) == value
    ensures forall c :: c in ['\r', '\n', ':', ','] ==> c !in EscapeProperty(value)
  {
    hide EscapeData, EscapeProperty, MapChars, DecodeAll, Reads;
    EscapeDataIsOnePass(value);
    EscapePropertyIsOnePass(value);
    PercentReads();
    DecodingUndoesPass(value, DataCode(), PercentHead());
    DecodingUndoesPass(value, PropertyCode(), PercentHead());
    PassAvoids(value, DataCode(), '\r');
    PassAvoids(value, DataCode(), '\n');
    PassAvoids(value, PropertyCode(), '\r');
    PassAvoids(value, PropertyCode(), '\n');
    PassAvoids(value, PropertyCode(), ':');
    PassAvoids(value, PropertyCode(), ',');
  }

  // ---------------------------------------------------------------- LIKE patterns

  /** `like_pattern` */
  function LikePattern(value: string): string {
    "%" + Replace(Replace(Replace(value, "\\", "\\\\"), "%", "\\%"), "_", "\\_") + "%"
  }

  /** SQL's `LIKE ... ESCAPE '\'`, letter case aside. */
  predicate Like(pattern: string, s: string)
    decreases |pattern| + |s|
  {
    if pattern == "" then s == ""
    else if pattern[0] == '\\' then |pattern| > 1 && s != "" && s[0] == pattern[1] && Like(pattern[2..], s[1..])
    else if pattern[0] == '%' then Like(pattern[1..], s) || (s != "" && Like(pattern, s[1..]))
    else s != "" && (pattern[0] == '_' || s[0] == pattern[0]) && Like(pattern[1..], s[1..])
  }

  function LikeCode(): char -> string {
    (c: char) => if c == '\\' then "\\\\" else if c == '%' then "\\%" else if c == '_' then "\\_" else [c]
  }

  function BackslashFirst(): char -> string {
    (c: char) => if c == '\\' then "\\\\" else [c]
  }

  function BackslashAndPercent(): char -> string {
    (c: char) => if c == '\\' then "\\\\" else if c == '%' then "\\%" else [c]
  }

  lemma LikePatternIsOnePass(value: string)
    ensures LikePattern(value) == "%" + MapChars(value, LikeCode()) + "%"
  {
    hide Replace, MapChars;
    ReplaceCharIsOnePass(value, '\\', "\\\\");
    SameOnCharacters(value, ReplacesChar('\\', "\\\\"), BackslashFirst());
    Extends(BackslashFirst(), '%', "\\%", BackslashAndPercent());
    ReplaceAfterPass(value, BackslashFirst(), '%', "\\%", BackslashAndPercent());
    Extends(BackslashAndPercent(), '_', "\\_", LikeCode());
    ReplaceAfterPass(value, BackslashAndPercent(), '_', "\\_", LikeCode());
  }

  /** An escaped character matches itself and nothing else. */
  lemma LikeOne(c: char, rest: string, s: string)
    ensures Like(LikeCode()(c) + rest, s) <==> s != "" && s[0] == c && Like(rest, s[1..])
  {
    var pattern := LikeCode()(c) + rest;
    if |LikeCode()(c)| == 2 {
      assert pattern[0] == '\\' && pattern[1] == c && pattern[2..] == rest;
    } else {
      assert pattern[0] == c && pattern[1..] == rest;
    }
  }

  lemma {:induction false} LikeLiteral(value: string, rest: string, s: string)
    ensures Like(MapChars(value, LikeCode()) + rest, s) <==> StartsWith(s, value) && Like(rest, s[|value|..])
  {
    if value == "" {
      assert MapChars(value, LikeCode()) + rest == rest;
    } else {
      var tail := MapChars(value[1..], LikeCode());
      assert MapChars(value, LikeCode()) + rest == LikeCode()(value[0]) + (tail + rest);
      LikeOne(value[0], tail + rest, s);
      if s != "" {
        LikeLiteral(value[1..], rest, s[1..]);
        assert StartsWith(s, value) <==> s[0] == value[0] && StartsWith(s[1..], value[1..]) by {
          StartsWithStep(s, value);
        }
        if |value| <= |s| {
          assert s[1..][|value| - 1..] == s[|value|..];
        }
      }
    }
  }

  lemma StartsWithStep(s: string, value: string)
    requires s != "" && value != ""
    ensures StartsWith(s, value) <==> s[0] == value[0] && StartsWith(s[1..], value[1..])
  {
    assert s == [s[0]] + s[1..] && value == [value[0]] + value[1..];
    if |value| <= |s| {
      assert s[..|value|] == [s[0]] + s[1..][..|value| - 1];
      assert s[..|value|][1..] == s[1..][..|value| - 1];
    }
  }

  lemma {:induction false} PercentMatchesAll(s: string)
    ensures Like("%", s)
  {
    if s != "" {
      PercentMatchesAll(s[1..]);
    } else {
      assert "%"[1..] == "";
    }
  }

  /** A leading `%` skips any number of characters. */
  lemma {:induction false} PercentSkips(pattern: string, s: string)
    ensures Like("%" + pattern, s) <==> exists k: nat :: k <= |s| && Like(pattern, s[k..])
    decreases |s|
  {
    assert ("%" + pattern)[1..] == pattern;
    assert s[0..] == s;
    if s != "" {
      PercentSkips(pattern, s[1..]);
      if exists k: nat :: k <= |s| - 1 && Like(pattern, s[1..][k..]) {
        var k: nat :| k <= |s| - 1 && Like(pattern, s[1..][k..]);
        assert s[1..][k..] == s[k + 1..];
      }
      if exists k: nat :: 0 < k <= |s| && Like(pattern, s[k..]) {
        var k: nat :| 0 < k <= |s| && Like(pattern, s[k..]);
        assert s[1..][k - 1..] == s[k..];
      }
    }
  }

  /** The pattern matches exactly the texts that contain the search text. */
  lemma LikeMatchesSubstrings(value: string, s: string)
    ensures Like(LikePattern(value), s) <==> Contains(s, value)
  {
    var literal := MapChars(value, LikeCode());
    LikePatternIsOnePass(value);
    assert "%" + literal + "%" == "%" + (literal + "%");
    PercentSkips(literal + "%", s);
    forall k: nat | k <= |s|
      ensures Like(literal + "%", s[k..]) <==> OccursAt(s, value, k)
    {
      LikeLiteral(value, "%", s[k..]);
      if |value| <= |s[k..]| {
        PercentMatchesAll(s[k..][|value|..]);
        assert s[k..][..|value|] == s[k..k + |value|];
      }
    }
    if Contains(s, value) {
      var k: nat :| OccursAt(s, value, k);
      assert Like(literal + "%", s[k..]);
    }
  }

  // ---------------------------------------------------------------- Markdown

  const SPECIALS := "\\`*_{}[]()#+-.!~"

  const ENTITIES: seq<(char, string)> := [('&', "&amp;"), ('<', "&lt;"), ('>', "&gt;"), ('|', "&#124;")]

  predicate IsSpecial(c: char, k: nat)
    requires k <= |SPECIALS|
  {
    c in SPECIALS[..k]
  }

  /** After the first `k` turns of the first loop. */
  function BackslashCode(k: nat): char -> string
    requires k <= |SPECIALS|
  {
    (c: char) => if IsSpecial(c, k) then ['\\', c] else [c]
  }

  /** After the first `k` turns of the second loop as well. */
  function MarkdownCode(k: nat): char -> string
    requires k <= 4
  {
    (c: char) =>
      if k > 0 && c == '&' then "&amp;"
      else if k > 1 && c == '<' then "&lt;"
      else if k > 2 && c == '>' then "&gt;"
      else if k > 3 && c == '|' then "&#124;"
      else BackslashCode(|SPECIALS|)(c)
  }

  lemma SpecialsAreDistinct()
    ensures |SPECIALS| == 16 && SPECIALS[0] == '\\'
    ensures forall i, j :: 0 <= i < j < 16 ==> SPECIALS[i] != SPECIALS[j]
    ensures forall i :: 0 <= i < 16 ==> SPECIALS[i] !in ['&', '<', '>', '|', 'a', 'm', 'p', 'l', 't', 'g', ';', '1', '2', '4']
  {
  }

  lemma NextSpecial(c: char, k: nat)
    requires k < |SPECIALS|
    ensures IsSpecial(c, k + 1) <==> IsSpecial(c, k) || c == SPECIALS[k]
  {
    assert SPECIALS[..k + 1] == SPECIALS[..k] + [SPECIALS[k]];
  }

  lemma BackslashTurn(k: nat, c: char)
    requires k < |SPECIALS|
    ensures MapChars(BackslashCode(k)(c), ReplacesChar(SPECIALS[k], ['\\', SPECIALS[k]])) == BackslashCode(k + 1)(c)
  {
    hide MapChars;
    var f := ReplacesChar(SPECIALS[k], ['\\', SPECIALS[k]]);
    SpecialsAreDistinct();
    NextSpecial(c, k);
    if IsSpecial(c, k) {
      var i :| 0 <= i < k && SPECIALS[..k][i] == c;
      assert SPECIALS[i] == c && k > 0;
      MapTwo('\\', c, f);
      assert f('\\') + f(c) == ['\\', c];
      assert BackslashCode(k)(c) == ['\\', c] == BackslashCode(k + 1)(c);
    } else {
      MapOne(c, f);
      assert BackslashCode(k)(c) == [c] && f(c) == BackslashCode(k + 1)(c);
    }
  }

  lemma EntityTurn(k: nat, c: char)
    requires k < 4
    ensures MapChars(MarkdownCode(k)(c), ReplacesChar(ENTITIES[k].0, ENTITIES[k].1)) == MarkdownCode(k + 1)(c)
  {
    hide MapChars;
    var code := MarkdownCode(k)(c);
    if c == ENTITIES[k].0 {
      NotSpecial(c);
      MapOne(c, ReplacesChar(ENTITIES[k].0, ENTITIES[k].1));
      assert BackslashCode(|SPECIALS|)(c) == [c];
      EntityAt(k);
    } else {
      EntityFree(k, c);
      EntityAt(k);
      StaysUnreplaced(code, ENTITIES[k].0, ENTITIES[k].1);
    }
  }

  lemma EntityAt(k: nat)
    requires k < 4
    ensures forall c :: c != ENTITIES[k].0 ==> MarkdownCode(k)(c) == MarkdownCode(k + 1)(c)
    ensures MarkdownCode(k)(ENTITIES[k].0) == BackslashCode(|SPECIALS|)(ENTITIES[k].0)
    ensures MarkdownCode(k + 1)(ENTITIES[k].0) == ENTITIES[k].1
  {
    hide BackslashCode;
    if k == 0 {
    } else if k == 1 {
    } else if k == 2 {
    } else {
      assert k == 3;
    }
  }

  lemma NotSpecial(c: char)
    requires c in ['&', '<', '>', '|']
    ensures !IsSpecial(c, |SPECIALS|)
  {
    SpecialsAreDistinct();
  }

  lemma EntityFree(k: nat, c: char)
    requires k < 4 && c != ENTITIES[k].0
    ensures ENTITIES[k].0 !in MarkdownCode(k)(c)
  {
    var code := BackslashCode(|SPECIALS|)(c);
    assert code == ['\\', c] || code == [c];
    if k == 0 {
    } else if k == 1 {
    } else if k == 2 {
    } else {
      assert k == 3;
    }
  }

  lemma {:induction false} StaysUnreplaced(code: string, c: char, image: string)
    requires c !in code
    ensures MapChars(code, ReplacesChar(c, image)) == code
  {
    if code != "" {
      assert forall x :: x in code[1..] ==> x in code;
      StaysUnreplaced(code[1..], c, image);
    }
  }

  lemma {:induction false} IdentityPass(text: string)
    ensures MapChars(text, BackslashCode(0)) == text
  {
    if text != "" {
      IdentityPass(text[1..]);
    }
  }

  /** `escape_markdown` on sanitized text: two loops that reassign `text`. */
  method EscapeMarkdown(value: string) returns (text: string)
    ensures text == MapChars(value, MarkdownCode(4))
  {
    text := value;
    IdentityPass(value);
    for k := 0 to |SPECIALS|
      invariant text == MapChars(value, BackslashCode(k))
    {
      forall c
        ensures MapChars(BackslashCode(k)(c), ReplacesChar(SPECIALS[k], ['\\', SPECIALS[k]])) == BackslashCode(k + 1)(c)
      {
        BackslashTurn(k, c);
      }
      ReplaceAfterPass(value, BackslashCode(k), SPECIALS[k], ['\\', SPECIALS[k]], BackslashCode(k + 1));
      text := Replace(text, [SPECIALS[k]], ['\\', SPECIALS[k]]);
    }
    SameOnCharacters(value, BackslashCode(|SPECIALS|), MarkdownCode(0));
    for k := 0 to |ENTITIES|
      invariant text == MapChars(value, MarkdownCode(k))
    {
      forall c
        ensures MapChars(MarkdownCode(k)(c), ReplacesChar(ENTITIES[k].0, ENTITIES[k].1)) == MarkdownCode(k + 1)(c)
      {
        EntityTurn(k, c);
      }
      ReplaceAfterPass(value, MarkdownCode(k), ENTITIES[k].0, ENTITIES[k].1, MarkdownCode(k + 1));
      text := Replace(text, [ENTITIES[k].0], ENTITIES[k].1);
    }
  }

  /** What a renderer reads at the start of an escaped text. */
  function MarkdownHead(): string -> (char, nat) {
    (s: string) =>
      if s == "" then (' ', 0)
      else if s[0] == '\\' && |s| > 1 then (s[1], 2)
      else if s[0] == '&' && |s| > 4 && s[1] == 'a' then ('&', 5)
      else if s[0] == '&' && |s| > 3 && s[1] == 'l' then ('<', 4)
      else if s[0] == '&' && |s| > 3 && s[1] == 'g' then ('>', 4)
      else if s[0] == '&' && |s| > 5 && s[1] == '#' then ('|', 6)
      else (s[0], 1)
  }

  lemma MarkdownShape(c: char)
    ensures MarkdownCode(4)(c) ==
            if c == '&' then "&amp;" else if c == '<' then "&lt;" else if c == '>' then "&gt;" else if c == '|' then "&#124;"
            else if IsSpecial(c, |SPECIALS|) then ['\\', c] else [c]
  {
    assert BackslashCode(|SPECIALS|)(c) == if IsSpecial(c, |SPECIALS|) then ['\\', c] else [c];
  }

  lemma MarkdownReadsOne(c: char, rest: string)
    ensures |MarkdownCode(4)(c)| > 0 && MarkdownHead()(MarkdownCode(4)(c) + rest) == (c, |MarkdownCode(4)(c)|)
  {
    hide MarkdownCode, IsSpecial;
    var code := MarkdownCode(4)(c);
    MarkdownShape(c);
    BackslashIsSpecial();
    assert (code + rest)[0] == code[0];
    if |code| > 1 {
      assert (code + rest)[1] == code[1];
    }
  }

  lemma BackslashIsSpecial()
    ensures IsSpecial('\\', |SPECIALS|)
  {
    SpecialsAreDistinct();
    assert SPECIALS[..|SPECIALS|][0] == '\\';
  }

  /** Escaped Markdown can be read back, and no raw `<`, `>` or `|` is left in it. */
  lemma MarkdownEscapeIsSafe(value: string)
    ensures DecodeAll(MapChars(value, MarkdownCode(4)), MarkdownHead()) == value
    ensures forall c :: c in ['<', '>', '|'] ==> c !in MapChars(value, MarkdownCode(4))
  {
    hide MarkdownCode, MarkdownHead, MapChars, DecodeAll, IsSpecial;
    forall c, rest
      ensures |MarkdownCode(4)(c)| > 0 && MarkdownHead()(MarkdownCode(4)(c) + rest) == (c, |MarkdownCode(4)(c)|)
    {
      MarkdownReadsOne(c, rest);
    }
    forall c
      ensures '<' !in MarkdownCode(4)(c) && '>' !in MarkdownCode(4)(c) && '|' !in MarkdownCode(4)(c)
    {
      MarkdownShape(c);
    }
    DecodingUndoesPass(value, MarkdownCode(4), MarkdownHead());
    PassAvoids(value, MarkdownCode(4), '<');
    PassAvoids(value, MarkdownCode(4), '>');
    PassAvoids(value, MarkdownCode(4), '|');
  }
}
