/** The managed block of a Git hook: a printer and a parser over lines, with a checksum. */
module HookBlock {
  import opened Wrappers
  import opened Replacement
  import opened HookText

  const BEGIN_MARKER := "# BEGIN COMMITGUARD"
  const END_MARKER := "# END COMMITGUARD"
  const SHEBANG := "#!/bin/sh"
  const CHECKSUM_PREFIX := "# commitguard-checksum: sha256:"
  const HOOK_PREFIX := "# commitguard-hook:"
  const FORMAT_LINE := "# commitguard-format: 1"
  const HOOK_VARIABLE := "commitguard_hook="
  const PYTHON_PREFIX := "commitguard_python="

  datatype HookType = PreCommit | CommitMsg | PrePush

  function NameOf(hook: HookType): string {
    match hook
    case PreCommit => "pre-commit"
    case CommitMsg => "commit-msg"
    case PrePush => "pre-push"
  }

  /** The fixed lines of a wrapper, and SHA-256 as an unknown function from text to hexadecimal digits. */
  datatype Wrapper = Wrapper(notice: seq<string>, script: HookType -> seq<string>, sha256: string -> string)

  predicate OneLine(line: string) {
    '\n' !in line && '\r' !in line
  }

  /** A line the parser has no special use for. */
  predicate PlainLine(line: string) {
    && OneLine(line) && line != BEGIN_MARKER && line != END_MARKER
    && !StartsWith(line, CHECKSUM_PREFIX) && !StartsWith(line, HOOK_PREFIX) && !StartsWith(line, PYTHON_PREFIX)
  }

  ghost predicate ValidWrapper(w: Wrapper) {
    && (forall i :: 0 <= i < |w.notice| ==> PlainLine(w.notice[i]))
    && (forall hook, i :: 0 <= i < |w.script(hook)| ==> PlainLine(w.script(hook)[i]))
    && (forall text :: OneLine(w.sha256(text)))
  }

  // ---------------------------------------------------------------- rendering

  predicate Acceptable(python: string) {
    '\n' !in python && '\r' !in python && 0 as char !in python
  }

  function Header(w: Wrapper, hook: HookType): seq<string> {
    w.notice + [HOOK_PREFIX + " " + NameOf(hook), FORMAT_LINE]
  }

  function Body(w: Wrapper, hook: HookType, python: string): seq<string> {
    [HOOK_VARIABLE + ShQuote(NameOf(hook)), PYTHON_PREFIX + ShQuote(python)] + w.script(hook)
  }

  function Checksum(w: Wrapper, lines: seq<string>): string {
    CHECKSUM_PREFIX + w.sha256(Join(lines))
  }

  function Inner(w: Wrapper, hook: HookType, python: string): seq<string> {
    var header, body := Header(w, hook), Body(w, hook, python);
    header + [Checksum(w, header + body)] + body
  }

  function BlockLines(w: Wrapper, hook: HookType, python: string): seq<string> {
    [BEGIN_MARKER] + Inner(w, hook, python) + [END_MARKER]
  }

  /** `render_block`, for an acceptable interpreter path. */
  function RenderBlock(w: Wrapper, hook: HookType, python: string): string {
    Join(BlockLines(w, hook, python)) + "\n"
  }

  function RenderHookFile(w: Wrapper, hook: HookType, python: string): string {
    SHEBANG + "\n" + RenderBlock(w, hook, python)
  }

  // ---------------------------------------------------------------- parsing

  datatype Block = Block(start: nat, end: nat, hook: Option<string>, python: Option<string>, intact: bool)

  datatype HookError = ControlCharacters | CorruptMarkers | CannotRead | CannotWrite | BothExist

  /** The indices of the lines that are `marker` up to trailing carriage returns. */
  function IndicesOf(lines: seq<string>, marker: string): (indices: seq<nat>)
    ensures forall k :: 0 <= k < |indices| ==> indices[k] < |lines|
  {
    if lines == [] then []
    else
      var rest := IndicesOf(lines[..|lines| - 1], marker);
      if TrimReturns(lines[|lines| - 1]) == marker then rest + [|lines| - 1] else rest
  }

  lemma {:induction false} IndicesAreExact(lines: seq<string>, marker: string)
    ensures forall i: nat :: i < |lines| ==> (i in IndicesOf(lines, marker) <==> TrimReturns(lines[i]) == marker)
  {
    hide TrimReturns;
    if lines != [] {
      var rest := lines[..|lines| - 1];
      IndicesAreExact(rest, marker);
      forall i: nat | i < |lines|
        ensures i in IndicesOf(lines, marker) <==> TrimReturns(lines[i]) == marker
      {
        assert i < |rest| ==> lines[i] == rest[i];
        assert i == |rest| ==> i !in IndicesOf(rest, marker);
      }
    }
  }

  function TrimAll(lines: seq<string>): (trimmed: seq<string>)
    ensures |trimmed| == |lines| && forall i :: 0 <= i < |lines| ==> trimmed[i] == TrimReturns(lines[i])
  {
    if lines == [] then [] else TrimAll(lines[..|lines| - 1]) + [TrimReturns(lines[|lines| - 1])]
  }

  function LinesWith(lines: seq<string>, prefix: string): seq<string> {
    if lines == [] then []
    else if StartsWith(lines[0], prefix) then [lines[0]] + LinesWith(lines[1..], prefix)
    else LinesWith(lines[1..], prefix)
  }

  function LinesWithout(lines: seq<string>, prefix: string): seq<string> {
    if lines == [] then []
    else if StartsWith(lines[0], prefix) then LinesWithout(lines[1..], prefix)
    else [lines[0]] + LinesWithout(lines[1..], prefix)
  }

  /** What follows `prefix` on the first line that starts with it. */
  function FirstAfter(lines: seq<string>, prefix: string): Option<string> {
    if lines == [] then None
    else if StartsWith(lines[0], prefix) then Some(lines[0][|prefix|..])
    else FirstAfter(lines[1..], prefix)
  }

  function ParseInner(w: Wrapper, start: nat, end: nat, inner: seq<string>): (block: Block)
    ensures block.start == start && block.end == end
  {
    var checksums, content := LinesWith(inner, CHECKSUM_PREFIX), LinesWithout(inner, CHECKSUM_PREFIX);
    var hook, python := FirstAfter(inner, HOOK_PREFIX), FirstAfter(inner, PYTHON_PREFIX);
    Block(start, end,
          if hook.Some? then Some(Strip(hook.value)) else None,
          if python.Some? then Unquote(python.value) else None,
          |checksums| == 1 && checksums[0] == Checksum(w, content))
  }

  function ParseLines(w: Wrapper, lines: seq<string>): (r: Result<Option<Block>, HookError>)
    ensures r.Ok? && r.value.Some? ==> r.value.value.start < r.value.value.end < |lines|
  {
    var begins, ends := IndicesOf(lines, BEGIN_MARKER), IndicesOf(lines, END_MARKER);
    if begins == [] && ends == [] then Ok(None)
    else if |begins| != 1 || |ends| != 1 || ends[0] < begins[0] then Err(CorruptMarkers)
    else
      MarkersDiffer();
      IndicesAreExact(lines, BEGIN_MARKER);
      IndicesAreExact(lines, END_MARKER);
      assert begins[0] in begins && ends[0] in ends;
      Ok(Some(ParseInner(w, begins[0], ends[0], TrimAll(lines[begins[0] + 1..ends[0]]))))
  }

  lemma MarkersDiffer()
    ensures BEGIN_MARKER != END_MARKER
  {
    assert BEGIN_MARKER[2] != END_MARKER[2];
  }

  /** `parse_managed_block` */
  function ParseManagedBlock(w: Wrapper, text: string): (r: Result<Option<Block>, HookError>)
    ensures r.Ok? && r.value.Some? ==> r.value.value.start < r.value.value.end < |Split(text)|
  {
    ParseLines(w, Split(text))
  }

  // ---------------------------------------------------------------- what the parser sees in a rendered block

  ghost predicate Unmarked(lines: seq<string>) {
    forall i :: 0 <= i < |lines| ==> TrimReturns(lines[i]) != BEGIN_MARKER && TrimReturns(lines[i]) != END_MARKER
  }

  lemma {:induction false} NoIndex(lines: seq<string>, marker: string)
    requires forall i :: 0 <= i < |lines| ==> TrimReturns(lines[i]) != marker
    ensures IndicesOf(lines, marker) == []
  {
    if lines != [] {
      NoIndex(lines[..|lines| - 1], marker);
    }
  }

  lemma {:induction false} OnlyIndex(lines: seq<string>, marker: string, k: nat)
    requires k < |lines| && TrimReturns(lines[k]) == marker
    requires forall i :: 0 <= i < |lines| && i != k ==> TrimReturns(lines[i]) != marker
    ensures IndicesOf(lines, marker) == [k]
  {
    if k == |lines| - 1 {
      NoIndex(lines[..k], marker);
    } else {
      OnlyIndex(lines[..|lines| - 1], marker, k);
    }
  }

  lemma {:induction false} PlainLinesDrop(a: seq<string>, b: seq<string>, prefix: string)
    requires forall i :: 0 <= i < |a| ==> !StartsWith(a[i], prefix)
    ensures LinesWith(a + b, prefix) == LinesWith(b, prefix)
    ensures LinesWithout(a + b, prefix) == a + LinesWithout(b, prefix)
    ensures FirstAfter(a + b, prefix) == FirstAfter(b, prefix)
  {
    hide StartsWith;
    if a == [] {
      assert a + b == b;
    } else {
      hide LinesWith, LinesWithout, FirstAfter;
      var first, rest := a[0], a[1..];
      assert a + b == [first] + (rest + b);
      PlainLineDrops(first, rest + b, prefix);
      PlainLinesDrop(rest, b, prefix);
      assert [first] + (rest + LinesWithout(b, prefix)) == a + LinesWithout(b, prefix);
    }
  }

  lemma PlainLineDrops(line: string, rest: seq<string>, prefix: string)
    requires !StartsWith(line, prefix)
    ensures LinesWith([line] + rest, prefix) == LinesWith(rest, prefix)
    ensures LinesWithout([line] + rest, prefix) == [line] + LinesWithout(rest, prefix)
    ensures FirstAfter([line] + rest, prefix) == FirstAfter(rest, prefix)
  {
    assert ([line] + rest)[1..] == rest;
  }

  /** A list with exactly one line that starts with `prefix`. */
  lemma OneLineWith(a: seq<string>, line: string, b: seq<string>, prefix: string)
    requires StartsWith(line, prefix)
    requires forall i :: 0 <= i < |a| ==> !StartsWith(a[i], prefix)
    requires forall i :: 0 <= i < |b| ==> !StartsWith(b[i], prefix)
    ensures LinesWith(a + [line] + b, prefix) == [line]
    ensures LinesWithout(a + [line] + b, prefix) == a + b
    ensures FirstAfter(a + [line] + b, prefix) == Some(line[|prefix|..])
  {
    hide StartsWith;
    assert a + [line] + b == a + ([line] + b);
    PlainLinesDrop(a, [line] + b, prefix);
    assert ([line] + b)[1..] == b;
    PlainLinesDrop(b, [], prefix);
    assert b + [] == b;
  }

  /** The four prefixes and two markers are told apart by a single character. */
  lemma PrefixesDiffer()
    ensures CHECKSUM_PREFIX[14] == 'c' && HOOK_PREFIX[14] == 'h' && FORMAT_LINE[14] == 'f'
    ensures |CHECKSUM_PREFIX| > 14 && |HOOK_PREFIX| == 19 && |PYTHON_PREFIX| == 19 && |FORMAT_LINE| > 14
    ensures CHECKSUM_PREFIX[0] == HOOK_PREFIX[0] == FORMAT_LINE[0] == BEGIN_MARKER[0] == END_MARKER[0] == '#'
    ensures HOOK_VARIABLE[12] == 'h' && PYTHON_PREFIX[12] == 'p' && |HOOK_VARIABLE| == 17
    ensures HOOK_VARIABLE[0] == PYTHON_PREFIX[0] == 'c'
    ensures CHECKSUM_PREFIX[2] == HOOK_PREFIX[2] == FORMAT_LINE[2] == 'c' && BEGIN_MARKER[2] == 'B' && END_MARKER[2] == 'E'
    ensures |BEGIN_MARKER| > 2 && |END_MARKER| > 2
  {
  }

  // ---------------------------------------------------------------- rendered blocks parse

  lemma NamesArePlain(hook: HookType)
    ensures OneLine(NameOf(hook)) && NameOf(hook) != ""
    ensures forall i :: 0 <= i < |NameOf(hook)| ==> !IsSpace(NameOf(hook)[i])
  {
  }

  lemma StripsToName(hook: HookType)
    ensures Strip(" " + NameOf(hook)) == NameOf(hook)
  {
    NamesArePlain(hook);
    assert (" " + NameOf(hook))[1..] == NameOf(hook);
  }

  lemma PrefixChar(line: string, prefix: string, i: nat)
    requires i < |prefix|
    ensures StartsWith(line, prefix) ==> i < |line| && line[i] == prefix[i]
  {
    if StartsWith(line, prefix) {
      assert line[..|prefix|][i] == prefix[i];
    }
  }

  /** A line that a character tells apart from markers and prefixes. */
  lemma CommentLine(line: string)
    requires |line| > 14 && line[0] == '#' && line[2] == 'c'
    ensures line != BEGIN_MARKER && line != END_MARKER && !StartsWith(line, PYTHON_PREFIX)
    ensures line[14] != 'c' ==> !StartsWith(line, CHECKSUM_PREFIX)
    ensures line[14] != 'h' ==> !StartsWith(line, HOOK_PREFIX)
  {
    PrefixesDiffer();
    PrefixChar(line, CHECKSUM_PREFIX, 14);
    PrefixChar(line, PYTHON_PREFIX, 0);
    PrefixChar(line, HOOK_PREFIX, 14);
  }

  lemma VariableLine(line: string)
    requires |line| > 12 && line[0] == 'c'
    ensures line != BEGIN_MARKER && line != END_MARKER
    ensures !StartsWith(line, CHECKSUM_PREFIX) && !StartsWith(line, HOOK_PREFIX)
    ensures line[12] != 'p' ==> !StartsWith(line, PYTHON_PREFIX)
  {
    PrefixesDiffer();
    PrefixChar(line, CHECKSUM_PREFIX, 0);
    PrefixChar(line, HOOK_PREFIX, 0);
    PrefixChar(line, PYTHON_PREFIX, 12);
  }

  lemma HookLine(hook: HookType)
    ensures
      var line := HOOK_PREFIX + " " + NameOf(hook);
      && OneLine(line) && |line| > 14 && line[0] == '#' && line[2] == 'c' && line[14] == 'h'
      && StartsWith(line, HOOK_PREFIX) && line[|HOOK_PREFIX|..] == " " + NameOf(hook)
  {
    hide PYTHON_PREFIX, BEGIN_MARKER, END_MARKER;
    PrefixesDiffer();
    NamesArePlain(hook);
    var line := HOOK_PREFIX + " " + NameOf(hook);
    HookPrefixIsOneLine();
    assert line[..|HOOK_PREFIX|] == HOOK_PREFIX;
  }

  lemma HeaderLines(w: Wrapper, hook: HookType, i: nat)
    requires ValidWrapper(w) && i < |Header(w, hook)|
    ensures OneLine(Header(w, hook)[i]) && Header(w, hook)[i] != BEGIN_MARKER && Header(w, hook)[i] != END_MARKER
    ensures !StartsWith(Header(w, hook)[i], CHECKSUM_PREFIX) && !StartsWith(Header(w, hook)[i], PYTHON_PREFIX)
    ensures StartsWith(Header(w, hook)[i], HOOK_PREFIX) <==> i == |w.notice|
  {
    hide StartsWith, NameOf;
    if i == |w.notice| {
      HookLine(hook);
      CommentLine(HOOK_PREFIX + " " + NameOf(hook));
    } else if i > |w.notice| {
      PrefixesDiffer();
      CommentLine(FORMAT_LINE);
    }
  }

  lemma QuotedIsOneLine(value: string)
    requires OneLine(value)
    ensures OneLine(ShQuote(value))
  {
    QuoteAddsNoBreaks(value, '\n');
    QuoteAddsNoBreaks(value, '\r');
  }

  lemma BodyLines(w: Wrapper, hook: HookType, python: string, i: nat)
    requires ValidWrapper(w) && Acceptable(python) && i < |Body(w, hook, python)|
    ensures OneLine(Body(w, hook, python)[i]) && Body(w, hook, python)[i] != BEGIN_MARKER && Body(w, hook, python)[i] != END_MARKER
    ensures !StartsWith(Body(w, hook, python)[i], CHECKSUM_PREFIX) && !StartsWith(Body(w, hook, python)[i], HOOK_PREFIX)
    ensures StartsWith(Body(w, hook, python)[i], PYTHON_PREFIX) <==> i == 1
  {
    hide NameOf, ShQuote;
    var line := Body(w, hook, python)[i];
    if i == 0 {
      PrefixesDiffer();
      NamesArePlain(hook);
      QuotedIsOneLine(NameOf(hook));
      VariableLine(line);
    } else if i == 1 {
      PrefixesDiffer();
      QuotedIsOneLine(python);
      VariableLine(line);
      assert line[..|PYTHON_PREFIX|] == PYTHON_PREFIX;
    } else {
      assert line == w.script(hook)[i - 2];
    }
  }

  lemma ChecksumPrefixIsOneLine()
    ensures OneLine(CHECKSUM_PREFIX)
  {
  }

  lemma HookPrefixIsOneLine()
    ensures OneLine(HOOK_PREFIX)
  {
  }

  lemma ChecksumLine(w: Wrapper, lines: seq<string>)
    requires ValidWrapper(w)
    ensures OneLine(Checksum(w, lines)) && Checksum(w, lines) != BEGIN_MARKER && Checksum(w, lines) != END_MARKER
    ensures StartsWith(Checksum(w, lines), CHECKSUM_PREFIX)
    ensures !StartsWith(Checksum(w, lines), HOOK_PREFIX) && !StartsWith(Checksum(w, lines), PYTHON_PREFIX)
  {
    hide Join, HOOK_PREFIX, PYTHON_PREFIX, BEGIN_MARKER, END_MARKER;
    var line := Checksum(w, lines);
    PrefixesDiffer();
    assert OneLine(w.sha256(Join(lines)));
    assert line[0] == '#' && line[2] == 'c' && line[14] == 'c';
    assert line[..|CHECKSUM_PREFIX|] == CHECKSUM_PREFIX;
    CommentLine(line);
    ChecksumPrefixIsOneLine();
  }

  /** Nothing between the markers looks like a marker or spans lines. */
  lemma InnerLines(w: Wrapper, hook: HookType, python: string)
    requires ValidWrapper(w) && Acceptable(python)
    ensures forall i :: 0 <= i < |Inner(w, hook, python)| ==>
      OneLine(Inner(w, hook, python)[i]) && Inner(w, hook, python)[i] != BEGIN_MARKER && Inner(w, hook, python)[i] != END_MARKER
  {
    hide BEGIN_MARKER, END_MARKER;
    var header, body := Header(w, hook), Body(w, hook, python);
    forall i | 0 <= i < |Inner(w, hook, python)|
      ensures OneLine(Inner(w, hook, python)[i]) && Inner(w, hook, python)[i] != BEGIN_MARKER && Inner(w, hook, python)[i] != END_MARKER
    {
      hide Header, Body, Checksum, OneLine, ValidWrapper;
      if i < |header| {
        HeaderLines(w, hook, i);
      } else if i == |header| {
        ChecksumLine(w, header + body);
      } else {
        BodyLines(w, hook, python, i - |header| - 1);
      }
    }
  }

  /** Parsing what was rendered: the same hook, the same path, and an intact checksum. */
  lemma InnerParses(w: Wrapper, hook: HookType, python: string, start: nat, end: nat)
    requires ValidWrapper(w) && Acceptable(python)
    ensures ParseInner(w, start, end, Inner(w, hook, python)) == Block(start, end, Some(NameOf(hook)), Some(python), true)
  {
    hide CHECKSUM_PREFIX, HOOK_PREFIX, PYTHON_PREFIX, FORMAT_LINE;
    var inner := Inner(w, hook, python);
    ChecksumComesBack(w, hook, python);
    HookComesBack(w, hook, python);
    PythonComesBack(w, hook, python);
    StripsToName(hook);
    UnquoteUndoesQuote(python);
  }

  lemma ChecksumComesBack(w: Wrapper, hook: HookType, python: string)
    requires ValidWrapper(w) && Acceptable(python)
    ensures LinesWith(Inner(w, hook, python), CHECKSUM_PREFIX) == [Checksum(w, Header(w, hook) + Body(w, hook, python))]
    ensures LinesWithout(Inner(w, hook, python), CHECKSUM_PREFIX) == Header(w, hook) + Body(w, hook, python)
  {
    hide Header, Body, Checksum, StartsWith, OneLine, ValidWrapper, CHECKSUM_PREFIX, HOOK_PREFIX, PYTHON_PREFIX, FORMAT_LINE;
    var header, body := Header(w, hook), Body(w, hook, python);
    forall i | 0 <= i < |header|
      ensures !StartsWith(header[i], CHECKSUM_PREFIX)
    {
      HeaderLines(w, hook, i);
    }
    forall i | 0 <= i < |body|
      ensures !StartsWith(body[i], CHECKSUM_PREFIX)
    {
      BodyLines(w, hook, python, i);
    }
    ChecksumLine(w, header + body);
    OneLineWith(header, Checksum(w, header + body), body, CHECKSUM_PREFIX);
  }

  lemma HookComesBack(w: Wrapper, hook: HookType, python: string)
    requires ValidWrapper(w) && Acceptable(python)
    ensures FirstAfter(Inner(w, hook, python), HOOK_PREFIX) == Some(" " + NameOf(hook))
  {
    hide CHECKSUM_PREFIX, PYTHON_PREFIX, FORMAT_LINE, HOOK_VARIABLE;
    var rest := [FORMAT_LINE] + [Checksum(w, Header(w, hook) + Body(w, hook, python))] + Body(w, hook, python);
    var line := HOOK_PREFIX + " " + NameOf(hook);
    assert Inner(w, hook, python) == w.notice + ([line] + rest);
    PlainLinesDrop(w.notice, [line] + rest, HOOK_PREFIX);
    assert StartsWith(line, HOOK_PREFIX) && line[|HOOK_PREFIX|..] == " " + NameOf(hook);
  }

  lemma PythonComesBack(w: Wrapper, hook: HookType, python: string)
    requires ValidWrapper(w) && Acceptable(python)
    ensures FirstAfter(Inner(w, hook, python), PYTHON_PREFIX) == Some(ShQuote(python))
  {
    hide CHECKSUM_PREFIX, HOOK_PREFIX, PYTHON_PREFIX, FORMAT_LINE;
    var header, body := Header(w, hook), Body(w, hook, python);
    var before := header + [Checksum(w, header + body)] + [HOOK_VARIABLE + ShQuote(NameOf(hook))];
    var line, rest := PYTHON_PREFIX + ShQuote(python), w.script(hook);
    assert Inner(w, hook, python) == before + ([line] + rest);
    forall i | 0 <= i < |before|
      ensures !StartsWith(before[i], PYTHON_PREFIX)
    {
      if i < |header| {
        HeaderLines(w, hook, i);
      } else if i == |header| {
        ChecksumLine(w, header + body);
      } else {
        BodyLines(w, hook, python, 0);
      }
    }
    PlainLinesDrop(before, [line] + rest, PYTHON_PREFIX);
    assert StartsWith(line, PYTHON_PREFIX) && line[|PYTHON_PREFIX|..] == ShQuote(python);
  }

  // ---------------------------------------------------------------- a block inside other text

  lemma BlockLinesAreLines(w: Wrapper, hook: HookType, python: string)
    requires ValidWrapper(w) && Acceptable(python)
    ensures NoBreaks(BlockLines(w, hook, python))
  {
    hide Inner, BEGIN_MARKER, END_MARKER;
    InnerLines(w, hook, python);
    MarkersAreOneLine();
  }

  lemma MarkersAmong(pre: seq<string>, inner: seq<string>, post: seq<string>)
    requires Unmarked(pre) && Unmarked(post)
    requires forall k :: 0 <= k < |inner| ==> OneLine(inner[k]) && inner[k] != BEGIN_MARKER && inner[k] != END_MARKER
    ensures
      var lines := pre + ([BEGIN_MARKER] + inner + [END_MARKER]) + post;
      IndicesOf(lines, BEGIN_MARKER) == [|pre|] && IndicesOf(lines, END_MARKER) == [|pre| + |inner| + 1]
  {
    hide TrimReturns, OneLine, BEGIN_MARKER, END_MARKER;
    var lines := pre + ([BEGIN_MARKER] + inner + [END_MARKER]) + post;
    forall i | 0 <= i < |lines|
      ensures TrimReturns(lines[i]) == BEGIN_MARKER <==> i == |pre|
      ensures TrimReturns(lines[i]) == END_MARKER <==> i == |pre| + |inner| + 1
    {
      LineAmong(pre, inner, post, i);
    }
    OnlyIndex(lines, BEGIN_MARKER, |pre|);
    OnlyIndex(lines, END_MARKER, |pre| + |inner| + 1);
  }

  lemma TrimAllKeeps(lines: seq<string>)
    requires forall i :: 0 <= i < |lines| ==> OneLine(lines[i])
    ensures TrimAll(lines) == lines
  {
  }

  lemma ParsesAt(w: Wrapper, lines: seq<string>, begin: nat, end: nat)
    requires begin < end < |lines|
    requires IndicesOf(lines, BEGIN_MARKER) == [begin] && IndicesOf(lines, END_MARKER) == [end]
    ensures ParseLines(w, lines) == Ok(Some(ParseInner(w, begin, end, TrimAll(lines[begin + 1..end]))))
  {
    hide ParseInner, TrimAll, IndicesOf, BEGIN_MARKER, END_MARKER;
  }

  /** A rendered block among unmarked lines is found where it is, intact, with its hook and path. */
  lemma ParsesAmong(w: Wrapper, hook: HookType, python: string, pre: seq<string>, post: seq<string>)
    requires ValidWrapper(w) && Acceptable(python) && Unmarked(pre) && Unmarked(post)
    ensures
      var block := BlockLines(w, hook, python);
      ParseLines(w, pre + block + post)
      == Ok(Some(Block(|pre|, |pre| + |block| - 1, Some(NameOf(hook)), Some(python), true)))
  {
    hide Inner, ParseInner, ParseLines, TrimReturns, TrimAll, OneLine, NameOf, Unmarked, ValidWrapper, Acceptable, BEGIN_MARKER, END_MARKER;
    var inner := Inner(w, hook, python);
    var lines := pre + BlockLines(w, hook, python) + post;
    var begin, end := |pre|, |pre| + |inner| + 1;
    InnerLines(w, hook, python);
    MarkersAmong(pre, inner, post);
    ParsesAt(w, lines, begin, end);
    assert lines[begin + 1..end] == inner;
    TrimAllKeeps(inner);
    InnerParses(w, hook, python, begin, end);
  }

  lemma LineAmong(pre: seq<string>, inner: seq<string>, post: seq<string>, i: nat)
    requires Unmarked(pre) && Unmarked(post)
    requires forall k :: 0 <= k < |inner| ==> OneLine(inner[k]) && inner[k] != BEGIN_MARKER && inner[k] != END_MARKER
    requires i < |pre + ([BEGIN_MARKER] + inner + [END_MARKER]) + post|
    ensures
      var line := (pre + ([BEGIN_MARKER] + inner + [END_MARKER]) + post)[i];
      && (TrimReturns(line) == BEGIN_MARKER <==> i == |pre|)
      && (TrimReturns(line) == END_MARKER <==> i == |pre| + |inner| + 1)
  {
    hide BEGIN_MARKER, END_MARKER;
    MarkersDiffer();
    MarkersAreOneLine();
    var line := (pre + ([BEGIN_MARKER] + inner + [END_MARKER]) + post)[i];
    if i < |pre| {
      assert line == pre[i];
    } else if i == |pre| {
      assert line == BEGIN_MARKER;
    } else if i <= |pre| + |inner| {
      assert line == inner[i - |pre| - 1];
    } else if i == |pre| + |inner| + 1 {
      assert line == END_MARKER;
    } else {
      assert line == post[i - |pre| - |inner| - 2];
    }
  }

  lemma MarkersAreOneLine()
    ensures OneLine(BEGIN_MARKER) && OneLine(END_MARKER)
  {
  }

  /** Around the block that was found there are no further markers. */
  lemma UnmarkedAround(w: Wrapper, lines: seq<string>, block: Block)
    requires ParseLines(w, lines) == Ok(Some(block))
    ensures block.start < block.end < |lines|
    ensures Unmarked(lines[..block.start]) && Unmarked(lines[block.end + 1..])
  {
    hide ParseInner, TrimReturns, BEGIN_MARKER, END_MARKER;
    var begins, ends := IndicesOf(lines, BEGIN_MARKER), IndicesOf(lines, END_MARKER);
    assert begins == [block.start] && ends == [block.end];
    IndicesAreExact(lines, BEGIN_MARKER);
    IndicesAreExact(lines, END_MARKER);
    forall i: nat | i < |lines| && (i < block.start || i > block.end)
      ensures TrimReturns(lines[i]) != BEGIN_MARKER && TrimReturns(lines[i]) != END_MARKER
    {
      assert i !in begins && i !in ends;
    }
  }

  // ---------------------------------------------------------------- replacing and removing the block

  /** What `install_hook` writes over a file that already holds a block. */
  function ReplaceBlock(lines: seq<string>, block: Block, desired: string): string
    requires block.start <= block.end < |lines|
  {
    Join(lines[..block.start]) + (if block.start > 0 then "\n" else "") + desired + Join(lines[block.end + 1..])
  }

  /** The lines after the block; a file that ended at the end marker gains a final newline. */
  function LinesAfter(lines: seq<string>, block: Block): seq<string>
    requires block.end < |lines|
  {
    if block.end + 1 < |lines| then lines[block.end + 1..] else [""]
  }

  lemma JoinThree(pre: seq<string>, middle: seq<string>, post: seq<string>)
    requires middle != [] && post != []
    ensures Join(pre) + (if pre != [] then "\n" else "") + (Join(middle) + "\n") + Join(post) == Join(pre + middle + post)
  {
    hide Join;
    JoinAppend(middle, post);
    var tail := Join(middle) + "\n" + Join(post);
    if pre == [] {
      assert pre + middle + post == middle + post;
      JoinNothing();
      assert "" + "" + (Join(middle) + "\n") + Join(post) == tail;
    } else {
      JoinAppend(pre, middle + post);
      assert pre + middle + post == pre + (middle + post);
      assert Join(pre) + "\n" + (Join(middle) + "\n") + Join(post) == Join(pre) + "\n" + tail;
    }
  }

  lemma JoinNothing()
    ensures Join([]) == "" == Join([""])
  {
  }

  lemma ReplacedLines(w: Wrapper, text: string, block: Block, hook: HookType, python: string)
    requires ValidWrapper(w) && Acceptable(python) && block.start <= block.end < |Split(text)|
    ensures
      var lines := Split(text);
      Split(ReplaceBlock(lines, block, RenderBlock(w, hook, python)))
      == lines[..block.start] + BlockLines(w, hook, python) + LinesAfter(lines, block)
  {
    hide BlockLines, Join, Split, BEGIN_MARKER, END_MARKER;
    var lines := Split(text);
    var pre, middle, post := lines[..block.start], BlockLines(w, hook, python), LinesAfter(lines, block);
    BlockHasLines(w, hook, python);
    BlockLinesAreLines(w, hook, python);
    JoinNothing();
    assert lines[block.end + 1..] == if block.end + 1 < |lines| then post else [];
    JoinThree(pre, middle, post);
    SplitHasNoBreaks(text);
    SplitJoin(pre + middle + post);
  }

  lemma BlockHasLines(w: Wrapper, hook: HookType, python: string)
    ensures BlockLines(w, hook, python) != []
  {
  }

  lemma EmptyLineIsUnmarked()
    ensures Unmarked([""])
  {
    PrefixesDiffer();
  }

  lemma AfterIsUnmarked(lines: seq<string>, block: Block)
    requires block.end < |lines| && Unmarked(lines[block.end + 1..])
    ensures Unmarked(LinesAfter(lines, block))
  {
    EmptyLineIsUnmarked();
  }

  /**
   Replacing the block keeps every line before and after it, up to one final
   newline, and the result parses as intact with the new hook and path.
   */
  lemma ReplacingKeepsTheRest(w: Wrapper, text: string, block: Block, hook: HookType, python: string)
    requires ValidWrapper(w) && Acceptable(python) && ParseManagedBlock(w, text) == Ok(Some(block))
    ensures block.start < block.end < |Split(text)|
    ensures
      var lines, after := Split(text), ReplaceBlock(Split(text), block, RenderBlock(w, hook, python));
      var end := block.start + |BlockLines(w, hook, python)| - 1;
      && Split(after) == lines[..block.start] + BlockLines(w, hook, python) + LinesAfter(lines, block)
      && ParseManagedBlock(w, after) == Ok(Some(Block(block.start, end, Some(NameOf(hook)), Some(python), true)))
  {
    hide BlockLines, ReplaceBlock, ParseLines, Unmarked, BEGIN_MARKER, END_MARKER, TrimReturns, RenderBlock, Join, LinesAfter, Split, ParseInner, NoBreaks;
    var lines := Split(text);
    UnmarkedAround(w, lines, block);
    AfterIsUnmarked(lines, block);
    ReplacedLines(w, text, block, hook, python);
    ParsesAmong(w, hook, python, lines[..block.start], LinesAfter(lines, block));
  }

  /** `_remove_block` */
  function RemoveBlock(lines: seq<string>, block: Block): string
    requires block.start <= block.end < |lines|
  {
    Join(lines[..block.start] + lines[block.end + 1..])
  }

  lemma SplitJoinAny(lines: seq<string>)
    requires NoBreaks(lines)
    ensures Split(Join(lines)) == if lines == [] then [""] else lines
  {
    hide Split, Join;
    if lines == [] {
      JoinNothing();
      SplitLine("");
    } else {
      SplitJoin(lines);
    }
  }

  lemma AroundHasNoBreaks(lines: seq<string>, block: Block)
    requires NoBreaks(lines) && block.start <= block.end < |lines|
    ensures NoBreaks(lines[..block.start] + lines[block.end + 1..])
  {
  }

  /** Removing the block leaves exactly the lines around it (an empty text when there are none). */
  lemma RemovingKeepsTheRest(text: string, block: Block)
    requires block.start <= block.end < |Split(text)|
    ensures
      var lines := Split(text);
      var rest := lines[..block.start] + lines[block.end + 1..];
      Split(RemoveBlock(lines, block)) == if rest == [] then [""] else rest
  {
    hide Split, Join, NoBreaks;
    var lines := Split(text);
    SplitHasNoBreaks(text);
    AroundHasNoBreaks(lines, block);
    SplitJoinAny(lines[..block.start] + lines[block.end + 1..]);
  }

  /** A freshly rendered file, line by line. */
  lemma RenderedLines(w: Wrapper, hook: HookType, python: string)
    requires ValidWrapper(w) && Acceptable(python)
    ensures Split(RenderHookFile(w, hook, python)) == [SHEBANG] + BlockLines(w, hook, python) + [""]
  {
    hide BlockLines, BEGIN_MARKER, END_MARKER;
    var middle := BlockLines(w, hook, python);
    BlockHasLines(w, hook, python);
    BlockLinesAreLines(w, hook, python);
    JoinAppend(middle, [""]);
    JoinAppend([SHEBANG], middle + [""]);
    assert Join(middle + [""]) == RenderBlock(w, hook, python) + "" == RenderBlock(w, hook, python);
    var all := [SHEBANG] + (middle + [""]);
    assert [SHEBANG] + middle + [""] == all;
    ShebangIsOneLine();
    SplitJoin(all);
  }

  lemma ShebangIsOneLine()
    ensures OneLine(SHEBANG) && SHEBANG[1] == '!' && |SHEBANG| > 2
  {
  }

  /** For every acceptable path, parsing a rendered hook yields one intact block with the same hook and path. */
  lemma RenderedFileParses(w: Wrapper, hook: HookType, python: string)
    requires ValidWrapper(w) && Acceptable(python)
    ensures ParseManagedBlock(w, RenderHookFile(w, hook, python))
            == Ok(Some(Block(1, |BlockLines(w, hook, python)|, Some(NameOf(hook)), Some(python), true)))
  {
    hide BlockLines, BEGIN_MARKER, END_MARKER, Unmarked, ParseLines, RenderHookFile, NameOf;
    RenderedLines(w, hook, python);
    ShebangIsUnmarked();
    EmptyLineIsUnmarked();
    ParsesAmong(w, hook, python, [SHEBANG], [""]);
  }

  lemma ShebangIsUnmarked()
    ensures Unmarked([SHEBANG]) && Unmarked([])
  {
    ShebangIsOneLine();
    PrefixesDiffer();
    assert BEGIN_MARKER[1] == END_MARKER[1] == ' ';
  }
}
