/** What `commitguard doctor` may conclude: "installed" means that exactly the rendered block is there. */
module HookReports {
  import opened Wrappers
  import opened Replacement
  import opened HookText
  import opened HookBlock
  import opened HookFiles
  import opened HookStatus
  import opened HookParsing

  /** SHA-256 has no second text with the checksum of this block's content. */
  ghost predicate NoSecondText(w: Wrapper, hook: HookType, python: string) {
    forall text :: w.sha256(text) == w.sha256(Join(Header(w, hook) + Body(w, hook, python))) ==>
      text == Join(Header(w, hook) + Body(w, hook, python))
  }

  /** A checksum line that ends a list's rendered inner lines is the only one if the list is intact, and then nothing precedes them. */
  lemma NothingBefore(w: Wrapper, hook: HookType, python: string, extra: seq<string>, i: nat)
    requires ValidWrapper(w) && Acceptable(python) && NoSecondText(w, hook, python) && NoBreaks(extra)
    requires i < |extra + Inner(w, hook, python)| && ChecksumAt(w, extra + Inner(w, hook, python), i)
    ensures extra == []
  {
    hide NoBreaks, StartsWith, Header, Body, CHECKSUM_PREFIX, OneLine, ValidWrapper;
    var header, body, inner := Header(w, hook), Body(w, hook, python), extra + Inner(w, hook, python);
    var at := |extra| + |header|;
    assert inner[at] == Checksum(w, header + body);
    ChecksumStarts(w, header + body);
    assert i == at;
    var others := extra + (header + body);
    assert inner[..at] + inner[at + 1..] == others;
    SameChecksumSameText(w, others, header + body);
    ContentIsLines(w, hook, python);
    SameJoinSameLines(extra, header + body);
  }

  lemma SameChecksumSameText(w: Wrapper, a: seq<string>, b: seq<string>)
    requires Checksum(w, a) == Checksum(w, b)
    ensures w.sha256(Join(a)) == w.sha256(Join(b))
  {
    var n := |CHECKSUM_PREFIX|;
    assert Checksum(w, a)[n..] == w.sha256(Join(a)) && Checksum(w, b)[n..] == w.sha256(Join(b));
  }

  lemma ContentIsLines(w: Wrapper, hook: HookType, python: string)
    requires ValidWrapper(w) && Acceptable(python)
    ensures NoBreaks(Header(w, hook) + Body(w, hook, python)) && Header(w, hook) != []
  {
    hide Header, Body, BEGIN_MARKER, END_MARKER;
    var header, body := Header(w, hook), Body(w, hook, python);
    InnerLines(w, hook, python);
    forall i | 0 <= i < |header + body|
      ensures '\n' !in (header + body)[i]
    {
      var k := if i < |header| then i else i + 1;
      assert Inner(w, hook, python)[k] == (header + body)[i];
    }
    HeaderIsNotEmpty(w, hook);
  }

  lemma HeaderIsNotEmpty(w: Wrapper, hook: HookType)
    ensures Header(w, hook) != []
  {
  }

  lemma SameJoinSameLines(extra: seq<string>, lines: seq<string>)
    requires NoBreaks(extra) && NoBreaks(lines) && lines != [] && Join(extra + lines) == Join(lines)
    ensures extra == []
  {
    hide Join, Split;
    assert NoBreaks(extra + lines);
    SplitJoin(extra + lines);
    SplitJoin(lines);
    assert |extra + lines| == |extra| + |lines|;
  }

  // ---------------------------------------------------------------- where the rendered text starts

  /** The lines of a text around a rendered block: only the first one may be glued to what precedes it. */
  lemma LinesAroundRendered(w: Wrapper, hook: HookType, python: string, a: string, b: string)
    requires ValidWrapper(w) && Acceptable(python)
    ensures Split(a + RenderBlock(w, hook, python) + b)
         == Split(a + BEGIN_MARKER) + (Inner(w, hook, python) + [END_MARKER]) + Split(b)
  {
    hide Inner, Split, Join, BEGIN_MARKER, END_MARKER, NoBreaks;
    var rest := Inner(w, hook, python) + [END_MARKER];
    BlockLinesAreLines(w, hook, python);
    assert BlockLines(w, hook, python) == [BEGIN_MARKER] + rest;
    JoinAppend([BEGIN_MARKER], rest);
    JoinOne(BEGIN_MARKER);
    var text := a + RenderBlock(w, hook, python) + b;
    assert text == (a + BEGIN_MARKER) + "\n" + (Join(rest) + "\n" + b);
    SplitAtAnyNewline(a + BEGIN_MARKER, Join(rest) + "\n" + b);
    SplitAtAnyNewline(Join(rest), b);
    RestHasNoBreaks(BEGIN_MARKER, rest);
    SplitJoin(rest);
  }

  lemma JoinOne(line: string)
    ensures Join([line]) == line
  {
  }

  lemma RestHasNoBreaks(first: string, rest: seq<string>)
    requires NoBreaks([first] + rest)
    ensures NoBreaks(rest)
  {
    assert forall i :: 0 <= i < |rest| ==> rest[i] == ([first] + rest)[i + 1];
  }

  /** What is glued to the marker stays in front of it on the last line. */
  lemma {:induction false} GluedLine(a: string, marker: string)
    requires '\n' !in marker
    ensures Split(a + marker) != []
    ensures
      var last := Split(a + marker)[|Split(a + marker)| - 1];
      |last| >= |marker| && last[|last| - |marker|..] == marker
  {
    if a == "" {
      assert a + marker == marker;
      SplitLine(marker);
    } else {
      assert (a + marker)[0] == a[0] && (a + marker)[1..] == a[1..] + marker;
      GluedLine(a[1..], marker);
    }
  }

  lemma TrimmedMarker(line: string)
    requires |line| >= |BEGIN_MARKER| && line[|line| - |BEGIN_MARKER|..] == BEGIN_MARKER && TrimReturns(line) == BEGIN_MARKER
    ensures line == BEGIN_MARKER
  {
    assert line[|line| - 1] == BEGIN_MARKER[|BEGIN_MARKER| - 1];
  }

  /** If the begin marker of an intact block comes before the rendered inner lines, it is right before them. */
  lemma BlockIsRendered(w: Wrapper, text: string, block: Block, hook: HookType, python: string)
    requires ValidWrapper(w) && Acceptable(python) && NoSecondText(w, hook, python)
    requires ParseManagedBlock(w, text) == Ok(Some(block)) && block.intact && Contains(text, RenderBlock(w, hook, python))
    ensures block.start < block.end < |Split(text)| && Split(text)[block.start..block.end + 1] == BlockLines(w, hook, python)
  {
    hide ParseManagedBlock, RenderBlock, Contains, Inner, Split, TrimReturns, TrimAll, BEGIN_MARKER, END_MARKER, NoSecondText,
         ValidWrapper, ChecksumAt, LinesInside;
    var a, b := ContainsSplits(text, RenderBlock(w, hook, python));
    var lines, pre, inner := Split(text), Split(a + BEGIN_MARKER), Inner(w, hook, python);
    LinesAroundRendered(w, hook, python, a, b);
    MarkersAreOneLine();
    GluedLine(a, BEGIN_MARKER);
    BlockIff(w, text, block.start, block.end);
    var end := |pre| + |inner|;
    assert lines[end] == END_MARKER;
    EndMarkerHasNoBreak();
    assert MarkerAt(lines, end, END_MARKER);
    assert block.end == end;
    StartIsBefore(w, hook, python, lines, pre, block.start);
    IntactIff(w, text, block);
    var extra := pre[block.start + 1..];
    assert lines[block.start + 1..end] == extra + inner;
    TrimmedInside(w, hook, python, text, block, extra);
    var i: nat :| i < |LinesInside(text, block)| && ChecksumAt(w, LinesInside(text, block), i);
    ExtraHasNoBreaks(a + BEGIN_MARKER, extra, block.start + 1);
    NothingBefore(w, hook, python, TrimAll(extra), i);
    assert block.start == |pre| - 1 && lines[block.start] == pre[|pre| - 1];
    TrimmedMarker(pre[|pre| - 1]);
    assert lines[block.start..end + 1] == [BEGIN_MARKER] + inner + [END_MARKER];
  }

  lemma StartIsBefore(w: Wrapper, hook: HookType, python: string, lines: seq<string>, pre: seq<string>, start: nat)
    requires ValidWrapper(w) && Acceptable(python)
    requires pre + Inner(w, hook, python) <= lines && start < |pre| + |Inner(w, hook, python)| && MarkerAt(lines, start, BEGIN_MARKER)
    ensures start < |pre|
  {
    hide Inner, BEGIN_MARKER, END_MARKER, ValidWrapper;
    InnerLines(w, hook, python);
    forall k | |pre| <= k < |pre| + |Inner(w, hook, python)|
      ensures !MarkerAt(lines, k, BEGIN_MARKER)
    {
      assert lines[k] == (pre + Inner(w, hook, python))[k] == Inner(w, hook, python)[k - |pre|];
    }
  }

  lemma TrimAppend(a: seq<string>, b: seq<string>)
    ensures TrimAll(a + b) == TrimAll(a) + TrimAll(b)
  {
    hide TrimReturns;
  }

  lemma TrimmedInside(w: Wrapper, hook: HookType, python: string, text: string, block: Block, extra: seq<string>)
    requires ValidWrapper(w) && Acceptable(python) && block.start < block.end < |Split(text)|
    requires Split(text)[block.start + 1..block.end] == extra + Inner(w, hook, python)
    ensures LinesInside(text, block) == TrimAll(extra) + Inner(w, hook, python)
  {
    hide Inner, Split, TrimAll, TrimReturns, BEGIN_MARKER, END_MARKER, ValidWrapper;
    InnerLines(w, hook, python);
    TrimAppend(extra, Inner(w, hook, python));
    TrimAllKeeps(Inner(w, hook, python));
  }

  lemma ExtraHasNoBreaks(text: string, extra: seq<string>, from: nat)
    requires from <= |Split(text)| && extra == Split(text)[from..]
    ensures NoBreaks(TrimAll(extra))
  {
    hide Split, TrimReturns;
    SplitHasNoBreaks(text);
    forall i | 0 <= i < |extra|
      ensures '\n' !in TrimAll(extra)[i]
    {
      assert extra[i] == Split(text)[from + i];
    }
  }

  /**
   A hook is reported as installed for an interpreter if and only if its block is,
   line for line, the one rendered for this hook and interpreter, another line
   follows it, and Git may execute the file.
   */
  lemma UpToDateIff(w: Wrapper, files: Files, hook: HookType, python: string, modes: bool)
    requires ValidWrapper(w) && Acceptable(python) && NoSecondText(w, hook, python)
    ensures Status(w, files, hook, python, modes) == UpToDate <==>
      && files.path.Some? && files.path.value.Hook? && (modes ==> files.path.value.executable)
      && HoldsBlock(w, files.path.value.text, hook, python)
      && ParseManagedBlock(w, files.path.value.text).value.value.end + 1 < |Split(files.path.value.text)|
  {
    hide ParseManagedBlock, RenderBlock, Contains, Split, NameOf, NoSecondText, ValidWrapper, BlockLines;
    if files.path.Some? && files.path.value.Hook? {
      var text := files.path.value.text;
      var parsed := ParseManagedBlock(w, text);
      if parsed.Ok? && parsed.value.Some? && parsed.value.value.intact && Contains(text, RenderBlock(w, hook, python)) {
        BlockIsRendered(w, text, parsed.value.value, hook, python);
        CurrentIsRendered(w, text, parsed.value.value, hook, python);
        UnchangedHoldsBlock(w, text, parsed.value.value, hook, python);
      }
      if HoldsBlock(w, text, hook, python) {
        ContainsIffFollowed(w, text, hook, python);
      }
    }
  }

  lemma CurrentIsRendered(w: Wrapper, text: string, block: Block, hook: HookType, python: string)
    requires block.start <= block.end < |Split(text)| && Split(text)[block.start..block.end + 1] == BlockLines(w, hook, python)
    ensures CurrentBlock(Split(text), block) == RenderBlock(w, hook, python)
  {
    hide Split, BlockLines, Join;
  }

  /** The other reports are truthful. */
  lemma ReportsAreTrue(w: Wrapper, files: Files, hook: HookType, python: string, modes: bool)
    ensures
      var status := Status(w, files, hook, python, modes);
      && (status == Missing <==> files.path.None?)
      && (status == Corrupt <==> files.path.Some? && (files.path.value.Unreadable? || ParseManagedBlock(w, files.path.value.text).Err?))
      && (status == ForeignHook <==> files.path.Some? && files.path.value.Hook? && ParseManagedBlock(w, files.path.value.text) == Ok(None))
      && (status == Modified ==>
            var block := ParseManagedBlock(w, files.path.value.text).value.value;
            block.intact ==> block.hook != Some(NameOf(hook)))
      && (status == NotExecutable ==> modes && !files.path.value.executable)
      && (status == Outdated ==> !Contains(files.path.value.text, RenderBlock(w, hook, python)))
      && (status == NotExecutable || status == Outdated || status == UpToDate ==>
            ParseManagedBlock(w, files.path.value.text).value.value.intact)
  {
    hide ParseManagedBlock, RenderBlock, Contains, NameOf;
  }
}
