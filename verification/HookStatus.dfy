/** What `commitguard doctor` reports about a hook, compared with what the installer considers up to date. */
module HookStatus {
  import opened Wrappers
  import opened Replacement
  import opened HookText
  import opened HookBlock
  import opened HookFiles

  datatype HookState = Missing | UpToDate | Outdated | Modified | Corrupt | ForeignHook | NotExecutable

  /** `hook_status` for a hook expected to run `python`. */
  ghost function Status(w: Wrapper, files: Files, hook: HookType, python: string, modes: bool): HookState {
    if files.path.None? then Missing
    else if files.path.value.Unreadable? then Corrupt
    else
      var text := files.path.value.text;
      var parsed := ParseManagedBlock(w, text);
      if parsed.Err? then Corrupt
      else if parsed.value.None? then ForeignHook
      else if !parsed.value.value.intact || parsed.value.value.hook != Some(NameOf(hook)) then Modified
      else if modes && !files.path.value.executable then NotExecutable
      else if !Contains(text, RenderBlock(w, hook, python)) then Outdated
      else UpToDate
  }

  lemma ContainsMiddle(a: string, part: string, b: string)
    ensures Contains(a + part + b, part)
  {
    assert OccursAt(a + part + b, part, |a|);
  }

  lemma ContainsSplits(text: string, part: string) returns (a: string, b: string)
    requires Contains(text, part)
    ensures text == a + part + b
  {
    var i: nat :| OccursAt(text, part, i);
    a, b := text[..i], text[i + |part|..];
  }

  lemma {:induction false} SplitAtAnyNewline(a: string, b: string)
    ensures Split(a + "\n" + b) == Split(a) + Split(b)
  {
    if a == "" {
      assert (a + "\n" + b)[1..] == b;
    } else {
      var all := a + "\n" + b;
      assert all[0] == a[0] && all[1..] == a[1..] + "\n" + b;
      SplitAtAnyNewline(a[1..], b);
    }
  }

  /** Where a rendered block ends inside a text, there is an end marker with another line after it. */
  lemma EndMarkerIsFollowed(w: Wrapper, hook: HookType, python: string, a: string, b: string)
    ensures
      var lines := Split(a + RenderBlock(w, hook, python) + b);
      exists k :: 0 <= k < |lines| - 1 && lines[k] == END_MARKER
  {
    hide Inner;
    var middle := BlockLines(w, hook, python);
    var front := [BEGIN_MARKER] + Inner(w, hook, python);
    var head := a + Join(front);
    JoinAppend(front, [END_MARKER]);
    assert Join(middle) == Join(front) + "\n" + END_MARKER;
    assert a + RenderBlock(w, hook, python) + b == head + "\n" + (END_MARKER + "\n" + b);
    SplitAtAnyNewline(head, END_MARKER + "\n" + b);
    EndMarkerHasNoBreak();
    SplitAtNewline(END_MARKER, b);
    assert Split(a + RenderBlock(w, hook, python) + b)[|Split(head)|] == END_MARKER;
  }

  lemma EndMarkerHasNoBreak()
    ensures '\n' !in END_MARKER && TrimReturns(END_MARKER) == END_MARKER
  {
    MarkersAreOneLine();
  }

  lemma EndMarkerIsTheEnd(w: Wrapper, lines: seq<string>, block: Block, k: nat)
    requires ParseLines(w, lines) == Ok(Some(block)) && k < |lines| && lines[k] == END_MARKER
    ensures k == block.end
  {
    hide ParseInner;
    EndMarkerHasNoBreak();
    IndicesAreExact(lines, END_MARKER);
  }

  /** A text that holds the block contains it, final newline included, exactly when the block is not its last line. */
  lemma ContainsIffFollowed(w: Wrapper, text: string, hook: HookType, python: string)
    requires ValidWrapper(w) && Acceptable(python) && HoldsBlock(w, text, hook, python)
    ensures
      var block := ParseManagedBlock(w, text).value.value;
      Contains(text, RenderBlock(w, hook, python)) <==> block.end + 1 < |Split(text)|
  {
    hide ParseLines, RenderBlock, BlockLines;
    var lines, block, rendered := Split(text), ParseManagedBlock(w, text).value.value, RenderBlock(w, hook, python);
    if block.end + 1 < |lines| {
      FollowedContains(text, block);
    }
    if Contains(text, rendered) {
      var a, b := ContainsSplits(text, rendered);
      EndMarkerIsFollowed(w, hook, python, a, b);
      var k :| 0 <= k < |lines| - 1 && lines[k] == END_MARKER;
      EndMarkerIsTheEnd(w, lines, block, k);
    }
  }

  lemma FollowedContains(text: string, block: Block)
    requires block.start <= block.end && block.end + 1 < |Split(text)|
    ensures Contains(text, CurrentBlock(Split(text), block))
  {
    hide Split, Join, Contains;
    var lines := Split(text);
    var pre, middle, post := lines[..block.start], lines[block.start..block.end + 1], lines[block.end + 1..];
    JoinSplit(text);
    assert lines == pre + (middle + post);
    JoinedContains(pre, middle, post);
  }

  lemma JoinedContains(pre: seq<string>, middle: seq<string>, post: seq<string>)
    requires middle != [] && post != []
    ensures Contains(Join(pre + (middle + post)), Join(middle) + "\n")
  {
    hide Join, Contains;
    JoinTwo(middle, post);
    if pre == [] {
      assert pre + (middle + post) == middle + post;
    } else {
      JoinAppend(pre, middle + post);
      ContainsAfter(Join(pre) + "\n", Join(middle + post), Join(middle) + "\n");
    }
  }

  lemma JoinTwo(middle: seq<string>, post: seq<string>)
    requires middle != [] && post != []
    ensures Contains(Join(middle + post), Join(middle) + "\n")
  {
    JoinAppend(middle, post);
    ContainsMiddle("", Join(middle) + "\n", Join(post));
    assert "" + (Join(middle) + "\n") + Join(post) == Join(middle + post);
  }

  lemma ContainsAfter(a: string, text: string, part: string)
    requires Contains(text, part)
    ensures Contains(a + text, part)
  {
    var x, y := ContainsSplits(text, part);
    assert a + text == (a + x) + part + y;
    ContainsMiddle(a + x, part, y);
  }

  /**
   After a successful install the hook is reported up to date - exactly unless
   its block is the very last line of the file, which the installer leaves
   unchanged but the report calls outdated.
   */
  lemma StatusAfterInstall(w: Wrapper, files: Files, hook: HookType, python: string, modes: bool, faults: Faults)
    requires ValidWrapper(w) && Install(w, files, hook, python, modes, faults).1.Ok?
    ensures
      var after := Install(w, files, hook, python, modes, faults).0;
      && after.path.Some? && after.path.value.Hook? && HoldsBlock(w, after.path.value.text, hook, python)
      && var end := ParseManagedBlock(w, after.path.value.text).value.value.end;
         Status(w, after, hook, python, modes) == if end + 1 < |Split(after.path.value.text)| then UpToDate else Outdated
  {
    InstallIsIdempotent(w, files, hook, python, modes, faults, faults);
    hide Install, ParseManagedBlock, RenderBlock, Contains, CurrentBlock, NameOf;
    var after := Install(w, files, hook, python, modes, faults).0;
    assert Acceptable(python) by {
      AcceptableToInstall(w, files, hook, python, modes, faults);
    }
    ContainsIffFollowed(w, after.path.value.text, hook, python);
  }

  lemma AcceptableToInstall(w: Wrapper, files: Files, hook: HookType, python: string, modes: bool, faults: Faults)
    requires Install(w, files, hook, python, modes, faults).1.Ok?
    ensures Acceptable(python)
  {
  }

  /** Such a file: a rendered hook without its final newline. Reinstalling does not repair it. */
  lemma TruncatedHookStaysOutdated(w: Wrapper, hook: HookType, python: string, modes: bool, chained: Option<File>)
    requires ValidWrapper(w) && Acceptable(python)
    ensures
      var files := Files(Some(Hook(Join([SHEBANG] + BlockLines(w, hook, python)), true)), chained);
      && Install(w, files, hook, python, modes, NO_FAULTS) == (files, Ok(Unchanged))
      && Status(w, files, hook, python, modes) == Outdated
  {
    hide BlockLines, Contains, ParseLines, NameOf, Unmarked;
    var middle := BlockLines(w, hook, python);
    var text := Join([SHEBANG] + middle);
    BlockHasLines(w, hook, python);
    BlockLinesAreLines(w, hook, python);
    ShebangIsOneLine();
    SplitJoin([SHEBANG] + middle);
    ShebangIsUnmarked();
    assert [SHEBANG] + middle + [] == [SHEBANG] + middle;
    ParsesAmong(w, hook, python, [SHEBANG], []);
    assert ([SHEBANG] + middle)[1..|middle| + 1] == middle;
    assert HoldsBlock(w, text, hook, python);
    ContainsIffFollowed(w, text, hook, python);
  }
}
