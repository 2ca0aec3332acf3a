/** What one install or uninstall reports, and what it leaves when a file operation fails. */
module HookOutcomes {
  import opened Wrappers
  import opened HookText
  import opened HookBlock
  import opened HookFiles

  /** The file at the path holds a readable hook with one managed block. */
  predicate Managed(w: Wrapper, files: Files) {
    && files.path.Some? && files.path.value.Hook?
    && ParseManagedBlock(w, files.path.value.text).Ok? && ParseManagedBlock(w, files.path.value.text).value.Some?
  }

  /** The file at the path holds a readable hook without markers. */
  predicate Unmanaged(w: Wrapper, files: Files) {
    && files.path.Some? && files.path.value.Hook?
    && ParseManagedBlock(w, files.path.value.text).Ok? && ParseManagedBlock(w, files.path.value.text).value.None?
  }

  /**
   If no file operation fails, an install succeeds if and only if the interpreter is
   acceptable and the path is empty, managed, or holds a hook that can be moved aside.
   */
  lemma InstallSucceedsIff(w: Wrapper, files: Files, hook: HookType, python: string, modes: bool)
    ensures Install(w, files, hook, python, modes, NO_FAULTS).1.Ok?
       <==> (forall i :: 0 <= i < |python| ==> python[i] != '\n' && python[i] != '\r' && python[i] != '\0')
            && (files.path.None? || Managed(w, files) || (Unmanaged(w, files) && files.chained.None?))
  {
    hide ParseManagedBlock, RenderHookFile, RenderBlock, ReplaceBlock, CurrentBlock;
  }

  /**
   What a success means: installed at an empty path, chained over a hook without
   markers, which is kept, or the block updated or already right. If a write failed,
   only a block that was already right counts as a success.
   */
  lemma InstallReports(w: Wrapper, files: Files, hook: HookType, python: string, modes: bool, faults: Faults)
    requires ValidWrapper(w) && Install(w, files, hook, python, modes, faults).1.Ok?
    ensures
      var (after, r) := Install(w, files, hook, python, modes, faults);
      && (r.value == Installed <==> files.path.None?)
      && (r.value == Installed ==> after == files.(path := Some(Hook(RenderHookFile(w, hook, python), true))))
      && (r.value == Chained <==> Unmanaged(w, files))
      && (r.value == Chained ==> after == Files(Some(Hook(RenderHookFile(w, hook, python), true)), files.path))
      && (r.value == Updated || r.value == Unchanged <==> Managed(w, files))
      && (r.value == Unchanged <==> after == files)
      && (r.value == Updated ==> after.chained == files.chained)
      && (faults.write != NoFault ==> r.value == Unchanged)
  {
    hide RenderHookFile, ReplaceBlock, ParseManagedBlock, RenderBlock, CurrentBlock, BlockLines, NameOf;
    var (after, r) := Install(w, files, hook, python, modes, faults);
    if r.value == Updated {
      var text := files.path.value.text;
      ReplacedHoldsBlock(w, text, ParseManagedBlock(w, text).value.value, hook, python);
    }
  }

  /** The operation that failed left a new file, or kept the foreign hook moved aside. */
  predicate Stranded(w: Wrapper, files: Files, python: string, faults: Faults) {
    && Acceptable(python)
    && ((files.path.None? && faults.write == AfterLink)
        || (Unmanaged(w, files) && files.chained.None? && !faults.moveAway && faults.write != NoFault && faults.moveBack))
  }

  /**
   A failed install leaves both files as they were unless removing the temporary
   name failed after a new file was linked, or the foreign hook could not be moved
   back; then the hook is still there, at the second path.
   */
  lemma FailedInstallIff(w: Wrapper, files: Files, hook: HookType, python: string, modes: bool, faults: Faults)
    requires Install(w, files, hook, python, modes, faults).1.Err?
    ensures
      var after := Install(w, files, hook, python, modes, faults).0;
      && (after == files <==> !Stranded(w, files, python, faults))
      && (after != files ==>
            && (after.path == None || after.path == Some(Hook(RenderHookFile(w, hook, python), true)))
            && after.chained == (if files.path.Some? then files.path else files.chained))
  {
    hide ParseManagedBlock, RenderHookFile, RenderBlock, ReplaceBlock, CurrentBlock;
  }

  /** An uninstall that fails changes nothing, and it fails only for a file it cannot read or parse, or a failing operation. */
  lemma UninstallReports(w: Wrapper, files: Files, faults: Faults)
    ensures
      var (after, r) := Uninstall(w, files, faults);
      && (r.Err? ==> after == files && files.path.Some? && (faults == NO_FAULTS ==> !Managed(w, files) && !Unmanaged(w, files)))
      && (r == Ok(NotInstalled) <==> files.path.None?)
      && (r == Ok(ForeignUntouched) <==> Unmanaged(w, files))
      && (r == Ok(NotInstalled) || r == Ok(ForeignUntouched) ==> after == files)
      && (r == Ok(Restored) ==> Managed(w, files) && files.chained.Some? && after == Files(files.chained, None) && !faults.moveBack)
      && (r == Ok(Removed) ==> Managed(w, files) && files.chained.None? && after == Files(None, None) && !faults.unlink)
      && (r == Ok(BlockRemoved) ==> Managed(w, files) && after.path.Some? && after.chained == files.chained && faults.write == NoFault)
  {
    hide ParseManagedBlock, RemoveBlock, OnlyShebang;
  }

  // ---------------------------------------------------------------- what counts as nothing but a shebang

  predicate Blank(line: string) {
    Strip(line) == ""
  }

  predicate AtMostOneNotBlank(lines: seq<string>) {
    forall i, j :: 0 <= i < j < |lines| ==> Blank(lines[i]) || Blank(lines[j])
  }

  predicate Shebang(line: string) {
    |line| >= 2 && line[..2] == "#!"
  }

  lemma {:induction false} MeaningfulIff(lines: seq<string>, line: string)
    ensures line in Meaningful(lines) <==> line in lines && !Blank(line)
  {
    hide Strip;
    if lines != [] {
      MeaningfulIff(lines[1..], line);
      assert lines == [lines[0]] + lines[1..];
    }
  }

  lemma {:induction false} AtMostOneMeaningful(lines: seq<string>)
    ensures |Meaningful(lines)| <= 1 <==> AtMostOneNotBlank(lines)
  {
    hide Strip;
    if lines != [] {
      var rest := lines[1..];
      AtMostOneMeaningful(rest);
      assert forall i :: 0 < i < |lines| ==> lines[i] == rest[i - 1];
      assert forall i, j :: 0 <= i < j < |rest| ==> rest[i] == lines[i + 1] && rest[j] == lines[j + 1];
      NoneMeaningful(rest);
    }
  }

  lemma NoneMeaningful(lines: seq<string>)
    ensures Meaningful(lines) == [] <==> forall i :: 0 <= i < |lines| ==> Blank(lines[i])
  {
    hide Meaningful, Strip;
    forall i | 0 <= i < |lines|
      ensures !Blank(lines[i]) ==> lines[i] in Meaningful(lines)
    {
      MeaningfulIff(lines, lines[i]);
    }
    if Meaningful(lines) != [] {
      MeaningfulIff(lines, Meaningful(lines)[0]);
    }
  }

  /** What an uninstall leaves counts as nothing if it has no line but blank ones and at most one shebang. */
  lemma OnlyShebangIff(text: string)
    ensures
      var lines := Split(text);
      OnlyShebang(text) <==>
        AtMostOneNotBlank(lines) && forall i :: 0 <= i < |lines| ==> Blank(lines[i]) || Shebang(lines[i])
  {
    hide Split, Strip, Meaningful, Shebang;
    var lines := Split(text);
    var meaningful := Meaningful(lines);
    AtMostOneMeaningful(lines);
    forall i | 0 <= i < |lines|
      ensures !Blank(lines[i]) <==> lines[i] in meaningful
    {
      MeaningfulIff(lines, lines[i]);
    }
    if |meaningful| == 1 {
      var first := meaningful[0];
      MeaningfulIff(lines, first);
      ShebangStarts(first);
      var k :| 0 <= k < |lines| && lines[k] == first;
      assert meaningful == [first] && !Blank(lines[k]);
      assert OnlyShebang(text) <==> Shebang(lines[k]);
    } else if |meaningful| == 0 {
      assert meaningful == [];
      assert OnlyShebang(text);
    } else {
      assert !OnlyShebang(text);
    }
  }

  lemma ShebangStarts(line: string)
    ensures Shebang(line) <==> |line| >= 2 && line[0] == '#' && line[1] == '!'
  {
    if |line| >= 2 {
      assert line[..2] == [line[0], line[1]];
    }
  }
}
