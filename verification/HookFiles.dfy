/**
 Installing and uninstalling one hook: a managed wrapper at the hook's path, and
 at the second path the hook that was there before, which must never be lost.
 */
module HookFiles {
  import opened Wrappers
  import opened HookText
  import opened HookBlock

  /** A file whose text can be read, or anything else at the path: a directory, a dangling link, binary data, too much data. */
  datatype File = Hook(text: string, executable: bool) | Unreadable(identity: nat)

  datatype Files = Files(path: Option<File>, chained: Option<File>)

  /** Where a write that must not overwrite can fail: `os.link` is followed by removing the temporary name. */
  datatype WriteFault = NoFault | BeforeLink | AfterLink

  /** Which file operations of one call fail. */
  datatype Faults = Faults(write: WriteFault, moveAway: bool, moveBack: bool, unlink: bool)

  const NO_FAULTS := Faults(NoFault, false, false, false)

  datatype InstallAction = Installed | Chained | Updated | Unchanged

  datatype UninstallAction = Removed | Restored | BlockRemoved | NotInstalled | ForeignUntouched

  // ---------------------------------------------------------------- install

  /** `_write_hook` without overwriting, at an empty path. */
  function WriteNew(files: Files, content: string, fault: WriteFault): (Files, bool) {
    (if fault == BeforeLink then files else files.(path := Some(Hook(content, true))), fault == NoFault)
  }

  function CurrentBlock(lines: seq<string>, block: Block): string
    requires block.start <= block.end < |lines|
  {
    Join(lines[block.start..block.end + 1]) + "\n"
  }

  function InstallOverBlock(w: Wrapper, files: Files, hook: HookType, python: string, modes: bool, faults: Faults, block: Block)
    : (Files, Result<InstallAction, HookError>)
    requires files.path.Some? && files.path.value.Hook?
    requires block.start <= block.end < |Split(files.path.value.text)|
  {
    var lines, desired := Split(files.path.value.text), RenderBlock(w, hook, python);
    if CurrentBlock(lines, block) == desired && (!modes || files.path.value.executable) then (files, Ok(Unchanged))
    else if faults.write != NoFault then (files, Err(CannotWrite))
    else (files.(path := Some(Hook(ReplaceBlock(lines, block, desired), true))), Ok(Updated))
  }

  /** Move the foreign hook away, write the wrapper, and move it back if that fails. */
  function InstallOverForeign(w: Wrapper, files: Files, hook: HookType, python: string, faults: Faults)
    : (Files, Result<InstallAction, HookError>)
  {
    if files.chained.Some? then (files, Err(BothExist))
    else if faults.moveAway then (files, Err(CannotWrite))
    else
      var (written, ok) := WriteNew(Files(None, files.path), RenderHookFile(w, hook, python), faults.write);
      if ok then (written, Ok(Chained))
      else if faults.moveBack then (written, Err(CannotWrite))
      else (Files(written.chained, None), Err(CannotWrite))
  }

  /** `install_hook`; `modes` says whether the platform has executable bits. */
  function Install(w: Wrapper, files: Files, hook: HookType, python: string, modes: bool, faults: Faults)
    : (Files, Result<InstallAction, HookError>)
  {
    if !Acceptable(python) then (files, Err(ControlCharacters))
    else if files.path.None? then
      var (written, ok) := WriteNew(files, RenderHookFile(w, hook, python), faults.write);
      (written, if ok then Ok(Installed) else Err(CannotWrite))
    else if files.path.value.Unreadable? then (files, Err(CannotRead))
    else
      var parsed := ParseManagedBlock(w, files.path.value.text);
      if parsed.Err? then (files, Err(parsed.error))
      else if parsed.value.Some? then InstallOverBlock(w, files, hook, python, modes, faults, parsed.value.value)
      else InstallOverForeign(w, files, hook, python, faults)
  }

  // ---------------------------------------------------------------- uninstall

  function Meaningful(lines: seq<string>): seq<string> {
    if lines == [] then []
    else if Strip(lines[0]) != "" then [lines[0]] + Meaningful(lines[1..])
    else Meaningful(lines[1..])
  }

  /** `_only_shebang` */
  predicate OnlyShebang(text: string) {
    var meaningful := Meaningful(Split(text));
    || meaningful == []
    || (|meaningful| == 1 && |meaningful[0]| >= 2 && meaningful[0][0] == '#' && meaningful[0][1] == '!')
  }

  /** `uninstall_hook` */
  function Uninstall(w: Wrapper, files: Files, faults: Faults): (Files, Result<UninstallAction, HookError>) {
    if files.path.None? then (files, Ok(NotInstalled))
    else if files.path.value.Unreadable? then (files, Err(CannotRead))
    else
      var text := files.path.value.text;
      var parsed := ParseManagedBlock(w, text);
      if parsed.Err? then (files, Err(parsed.error))
      else if parsed.value.None? then (files, Ok(ForeignUntouched))
      else
        var remaining := RemoveBlock(Split(text), parsed.value.value);
        if !OnlyShebang(remaining) then
          if faults.write != NoFault then (files, Err(CannotWrite))
          else (files.(path := Some(Hook(remaining, true))), Ok(BlockRemoved))
        else if files.chained.Some? then
          if faults.moveBack then (files, Err(CannotWrite)) else (Files(files.chained, None), Ok(Restored))
        else if faults.unlink then (files, Err(CannotWrite))
        else (files.(path := None), Ok(Removed))
  }

  // ---------------------------------------------------------------- the directory, changed in place

  class HooksDirectory {
    const w: Wrapper
    const hook: HookType
    var path: Option<File>
    var chained: Option<File>

    function State(): Files
      reads this
    {
      Files(path, chained)
    }

    constructor (w: Wrapper, hook: HookType, files: Files)
      ensures this.w == w && this.hook == hook && State() == files
    {
      this.w, this.hook, path, chained := w, hook, files.path, files.chained;
    }

    method WriteNewHook(content: string, fault: WriteFault) returns (ok: bool)
      requires path.None?
      modifies this
      ensures (State(), ok) == WriteNew(old(State()), content, fault)
    {
      if fault == BeforeLink {
        return false;
      }
      path := Some(Hook(content, true));
      return fault == NoFault;
    }

    method InstallHook(python: string, modes: bool, faults: Faults) returns (r: Result<InstallAction, HookError>)
      modifies this
      ensures (State(), r) == Install(w, old(State()), hook, python, modes, faults)
    {
      if !Acceptable(python) {
        return Err(ControlCharacters);
      }
      var desired := RenderBlock(w, hook, python);
      if path.None? {
        var ok := WriteNewHook(SHEBANG + "\n" + desired, faults.write);
        return if ok then Ok(Installed) else Err(CannotWrite);
      }
      if path.value.Unreadable? {
        return Err(CannotRead);
      }
      var text := path.value.text;
      var parsed := ParseManagedBlock(w, text);
      if parsed.Err? {
        return Err(parsed.error);
      }
      if parsed.value.Some? {
        var block, lines := parsed.value.value, Split(text);
        if CurrentBlock(lines, block) == desired && (!modes || path.value.executable) {
          return Ok(Unchanged);
        }
        if faults.write != NoFault {
          return Err(CannotWrite);
        }
        path := Some(Hook(ReplaceBlock(lines, block, desired), true));
        return Ok(Updated);
      }
      if chained.Some? {
        return Err(BothExist);
      }
      if faults.moveAway {
        return Err(CannotWrite);
      }
      path, chained := None, path;
      var ok := WriteNewHook(SHEBANG + "\n" + desired, faults.write);
      if !ok {
        if !faults.moveBack {
          path, chained := chained, None;
        }
        return Err(CannotWrite);
      }
      return Ok(Chained);
    }

    method UninstallHook(faults: Faults) returns (r: Result<UninstallAction, HookError>)
      modifies this
      ensures (State(), r) == Uninstall(w, old(State()), faults)
    {
      if path.None? {
        return Ok(NotInstalled);
      }
      if path.value.Unreadable? {
        return Err(CannotRead);
      }
      var text := path.value.text;
      var parsed := ParseManagedBlock(w, text);
      if parsed.Err? {
        return Err(parsed.error);
      }
      if parsed.value.None? {
        return Ok(ForeignUntouched);
      }
      var remaining := RemoveBlock(Split(text), parsed.value.value);
      if !OnlyShebang(remaining) {
        if faults.write != NoFault {
          return Err(CannotWrite);
        }
        path := Some(Hook(remaining, true));
        return Ok(BlockRemoved);
      }
      if chained.Some? {
        if faults.moveBack {
          return Err(CannotWrite);
        }
        path, chained := chained, None;
        return Ok(Restored);
      }
      if faults.unlink {
        return Err(CannotWrite);
      }
      path := None;
      return Ok(Removed);
    }
  }

  // ---------------------------------------------------------------- wrappers

  ghost predicate IsWrapper(w: Wrapper, hook: HookType, file: File) {
    exists python :: Acceptable(python) && file == Hook(RenderHookFile(w, hook, python), true)
  }

  /** Installing over a wrapper gives a wrapper. */
  lemma UpdatedWrapper(w: Wrapper, hook: HookType, before: string, python: string, block: Block)
    requires ValidWrapper(w) && Acceptable(before) && Acceptable(python)
    requires ParseManagedBlock(w, RenderHookFile(w, hook, before)) == Ok(Some(block))
    ensures block.start <= block.end < |Split(RenderHookFile(w, hook, before))|
    ensures ReplaceBlock(Split(RenderHookFile(w, hook, before)), block, RenderBlock(w, hook, python)) == RenderHookFile(w, hook, python)
  {
    hide BlockLines, ReplaceBlock, RenderBlock, RenderHookFile;
    var text := RenderHookFile(w, hook, before);
    var middle := BlockLines(w, hook, before);
    RenderedFileParses(w, hook, before);
    RenderedLines(w, hook, before);
    RenderedLines(w, hook, python);
    ReplacingKeepsTheRest(w, text, block, hook, python);
    assert Split(text)[..1] == [SHEBANG] && Split(text)[|middle| + 1..] == [""];
    JoinSplit(RenderHookFile(w, hook, python));
    JoinSplit(ReplaceBlock(Split(text), block, RenderBlock(w, hook, python)));
  }

  /** Without its block a wrapper is only a shebang. */
  lemma EmptiedWrapper(w: Wrapper, hook: HookType, python: string, block: Block)
    requires ValidWrapper(w) && Acceptable(python)
    requires ParseManagedBlock(w, RenderHookFile(w, hook, python)) == Ok(Some(block))
    ensures block.start <= block.end < |Split(RenderHookFile(w, hook, python))|
    ensures OnlyShebang(RemoveBlock(Split(RenderHookFile(w, hook, python)), block))
  {
    hide BlockLines, RenderHookFile, RemoveBlock, ParseManagedBlock, NameOf, Split;
    var text := RenderHookFile(w, hook, python);
    RenderedFileParses(w, hook, python);
    RenderedLines(w, hook, python);
    RemovingKeepsTheRest(text, block);
    var lines := Split(text);
    assert lines[..block.start] + lines[block.end + 1..] == [SHEBANG, ""];
    ShebangIsOneLine();
    assert Meaningful([SHEBANG, ""]) == if Strip(SHEBANG) != "" then [SHEBANG] else [] by {
      assert [SHEBANG, ""][1..] == [""];
      assert Meaningful([""]) == Meaningful([""][1..]) == [];
    }
  }

  // ---------------------------------------------------------------- whole runs

  datatype Step =
    | InstallStep(python: string, modes: bool, faults: Faults)
    | UninstallStep(faults: Faults)

  function AfterStep(w: Wrapper, hook: HookType, files: Files, step: Step): Files {
    match step
    case InstallStep(python, modes, faults) => Install(w, files, hook, python, modes, faults).0
    case UninstallStep(faults) => Uninstall(w, files, faults).0
  }

  function AfterSteps(w: Wrapper, hook: HookType, files: Files, steps: seq<Step>): Files {
    if steps == [] then files
    else AfterStep(w, hook, AfterSteps(w, hook, files, steps[..|steps| - 1]), steps[|steps| - 1])
  }

  /** Not managed: nothing there, not readable, without markers, or with damaged ones. */
  predicate Foreign(w: Wrapper, file: Option<File>) {
    file.Some? && file.value.Hook? ==>
      !(ParseManagedBlock(w, file.value.text).Ok? && ParseManagedBlock(w, file.value.text).value.Some?)
  }

  ghost predicate EmptyOrWrapper(w: Wrapper, hook: HookType, file: Option<File>) {
    file.Some? ==> IsWrapper(w, hook, file.value)
  }

  /** The foreign file is at its own path with nothing chained, or it is chained and its path holds at most a wrapper. */
  ghost predicate Preserved(w: Wrapper, hook: HookType, foreign: Option<File>, files: Files) {
    || files == Files(foreign, None)
    || (files.chained == foreign && EmptyOrWrapper(w, hook, files.path))
  }

  lemma InstallPreserves(w: Wrapper, hook: HookType, foreign: Option<File>, files: Files, python: string, modes: bool, faults: Faults)
    requires ValidWrapper(w) && Foreign(w, foreign) && Preserved(w, hook, foreign, files)
    ensures Preserved(w, hook, foreign, Install(w, files, hook, python, modes, faults).0)
  {
    hide BlockLines, RenderHookFile, ParseManagedBlock, ReplaceBlock, RenderBlock;
    var after := Install(w, files, hook, python, modes, faults).0;
    if Acceptable(python) {
      if files.chained == foreign && files.path.Some? && IsWrapper(w, hook, files.path.value) {
        var before :| Acceptable(before) && files.path.value == Hook(RenderHookFile(w, hook, before), true);
        RenderedFileParses(w, hook, before);
        UpdatedWrapper(w, hook, before, python, ParseManagedBlock(w, files.path.value.text).value.value);
        assert after == files || after == files.(path := Some(Hook(RenderHookFile(w, hook, python), true)));
      } else {
        assert IsWrapper(w, hook, Hook(RenderHookFile(w, hook, python), true));
      }
    }
  }

  lemma UninstallPreserves(w: Wrapper, hook: HookType, foreign: Option<File>, files: Files, faults: Faults)
    requires ValidWrapper(w) && Foreign(w, foreign) && Preserved(w, hook, foreign, files)
    ensures Preserved(w, hook, foreign, Uninstall(w, files, faults).0)
  {
    hide BlockLines, RenderHookFile, ParseManagedBlock, RemoveBlock, OnlyShebang;
    if files.path.Some? && IsWrapper(w, hook, files.path.value) {
      var python :| Acceptable(python) && files.path.value == Hook(RenderHookFile(w, hook, python), true);
      RenderedFileParses(w, hook, python);
      EmptiedWrapper(w, hook, python, ParseManagedBlock(w, files.path.value.text).value.value);
    }
  }

  lemma {:induction false} RunPreserves(w: Wrapper, hook: HookType, foreign: Option<File>, steps: seq<Step>)
    requires ValidWrapper(w) && Foreign(w, foreign)
    ensures Preserved(w, hook, foreign, AfterSteps(w, hook, Files(foreign, None), steps))
  {
    if steps != [] {
      var files := AfterSteps(w, hook, Files(foreign, None), steps[..|steps| - 1]);
      RunPreserves(w, hook, foreign, steps[..|steps| - 1]);
      match steps[|steps| - 1]
      case InstallStep(python, modes, faults) => InstallPreserves(w, hook, foreign, files, python, modes, faults);
      case UninstallStep(faults) => UninstallPreserves(w, hook, foreign, files, faults);
    }
  }

  lemma WrapperIsNotForeign(w: Wrapper, hook: HookType, file: File)
    requires ValidWrapper(w) && IsWrapper(w, hook, file)
    ensures !Foreign(w, Some(file))
  {
    hide BlockLines, RenderHookFile, ParseManagedBlock;
    var python :| Acceptable(python) && file == Hook(RenderHookFile(w, hook, python), true);
    RenderedFileParses(w, hook, python);
  }

  /**
   The user's hook is never lost: whatever installs and uninstalls run, with
   whatever interpreters and whichever file operations failing, the foreign file
   is unchanged at exactly one of the two paths.
   */
  lemma ForeignHookIsNeverLost(w: Wrapper, hook: HookType, foreign: File, steps: seq<Step>)
    requires ValidWrapper(w) && Foreign(w, Some(foreign))
    ensures
      var files := AfterSteps(w, hook, Files(Some(foreign), None), steps);
      (files.path == Some(foreign)) != (files.chained == Some(foreign))
  {
    hide Foreign, IsWrapper;
    RunPreserves(w, hook, Some(foreign), steps);
    var files := AfterSteps(w, hook, Files(Some(foreign), None), steps);
    if files.path.Some? && IsWrapper(w, hook, files.path.value) {
      WrapperIsNotForeign(w, hook, files.path.value);
    }
  }

  // ---------------------------------------------------------------- undoing and repeating

  /** Uninstall after a successful install restores the starting state. */
  lemma UninstallUndoesInstall(w: Wrapper, hook: HookType, foreign: Option<File>, python: string, modes: bool)
    requires ValidWrapper(w) && Foreign(w, foreign)
    ensures
      var (files, r) := Install(w, Files(foreign, None), hook, python, modes, NO_FAULTS);
      r.Ok? ==>
        && files.path == Some(Hook(RenderHookFile(w, hook, python), true)) && files.chained == foreign
        && Uninstall(w, files, NO_FAULTS) == (Files(foreign, None), Ok(if foreign.Some? then Restored else Removed))
  {
    hide BlockLines, RenderHookFile, ParseManagedBlock, RemoveBlock, OnlyShebang, Foreign;
    var (files, r) := Install(w, Files(foreign, None), hook, python, modes, NO_FAULTS);
    ForeignParsesToNothing(w, foreign);
    if r.Ok? {
      RenderedFileParses(w, hook, python);
      EmptiedWrapper(w, hook, python, ParseManagedBlock(w, RenderHookFile(w, hook, python)).value.value);
    }
  }

  lemma ForeignParsesToNothing(w: Wrapper, foreign: Option<File>)
    requires Foreign(w, foreign)
    ensures foreign.Some? && foreign.value.Hook? && ParseManagedBlock(w, foreign.value.text).Ok? ==>
      ParseManagedBlock(w, foreign.value.text).value.None?
  {
  }

  /** The block found in `text` is the one rendered for `hook` and `python`. */
  predicate HoldsBlock(w: Wrapper, text: string, hook: HookType, python: string) {
    var parsed := ParseManagedBlock(w, text);
    && parsed.Ok? && parsed.value.Some?
    && CurrentBlock(Split(text), parsed.value.value) == RenderBlock(w, hook, python)
    && parsed.value.value.intact && parsed.value.value.hook == Some(NameOf(hook)) && parsed.value.value.python == Some(python)
  }

  lemma RenderedHoldsBlock(w: Wrapper, hook: HookType, python: string)
    requires ValidWrapper(w) && Acceptable(python)
    ensures HoldsBlock(w, RenderHookFile(w, hook, python), hook, python)
  {
    hide BlockLines, RenderHookFile, ParseManagedBlock, NameOf;
    var text, middle := RenderHookFile(w, hook, python), BlockLines(w, hook, python);
    RenderedFileParses(w, hook, python);
    RenderedLines(w, hook, python);
    assert Split(text)[1..|middle| + 1] == middle;
  }

  lemma ReplacedHoldsBlock(w: Wrapper, text: string, block: Block, hook: HookType, python: string)
    requires ValidWrapper(w) && Acceptable(python) && ParseManagedBlock(w, text) == Ok(Some(block))
    ensures block.start < block.end < |Split(text)|
    ensures HoldsBlock(w, ReplaceBlock(Split(text), block, RenderBlock(w, hook, python)), hook, python)
  {
    hide BlockLines, ReplaceBlock, ParseManagedBlock, NameOf;
    ReplacingKeepsTheRest(w, text, block, hook, python);
    var after, middle := ReplaceBlock(Split(text), block, RenderBlock(w, hook, python)), BlockLines(w, hook, python);
    BlockHasLines(w, hook, python);
    assert Split(after)[block.start..block.start + |middle|] == middle;
  }

  /** A block equal to the rendered one is the rendered one: it parses as intact with that hook and path. */
  lemma UnchangedHoldsBlock(w: Wrapper, text: string, block: Block, hook: HookType, python: string)
    requires ValidWrapper(w) && Acceptable(python) && ParseManagedBlock(w, text) == Ok(Some(block))
    requires block.start <= block.end < |Split(text)| && CurrentBlock(Split(text), block) == RenderBlock(w, hook, python)
    ensures HoldsBlock(w, text, hook, python)
  {
    hide BlockLines, ParseLines, Unmarked, NameOf, Split, Join;
    var lines, middle := Split(text), BlockLines(w, hook, python);
    var found := lines[block.start..block.end + 1];
    UnmarkedAround(w, lines, block);
    BlockLinesAreLines(w, hook, python);
    BlockHasLines(w, hook, python);
    SplitHasNoBreaks(text);
    assert Join(found) == (Join(found) + "\n")[..|Join(found)|] == (Join(middle) + "\n")[..|Join(middle)|] == Join(middle);
    SplitJoin(found);
    SplitJoin(middle);
    assert lines == lines[..block.start] + middle + lines[block.end + 1..];
    ParsesAmong(w, hook, python, lines[..block.start], lines[block.end + 1..]);
  }

  /**
   Whatever was there before, a successful install leaves an intact block for
   this hook and interpreter, and installing again changes nothing.
   */
  lemma InstallIsIdempotent(w: Wrapper, files: Files, hook: HookType, python: string, modes: bool, faults: Faults, later: Faults)
    requires ValidWrapper(w) && Install(w, files, hook, python, modes, faults).1.Ok?
    ensures
      var after := Install(w, files, hook, python, modes, faults).0;
      && after.path.Some? && after.path.value.Hook? && (modes ==> after.path.value.executable)
      && HoldsBlock(w, after.path.value.text, hook, python)
      && Install(w, after, hook, python, modes, later) == (after, Ok(Unchanged))
  {
    hide BlockLines, RenderHookFile, ReplaceBlock, ParseManagedBlock, RenderBlock, CurrentBlock, NameOf;
    var (after, r) := Install(w, files, hook, python, modes, faults);
    RenderedHoldsBlock(w, hook, python);
    if r.value == Updated || r.value == Unchanged {
      var text := files.path.value.text;
      var block := ParseManagedBlock(w, text).value.value;
      ReplacedHoldsBlock(w, text, block, hook, python);
      if r.value == Unchanged {
        UnchangedHoldsBlock(w, text, block, hook, python);
      }
    }
  }

  /** What is unrelated to the block survives an uninstall: exactly the lines around it remain. */
  lemma UninstallKeepsOtherLines(w: Wrapper, files: Files, faults: Faults)
    requires Uninstall(w, files, faults).1 == Ok(BlockRemoved)
    ensures
      var text := files.path.value.text;
      var lines, block := Split(text), ParseManagedBlock(w, text).value.value;
      var after := Uninstall(w, files, faults).0;
      && after.chained == files.chained && after.path.Some? && after.path.value.Hook?
      && Split(after.path.value.text) == lines[..block.start] + lines[block.end + 1..]
  {
    hide ParseManagedBlock, RemoveBlock, Split, OnlyShebang;
    var text := files.path.value.text;
    var block := ParseManagedBlock(w, text).value.value;
    RemovingKeepsTheRest(text, block);
    EmptyIsOnlyShebang();
    JoinSplit(RemoveBlock(Split(text), block));
  }

  lemma EmptyIsOnlyShebang()
    ensures OnlyShebang(Join([""]))
  {
  }
}
