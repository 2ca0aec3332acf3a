/** Hooks at both paths: whatever was there before an install, neither file is ever overwritten. */
module HookPairs {
  import opened Wrappers
  import opened HookText
  import opened HookBlock
  import opened HookFiles

  // ---------------------------------------------------------------- two files that are not ours

  /** A hook manager rewrote the path after an earlier install, so both paths hold files of somebody else. */
  lemma BothAreRefused(w: Wrapper, hook: HookType, path: File, kept: File, python: string, modes: bool, faults: Faults)
    requires Foreign(w, Some(path))
    ensures
      var (files, r) := Install(w, Files(Some(path), Some(kept)), hook, python, modes, faults);
      && files == Files(Some(path), Some(kept)) && r.Err?
      && (Acceptable(python) && path.Hook? && ParseManagedBlock(w, path.text).Ok? ==> r == Err(BothExist))
  {
    hide ParseManagedBlock, RenderHookFile, RenderBlock;
    ForeignParsesToNothing(w, Some(path));
  }

  lemma ForeignIsNotUninstalled(w: Wrapper, files: Files, faults: Faults)
    requires files.path.Some? && Foreign(w, files.path)
    ensures
      var (after, r) := Uninstall(w, files, faults);
      after == files && (r.Err? || r == Ok(ForeignUntouched))
  {
    hide ParseManagedBlock;
    ForeignParsesToNothing(w, files.path);
  }

  /** Then no run of installs and uninstalls, whichever operations fail, changes either file. */
  lemma {:induction false} BothStay(w: Wrapper, hook: HookType, path: File, kept: File, steps: seq<Step>)
    requires Foreign(w, Some(path))
    ensures AfterSteps(w, hook, Files(Some(path), Some(kept)), steps) == Files(Some(path), Some(kept))
  {
    hide Foreign;
    if steps != [] {
      BothStay(w, hook, path, kept, steps[..|steps| - 1]);
      match steps[|steps| - 1]
      case InstallStep(python, modes, faults) => BothAreRefused(w, hook, path, kept, python, modes, faults);
      case UninstallStep(faults) => ForeignIsNotUninstalled(w, Files(Some(path), Some(kept)), faults);
    }
  }

  // ---------------------------------------------------------------- the kept file, whatever is at the path

  predicate Restores(w: Wrapper, files: Files, step: Step) {
    step.UninstallStep? && Uninstall(w, files, step.faults).1 == Ok(Restored)
  }

  /** A kept file is only ever moved back to the path, by an uninstall that says so. */
  lemma KeptOrRestored(w: Wrapper, hook: HookType, files: Files, step: Step)
    requires files.chained.Some?
    ensures AfterStep(w, hook, files, step)
         == if Restores(w, files, step) then Files(files.chained, None)
            else AfterStep(w, hook, files, step).(chained := files.chained)
  {
    hide ParseManagedBlock, RenderHookFile, RenderBlock, ReplaceBlock, RemoveBlock, OnlyShebang;
  }

  /** So in every run from any two files it stays where it is until the first uninstall that restores it. */
  lemma {:induction false} KeptUntilRestored(w: Wrapper, hook: HookType, files: Files, steps: seq<Step>)
    requires files.chained.Some?
    requires forall k :: 0 <= k < |steps| ==> !Restores(w, AfterSteps(w, hook, files, steps[..k]), steps[k])
    ensures AfterSteps(w, hook, files, steps).chained == files.chained
  {
    hide AfterStep, Restores;
    if steps != [] {
      var rest := steps[..|steps| - 1];
      assert forall k :: 0 <= k < |rest| ==> rest[..k] == steps[..k];
      KeptUntilRestored(w, hook, files, rest);
      KeptOrRestored(w, hook, AfterSteps(w, hook, files, rest), steps[|steps| - 1]);
    }
  }

  /** The two-file invariant is kept from every state that has it, not only from a fresh directory. */
  lemma {:induction false} RunPreservesFrom(w: Wrapper, hook: HookType, foreign: Option<File>, files: Files, steps: seq<Step>)
    requires ValidWrapper(w) && Foreign(w, foreign) && Preserved(w, hook, foreign, files)
    ensures Preserved(w, hook, foreign, AfterSteps(w, hook, files, steps))
  {
    hide Preserved, AfterStep, Foreign;
    if steps != [] {
      var before := AfterSteps(w, hook, files, steps[..|steps| - 1]);
      RunPreservesFrom(w, hook, foreign, files, steps[..|steps| - 1]);
      StepPreserves(w, hook, foreign, before, steps[|steps| - 1]);
    }
  }

  lemma StepPreserves(w: Wrapper, hook: HookType, foreign: Option<File>, files: Files, step: Step)
    requires ValidWrapper(w) && Foreign(w, foreign) && Preserved(w, hook, foreign, files)
    ensures Preserved(w, hook, foreign, AfterStep(w, hook, files, step))
  {
    hide Preserved, Install, Uninstall, Foreign;
    match step
    case InstallStep(python, modes, faults) => InstallPreserves(w, hook, foreign, files, python, modes, faults);
    case UninstallStep(faults) => UninstallPreserves(w, hook, foreign, files, faults);
  }

  /** A foreign hook kept behind a wrapper, or behind nothing, is at exactly one of the two paths in every run. */
  lemma KeptHookIsNeverLost(w: Wrapper, hook: HookType, path: Option<File>, kept: File, steps: seq<Step>)
    requires ValidWrapper(w) && Foreign(w, Some(kept)) && EmptyOrWrapper(w, hook, path)
    ensures
      var files := AfterSteps(w, hook, Files(path, Some(kept)), steps);
      (files.path == Some(kept)) != (files.chained == Some(kept))
  {
    hide Foreign, IsWrapper;
    RunPreservesFrom(w, hook, Some(kept), Files(path, Some(kept)), steps);
    var files := AfterSteps(w, hook, Files(path, Some(kept)), steps);
    if files.path.Some? && IsWrapper(w, hook, files.path.value) {
      WrapperIsNotForeign(w, hook, files.path.value);
    }
  }
}
