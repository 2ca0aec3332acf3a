/** The fixed lines of the wrapper shipped with the program, and of the notice above it. */
module ScriptLines {
  predicate Unbroken(text: string) {
    forall i :: 0 <= i < |text| ==> text[i] != '\n' && text[i] != '\r'
  }

  /** How a line starts rules out that it is a marker or has a prefix the parser looks for. */
  predicate HarmlessStart(line: string) {
    && line != ""
    && (line[0] == '#' ==> |line| > 2 && line[2] != 'B' && line[2] != 'E' && line[2] != 'c')
    && (line[0] == 'c' ==> |line| > 12 && line[12] != 'p')
  }

  type Text = text: string | Unbroken(text) witness ""

  type Line = line: string | HarmlessStart(line) && Unbroken(line) witness "}"

  /** Lines are written down in pieces, whose types are checked one by one. */
  function Glue(start: Line, b: Text := "", c: Text := "", d: Text := "", e: Text := ""): Line {
    start + b + c + d + e
  }

  function ManagedLine(): Line {
    Glue("# This block is", " managed by", " CommitGuard. Do not", " edit it: `commitguard", " doctor`")
  }

  function DetectedLine(): Line {
    Glue("# detects changes and", " `commitguard install`", " restores it.", " `commitguard", " uninstall`")
  }

  function RemovedLine(): Line {
    Glue("# removes it and", " restores any hook", " preserved during", " installation.")
  }

  /** Where a hook that was there before is kept. */
  function KeptHookLine(hookName: Text): Line {
    Glue("commitguard_chained=", "\"$(dirname", " -- \"$0\")/", hookName, ".pre-commitguard\"")
  }

  function RunLine(): Line {
    "commitguard_run() {"
  }

  function TestPythonLine(): Line {
    Glue("    if [ -n", " \"$commitguard_python\"", " ] && [ -f", " \"$commitguard_python\"", " ]; then")
  }

  function WithPythonLine(): Line {
    Glue("        \"$commitguard_python\"", " -P -m commitguard", " hook", " \"$commitguard_hook\"", " \"$@\"")
  }

  function TestCommandLine(): Line {
    Glue("    elif command -v", " commitguard", " >/dev/null 2>&1; then")
  }

  function WithCommandLine(): Line {
    Glue("        commitguard", " hook", " \"$commitguard_hook\"", " \"$@\"")
  }

  function OtherwiseLine(): Line {
    "    else"
  }

  function NotAvailableLine(): Line {
    Glue("        echo", " \"CommitGuard is not", " available.\" >&2")
  }

  function NotExecutedLine(): Line {
    Glue("        echo \"The", " repository's", " $commitguard_hook", " security hook could", " not execute.\" >&2")
  }

  function BlockedLine(): Line {
    Glue("        echo", " \"Operation blocked", " because the security", " check could not be", " completed.\" >&2")
  }

  function RepairLine(): Line {
    Glue("        echo \"Run:", " commitguard doctor", "   (reinstall hooks", " with: commitguard", " install)\" >&2")
  }

  function RefuseLine(): Line {
    "        return 2"
  }

  function EndTestLine(): Line {
    "    fi"
  }

  function EndRunLine(): Line {
    "}"
  }

  function ReadInputLine(): Line {
    Glue("commitguard_stdin=$(cat;", " echo .)")
  }

  function TrimInputLine(): Line {
    Glue("commitguard_stdin=${", "commitguard_stdin%.}")
  }

  function RunWithInputLine(): Line {
    Glue("printf '%s'", " \"$commitguard_stdin\"", " | commitguard_run", " \"$@\" || exit $?")
  }

  function TestChainedLine(): Line {
    Glue("if [ -x", " \"$commitguard_chained\"", " ]; then")
  }

  function ChainedWithInputLine(): Line {
    Glue("    printf '%s'", " \"$commitguard_stdin\"", " |", " \"$commitguard_chained\"", " \"$@\" || exit $?")
  }

  function EndIfLine(): Line {
    "fi"
  }

  function RunPlainLine(): Line {
    Glue("commitguard_run \"$@\"", " || exit $?")
  }

  function ChainedPlainLine(): Line {
    Glue("    \"$commitguard_chained\"", " \"$@\" || exit $?")
  }
}
