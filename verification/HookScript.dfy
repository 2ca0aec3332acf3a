/** The shipped text of the wrapper is harmless to the parser of managed blocks. */
module HookScript {
  import opened Wrappers
  import opened Replacement
  import opened HookText
  import opened HookBlock
  import opened ScriptLines

  lemma NotSpecial(line: string)
    requires HarmlessStart(line)
    ensures line != BEGIN_MARKER && line != END_MARKER
    ensures !StartsWith(line, CHECKSUM_PREFIX) && !StartsWith(line, HOOK_PREFIX) && !StartsWith(line, PYTHON_PREFIX)
  {
    NotPrefixed(line, BEGIN_MARKER);
    NotPrefixed(line, END_MARKER);
    NotPrefixed(line, CHECKSUM_PREFIX);
    NotPrefixed(line, HOOK_PREFIX);
    NotPrefixed(line, PYTHON_PREFIX);
  }

  lemma NotPrefixed(line: string, prefix: string)
    requires HarmlessStart(line)
    requires
      || (|prefix| > 2 && prefix[0] == '#' && (prefix[2] == 'B' || prefix[2] == 'E' || prefix[2] == 'c'))
      || (|prefix| > 12 && prefix[0] == 'c' && prefix[12] == 'p')
    ensures line != prefix && !StartsWith(line, prefix)
  {
    if |prefix| <= |line| {
      assert line[..|prefix|][0] == line[0] && line[..|prefix|][2] == line[2];
      assert |prefix| > 12 ==> line[..|prefix|][12] == line[12];
    }
  }

  lemma LineIsPlain(line: Line)
    ensures PlainLine(line)
  {
    assert Unbroken(line);
    NotSpecial(line);
  }

  // ---------------------------------------------------------------- the shipped text

  function ChainedLine(hook: HookType): Line {
    NamesArePlain(hook);
    KeptHookLine(NameOf(hook))
  }

  function Notice(): seq<Line> {
    [ManagedLine(), DetectedLine(), RemovedLine()]
  }

  function RunLines(): seq<Line> {
    [RunLine(), TestPythonLine(), WithPythonLine(), TestCommandLine(), WithCommandLine(), OtherwiseLine(), NotAvailableLine(),
     NotExecutedLine(), BlockedLine(), RepairLine(), RefuseLine(), EndTestLine(), EndRunLine()]
  }

  /** Before a push the reference updates on standard input must reach both programs. */
  function LastLines(hook: HookType): seq<Line> {
    if hook == PrePush then
      [ReadInputLine(), TrimInputLine(), RunWithInputLine(), TestChainedLine(), ChainedWithInputLine(), EndIfLine()]
    else
      [RunPlainLine(), TestChainedLine(), ChainedPlainLine(), EndIfLine()]
  }

  function Script(hook: HookType): seq<string> {
    [ChainedLine(hook), ""] + RunLines() + [""] + LastLines(hook)
  }

  function Shipped(sha256: string -> string): Wrapper {
    Wrapper(Notice(), Script, sha256)
  }

  // ---------------------------------------------------------------- its lines are harmless

  lemma EmptyIsPlain()
    ensures PlainLine("")
  {
  }

  lemma LinesArePlain(lines: seq<Line>)
    ensures forall i :: 0 <= i < |lines| ==> PlainLine(lines[i])
  {
    forall i | 0 <= i < |lines|
      ensures PlainLine(lines[i])
    {
      LineIsPlain(lines[i]);
    }
  }

  lemma ScriptIsPlain(hook: HookType, i: nat)
    requires i < |Script(hook)|
    ensures PlainLine(Script(hook)[i])
  {
    hide PlainLine, RunLines, LastLines, ChainedLine;
    EmptyIsPlain();
    LineIsPlain(ChainedLine(hook));
    LinesArePlain(RunLines());
    LinesArePlain(LastLines(hook));
  }

  /** The text shipped with the program meets everything the block format asks of a wrapper. */
  lemma ShippedIsValid(sha256: string -> string)
    requires forall text :: OneLine(sha256(text))
    ensures ValidWrapper(Shipped(sha256))
  {
    hide PlainLine, Notice, RunLines, LastLines, ChainedLine, Script;
    LinesArePlain(Notice());
    var w := Shipped(sha256);
    forall hook, i | 0 <= i < |w.script(hook)|
      ensures PlainLine(w.script(hook)[i])
    {
      ScriptIsPlain(hook, i);
    }
  }
}
