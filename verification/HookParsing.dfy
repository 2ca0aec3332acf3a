/** What the parser of managed blocks accepts, for every text, and what its checksum proves. */
module HookParsing {
  import opened Wrappers
  import opened Replacement
  import opened HookText
  import opened HookBlock

  // ---------------------------------------------------------------- what a line is read as

  /** Carriage returns at the end of a line do not count, and nothing else is taken away. */
  lemma {:induction false} TrimmedLine(line: string)
    ensures |TrimReturns(line)| <= |line| && line[..|TrimReturns(line)|] == TrimReturns(line)
    ensures forall i :: |TrimReturns(line)| <= i < |line| ==> line[i] == '\r'
    ensures TrimReturns(line) != "" ==> TrimReturns(line)[|TrimReturns(line)| - 1] != '\r'
  {
    if line != "" && line[|line| - 1] == '\r' {
      TrimmedLine(line[..|line| - 1]);
    }
  }

  predicate Spaces(text: string) {
    forall i :: 0 <= i < |text| ==> IsSpace(text[i])
  }

  /** `line` is `core` with white space around it. */
  predicate Around(line: string, before: string, core: string, after: string) {
    line == before + core + after && Spaces(before) && Spaces(after)
  }

  lemma SpaceInFront(line: string, before: string, core: string, after: string)
    requires line != "" && IsSpace(line[0]) && Around(line[1..], before, core, after)
    ensures Around(line, [line[0]] + before, core, after)
  {
    hide IsSpace;
    assert line == [line[0]] + line[1..];
    assert [line[0]] + (before + core + after) == [line[0]] + before + core + after;
  }

  lemma SpaceBehind(line: string, before: string, core: string, after: string)
    requires line != "" && IsSpace(line[|line| - 1]) && Around(line[..|line| - 1], before, core, after)
    ensures Around(line, before, core, after + [line[|line| - 1]])
  {
    hide IsSpace;
    assert line == line[..|line| - 1] + [line[|line| - 1]];
    assert before + core + after + [line[|line| - 1]] == before + core + (after + [line[|line| - 1]]);
  }

  /** Stripping takes away the white space at both ends, and nothing else. */
  lemma {:induction false} StrippedLine(line: string) returns (before: string, after: string)
    ensures Around(line, before, Strip(line), after)
    ensures Strip(line) != "" ==> !IsSpace(Strip(line)[0]) && !IsSpace(Strip(line)[|Strip(line)| - 1])
  {
    hide IsSpace, Around;
    if line == "" {
      before, after := "", "";
      NothingAround(line);
    } else if IsSpace(line[0]) {
      before, after := StrippedLine(line[1..]);
      SpaceInFront(line, before, Strip(line), after);
      before := [line[0]] + before;
    } else if IsSpace(line[|line| - 1]) {
      before, after := StrippedLine(line[..|line| - 1]);
      SpaceBehind(line, before, Strip(line), after);
      after := after + [line[|line| - 1]];
    } else {
      before, after := "", "";
      NothingAround(line);
    }
  }

  lemma NothingAround(line: string)
    ensures Around(line, "", line, "")
  {
    assert "" + line + "" == line;
  }

  // ---------------------------------------------------------------- which texts have a block

  predicate MarkerAt(lines: seq<string>, i: int, marker: string) {
    0 <= i < |lines| && TrimReturns(lines[i]) == marker
  }

  ghost predicate NoMarker(lines: seq<string>, marker: string) {
    forall k :: !MarkerAt(lines, k, marker)
  }

  /** Line `i` is the only one that is this marker. */
  ghost predicate OnlyMarker(lines: seq<string>, i: int, marker: string) {
    MarkerAt(lines, i, marker) && forall k :: MarkerAt(lines, k, marker) ==> k == i
  }

  lemma {:induction false} IndicesIncrease(lines: seq<string>, marker: string)
    ensures forall i, j :: 0 <= i < j < |IndicesOf(lines, marker)| ==> IndicesOf(lines, marker)[i] < IndicesOf(lines, marker)[j]
  {
    hide TrimReturns;
    if lines != [] {
      IndicesIncrease(lines[..|lines| - 1], marker);
    }
  }

  lemma EqualAndIncreasing(indices: seq<nat>, i: nat)
    requires forall m :: 0 <= m < |indices| ==> indices[m] == i
    requires forall m, n :: 0 <= m < n < |indices| ==> indices[m] < indices[n]
    ensures |indices| <= 1
  {
    if indices != [] {
      assert indices[0] == indices[|indices| - 1] == i;
    }
  }

  lemma OneIndexIff(lines: seq<string>, marker: string, i: nat)
    ensures IndicesOf(lines, marker) == [i] <==> OnlyMarker(lines, i, marker)
    ensures IndicesOf(lines, marker) == [] <==> NoMarker(lines, marker)
  {
    hide TrimReturns, IndicesOf;
    var indices := IndicesOf(lines, marker);
    IndicesAreExact(lines, marker);
    IndicesIncrease(lines, marker);
    assert forall k: nat :: k in indices <==> MarkerAt(lines, k, marker);
    if OnlyMarker(lines, i, marker) {
      assert i in indices && indices[0] in indices;
      forall m | 0 <= m < |indices|
        ensures indices[m] == i
      {
        assert indices[m] in indices;
        assert MarkerAt(lines, indices[m], marker);
      }
      EqualAndIncreasing(indices, i);
    }
    if indices != [] {
      assert indices[0] in indices;
    }
  }

  predicate BlockFound(w: Wrapper, text: string, start: nat, end: nat) {
    var parsed := ParseManagedBlock(w, text);
    parsed.Ok? && parsed.value.Some? && parsed.value.value.start == start && parsed.value.value.end == end
  }

  /**
   A text has no block if and only if it has neither marker; it has one if and only
   if it has exactly one of each, in order; everything else is corrupt.
   */
  lemma BlockIff(w: Wrapper, text: string, start: nat, end: nat)
    ensures ParseManagedBlock(w, text) == Ok(None) <==> NoMarker(Split(text), BEGIN_MARKER) && NoMarker(Split(text), END_MARKER)
    ensures BlockFound(w, text, start, end) <==>
      OnlyMarker(Split(text), start, BEGIN_MARKER) && OnlyMarker(Split(text), end, END_MARKER) && start < end
    ensures ParseManagedBlock(w, text).Err? ==> ParseManagedBlock(w, text) == Err(CorruptMarkers)
  {
    hide TrimReturns, Split, IndicesOf, ParseInner;
    var lines := Split(text);
    var begins, ends := IndicesOf(lines, BEGIN_MARKER), IndicesOf(lines, END_MARKER);
    OneIndexIff(lines, BEGIN_MARKER, start);
    OneIndexIff(lines, END_MARKER, end);
    MarkersDiffer();
    if |begins| == 1 && |ends| == 1 {
      assert begins == [begins[0]] && ends == [ends[0]];
      OneIndexIff(lines, BEGIN_MARKER, begins[0]);
      OneIndexIff(lines, END_MARKER, ends[0]);
      assert ends[0] != begins[0];
    } else {
      assert !(begins == [start] && ends == [end]);
    }
  }

  // ---------------------------------------------------------------- what a block says

  /** The lines between the markers, as the checksum sees them. */
  function LinesInside(text: string, block: Block): seq<string>
    requires block.start < block.end < |Split(text)|
  {
    TrimAll(Split(text)[block.start + 1..block.end])
  }

  lemma ParsedInner(w: Wrapper, text: string, block: Block)
    requires ParseManagedBlock(w, text) == Ok(Some(block))
    ensures block == ParseInner(w, block.start, block.end, LinesInside(text, block))
  {
    hide ParseInner, IndicesOf, TrimReturns, TrimAll;
  }

  /** The first line with the prefix decides. */
  lemma {:induction false} FirstAfterIff(lines: seq<string>, prefix: string, i: nat)
    requires i < |lines| && StartsWith(lines[i], prefix) && forall k :: 0 <= k < i ==> !StartsWith(lines[k], prefix)
    ensures FirstAfter(lines, prefix) == Some(lines[i][|prefix|..])
  {
    hide StartsWith;
    if i > 0 {
      FirstAfterIff(lines[1..], prefix, i - 1);
    }
  }

  lemma {:induction false} NoneAfter(lines: seq<string>, prefix: string)
    requires forall k :: 0 <= k < |lines| ==> !StartsWith(lines[k], prefix)
    ensures FirstAfter(lines, prefix) == None
  {
    hide StartsWith;
    if lines != [] {
      NoneAfter(lines[1..], prefix);
    }
  }

  lemma {:induction false} LinesWithSplit(lines: seq<string>, prefix: string)
    ensures forall line :: line in LinesWith(lines, prefix) <==> line in lines && StartsWith(line, prefix)
    ensures forall line :: line in LinesWithout(lines, prefix) <==> line in lines && !StartsWith(line, prefix)
    ensures |LinesWith(lines, prefix)| + |LinesWithout(lines, prefix)| == |lines|
  {
    hide StartsWith;
    if lines != [] {
      LinesWithSplit(lines[1..], prefix);
      assert lines == [lines[0]] + lines[1..];
    }
  }

  /**
   A block is intact if and only if its lines, read around one checksum line, are
   some lines `before` and `after` it with exactly the checksum it states.
   */
  lemma IntactIff(w: Wrapper, text: string, block: Block)
    requires ParseManagedBlock(w, text) == Ok(Some(block))
    ensures block.intact <==>
      exists i :: 0 <= i < |LinesInside(text, block)| && ChecksumAt(w, LinesInside(text, block), i)
  {
    hide ParseManagedBlock, LinesInside, ParseInner, StartsWith;
    ParsedInner(w, text, block);
    IntactInner(w, block.start, block.end, LinesInside(text, block));
  }

  /** Line `i` is the only checksum line, and states the checksum of all the others. */
  predicate ChecksumAt(w: Wrapper, inner: seq<string>, i: nat)
    requires i < |inner|
  {
    && (forall k :: 0 <= k < |inner| && k != i ==> !StartsWith(inner[k], CHECKSUM_PREFIX))
    && inner[i] == CHECKSUM_PREFIX + w.sha256(Join(inner[..i] + inner[i + 1..]))
  }

  lemma {:induction false} OneWith(inner: seq<string>, prefix: string)
    requires |LinesWith(inner, prefix)| == 1
    ensures exists i :: OnlyWith(inner, prefix, i)
  {
    hide StartsWith;
    if StartsWith(inner[0], prefix) {
      LinesWithSplit(inner[1..], prefix);
      assert OnlyWith(inner, prefix, 0);
    } else {
      OneWith(inner[1..], prefix);
      var i :| OnlyWith(inner[1..], prefix, i);
      assert OnlyWith(inner, prefix, i + 1);
    }
  }

  predicate OnlyWith(inner: seq<string>, prefix: string, i: int) {
    && 0 <= i < |inner| && StartsWith(inner[i], prefix)
    && forall k :: 0 <= k < |inner| && k != i ==> !StartsWith(inner[k], prefix)
  }

  lemma OnlyWithSplits(inner: seq<string>, prefix: string, i: nat)
    requires OnlyWith(inner, prefix, i)
    ensures LinesWith(inner, prefix) == [inner[i]] && LinesWithout(inner, prefix) == inner[..i] + inner[i + 1..]
  {
    hide StartsWith, LinesWith, LinesWithout;
    assert inner == inner[..i] + [inner[i]] + inner[i + 1..];
    OneLineWith(inner[..i], inner[i], inner[i + 1..], prefix);
  }

  lemma IntactInner(w: Wrapper, start: nat, end: nat, inner: seq<string>)
    ensures ParseInner(w, start, end, inner).intact <==> exists i :: 0 <= i < |inner| && ChecksumAt(w, inner, i)
  {
    hide StartsWith, LinesWith, LinesWithout, FirstAfter;
    if ParseInner(w, start, end, inner).intact {
      OneWith(inner, CHECKSUM_PREFIX);
      var i :| OnlyWith(inner, CHECKSUM_PREFIX, i);
      OnlyWithSplits(inner, CHECKSUM_PREFIX, i);
      assert ChecksumAt(w, inner, i);
    }
    if i :| 0 <= i < |inner| && ChecksumAt(w, inner, i) {
      ChecksumStarts(w, inner[..i] + inner[i + 1..]);
      assert OnlyWith(inner, CHECKSUM_PREFIX, i);
      OnlyWithSplits(inner, CHECKSUM_PREFIX, i);
    }
  }

  lemma ChecksumStarts(w: Wrapper, lines: seq<string>)
    ensures StartsWith(CHECKSUM_PREFIX + w.sha256(Join(lines)), CHECKSUM_PREFIX)
  {
  }
}
