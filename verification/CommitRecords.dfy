/**
 Framing of `git log` output: records separated by a random boundary between
 NULs, fields separated by NULs with the free-form message last.
 */
module CommitRecords {
  import opened Wrappers
  import opened Replacement

  const NUL: char := 0 as char
  const HEADER_FIELDS: nat := 8
  const READ_BATCH_SIZE: nat := 256

  /** The eight structured fields, the commit ID first, and the message. */
  datatype Commit = Commit(header: seq<string>, message: string)

  datatype ReadError = UnsafeInput | GitFailed | LeadingData | WrongCount | WrongShape | WrongCommit

  // ---------------------------------------------------------------- what git writes

  ghost predicate WellShaped(c: Commit) {
    |c.header| == HEADER_FIELDS && forall i :: 0 <= i < HEADER_FIELDS ==> NUL !in c.header[i]
  }

  /** Fields, each followed by a NUL, and then the message. */
  function Record(header: seq<string>, message: string): string {
    if header == [] then message else header[0] + [NUL] + Record(header[1..], message)
  }

  function Separator(boundary: string): string {
    [NUL] + boundary + [NUL]
  }

  /** Each record after its separator; all but the last may be followed by a newline. */
  function Assemble(boundary: string, commits: seq<Commit>, breaks: seq<bool>): string
    requires |commits| == |breaks|
  {
    if commits == [] then ""
    else
      Separator(boundary) + Record(commits[0].header, commits[0].message) + (if breaks[0] then "\n" else "")
      + Assemble(boundary, commits[1..], breaks[1..])
  }

  function BetweenRecords(n: nat): (breaks: seq<bool>)
    ensures |breaks| == n && forall i :: 0 <= i < n ==> breaks[i] == (i < n - 1)
  {
    seq(n, i => i < n - 1)
  }

  /** The output of `git log --pretty=format:` for these commits. */
  function LogOutput(boundary: string, commits: seq<Commit>): string {
    Assemble(boundary, commits, BetweenRecords(|commits|))
  }

  // ---------------------------------------------------------------- splitting

  /** `text.split(separator)` */
  function SplitOn(text: string, separator: string): (parts: seq<string>)
    requires separator != ""
    ensures parts != []
  {
    if text == "" then [""]
    else if StartsWith(text, separator) then [""] + SplitOn(text[|separator|..], separator)
    else
      var rest := SplitOn(text[1..], separator);
      [[text[0]] + rest[0]] + rest[1..]
  }

  /** `text.split("\0", n)`: at most n cuts. */
  function SplitFields(text: string, n: nat): (parts: seq<string>)
    ensures parts != [] && |parts| <= n + 1
  {
    if n == 0 || text == "" then [text]
    else if text[0] == NUL then [""] + SplitFields(text[1..], n - 1)
    else
      var rest := SplitFields(text[1..], n);
      [[text[0]] + rest[0]] + rest[1..]
  }

  /** `record.removesuffix("\n")` */
  function WithoutNewline(record: string): string {
    if record != "" && record[|record| - 1] == '\n' then record[..|record| - 1] else record
  }

  predicate IsBlank(text: string) {
    forall c :: c in text ==> c in [' ', '\t', '\n', '\r', 11 as char, 12 as char]
  }

  /** `_parse_commit_record`, up to the interpretation of dates and identities. */
  function ParseRecord(raw: string, expected: string): Result<Commit, ReadError> {
    var fields := SplitFields(raw, HEADER_FIELDS);
    if |fields| != HEADER_FIELDS + 1 then Err(WrongShape)
    else if fields[0] != expected then Err(WrongCommit)
    else Ok(Commit(fields[..HEADER_FIELDS], fields[HEADER_FIELDS]))
  }

  function ParseRecords(records: seq<string>, shas: seq<string>): (r: Result<seq<Commit>, ReadError>)
    requires |records| == |shas|
    ensures r.Ok? ==> |r.value| == |shas|
  {
    if records == [] then Ok([])
    else
      var first := ParseRecord(if |records| > 1 then WithoutNewline(records[0]) else records[0], shas[0]);
      if first.Err? then Err(first.error)
      else
        var rest := ParseRecords(records[1..], shas[1..]);
        if rest.Err? then rest else Ok([first.value] + rest.value)
  }

  /** `_read_batch` on the output of git. */
  function ReadBatch(output: string, boundary: string, shas: seq<string>): (r: Result<seq<Commit>, ReadError>)
    ensures r.Ok? ==> |r.value| == |shas|
  {
    var parts := SplitOn(output, Separator(boundary));
    if !IsBlank(parts[0]) then Err(LeadingData)
    else if |parts| - 1 != |shas| then Err(WrongCount)
    else ParseRecords(parts[1..], shas)
  }

  // ---------------------------------------------------------------- fields come back

  lemma {:induction false} FieldThenRest(field: string, rest: string, n: nat)
    requires NUL !in field && n > 0
    ensures SplitFields(field + [NUL] + rest, n) == [field] + SplitFields(rest, n - 1)
  {
    var text := field + [NUL] + rest;
    if field == "" {
      assert text[1..] == rest;
    } else {
      assert forall c :: c in field[1..] ==> c in field;
      assert text[0] == field[0] && text[1..] == field[1..] + [NUL] + rest;
      FieldThenRest(field[1..], rest, n);
      assert field == [field[0]] + field[1..];
    }
  }

  lemma {:induction false} FieldsComeBack(header: seq<string>, message: string)
    requires forall i :: 0 <= i < |header| ==> NUL !in header[i]
    ensures SplitFields(Record(header, message), |header|) == header + [message]
  {
    if header != [] {
      FieldThenRest(header[0], Record(header[1..], message), |header|);
      FieldsComeBack(header[1..], message);
    }
  }

  /** A record's text parses to its commit, whatever the message contains. */
  lemma RecordComesBack(c: Commit)
    requires WellShaped(c)
    ensures ParseRecord(Record(c.header, c.message), c.header[0]) == Ok(c)
  {
    FieldsComeBack(c.header, c.message);
  }

  // ---------------------------------------------------------------- records come back

  ghost predicate ValidBoundary(boundary: string) {
    boundary != "" && NUL !in boundary && '\n' !in boundary
  }

  /** Where a separator starts, the boundary is one further. */
  lemma BoundaryInSeparator(text: string, boundary: string, i: nat)
    requires i <= |text|
    ensures StartsWith(text[i..], Separator(boundary)) ==> OccursAt(text, boundary, i + 1)
  {
    var sep := Separator(boundary);
    if StartsWith(text[i..], sep) {
      assert text[i + 1..i + 1 + |boundary|] == text[i..][..|sep|][1..1 + |boundary|] == boundary;
    }
  }

  lemma CharOfOccurrence(text: string, part: string, p: nat, k: nat)
    requires OccursAt(text, part, p) && p <= k < p + |part|
    ensures text[k] in part
  {
    assert text[k] == text[p..p + |part|][k - p];
  }

  /** An occurrence of the boundary cannot reach the newline or the next separator, so it is inside the record. */
  lemma OccursInside(record: string, newline: string, boundary: string, rest: string, p: nat)
    requires ValidBoundary(boundary) && newline in ["", "\n"] && p <= |record + newline|
    ensures OccursAt(record + newline + Separator(boundary) + rest, boundary, p) ==> OccursAt(record, boundary, p)
  {
    var data := record + newline;
    var text := data + Separator(boundary) + rest;
    assert text[|data|] == NUL && (newline != "" ==> text[|record|] == '\n');
    if OccursAt(text, boundary, p) {
      if |data| < p + |boundary| {
        CharOfOccurrence(text, boundary, p, |data|);
      } else if |record| < p + |boundary| {
        CharOfOccurrence(text, boundary, p, |record|);
      } else {
        assert record[p..p + |boundary|] == text[p..p + |boundary|];
      }
    }
  }

  /** The separator starts nowhere inside a record that does not contain the boundary. */
  lemma NoEarlierSeparator(record: string, newline: string, boundary: string, rest: string, i: nat)
    requires ValidBoundary(boundary) && !Contains(record, boundary) && newline in ["", "\n"]
    requires i < |record + newline|
    ensures !StartsWith((record + newline + Separator(boundary) + rest)[i..], Separator(boundary))
  {
    hide StartsWith, OccursAt;
    BoundaryInSeparator(record + newline + Separator(boundary) + rest, boundary, i);
    OccursInside(record, newline, boundary, rest, i + 1);
  }

  lemma {:induction false} SplitAtSeparator(data: string, separator: string, rest: string)
    requires separator != ""
    requires forall i :: 0 <= i < |data| ==> !StartsWith((data + separator + rest)[i..], separator)
    ensures SplitOn(data + separator + rest, separator) == [data] + SplitOn(rest, separator)
  {
    var text := data + separator + rest;
    if data == "" {
      assert text == separator + rest && text[..|separator|] == separator && text[|separator|..] == rest;
    } else {
      assert text[0..] == text && !StartsWith(text, separator);
      assert text[1..] == data[1..] + separator + rest;
      forall i | 0 <= i < |data[1..]|
        ensures !StartsWith((data[1..] + separator + rest)[i..], separator)
      {
        assert (data[1..] + separator + rest)[i..] == text[i + 1..];
      }
      SplitAtSeparator(data[1..], separator, rest);
      assert data == [data[0]] + data[1..];
    }
  }

  lemma {:induction false} SplitNowhere(data: string, separator: string)
    requires separator != ""
    requires forall i :: 0 <= i < |data| ==> !StartsWith(data[i..], separator)
    ensures SplitOn(data, separator) == [data]
  {
    if data != "" {
      assert data[0..] == data;
      forall i | 0 <= i < |data[1..]|
        ensures !StartsWith(data[1..][i..], separator)
      {
        assert data[1..][i..] == data[i + 1..];
      }
      SplitNowhere(data[1..], separator);
      assert data == [data[0]] + data[1..];
    }
  }

  lemma NoSeparatorInside(record: string, boundary: string, i: nat)
    requires !Contains(record, boundary) && i < |record|
    ensures !StartsWith(record[i..], Separator(boundary))
  {
    hide StartsWith, OccursAt;
    BoundaryInSeparator(record, boundary, i);
  }

  /** What follows the first separator, split at the others. */
  function Pieces(commits: seq<Commit>): seq<string> {
    if commits == [] then []
    else [Record(commits[0].header, commits[0].message) + if |commits| > 1 then "\n" else ""] + Pieces(commits[1..])
  }

  ghost predicate FreeOf(boundary: string, commits: seq<Commit>) {
    forall i :: 0 <= i < |commits| ==> !Contains(Record(commits[i].header, commits[i].message), boundary)
  }

  /** The output after its first separator. */
  function Rest(boundary: string, commits: seq<Commit>): string
    requires commits != []
  {
    Record(commits[0].header, commits[0].message) + (if |commits| > 1 then "\n" + LogOutput(boundary, commits[1..]) else "")
  }

  lemma OutputStarts(boundary: string, commits: seq<Commit>)
    requires commits != []
    ensures LogOutput(boundary, commits) == Separator(boundary) + Rest(boundary, commits)
  {
    var n := |commits|;
    var breaks := BetweenRecords(n);
    assert breaks[1..] == BetweenRecords(n - 1);
    var record, tail := Record(commits[0].header, commits[0].message), LogOutput(boundary, commits[1..]);
    if n > 1 {
      assert Separator(boundary) + record + "\n" + tail == Separator(boundary) + (record + ("\n" + tail));
    } else {
      assert commits[1..] == [] && tail == "";
      assert Separator(boundary) + record + "" + "" == Separator(boundary) + (record + "");
    }
  }

  lemma {:induction false} RestSplits(boundary: string, commits: seq<Commit>)
    requires ValidBoundary(boundary) && FreeOf(boundary, commits) && commits != []
    ensures SplitOn(Rest(boundary, commits), Separator(boundary)) == Pieces(commits)
  {
    hide Contains, Record, Separator, SplitOn, StartsWith, LogOutput;
    var record, sep := Record(commits[0].header, commits[0].message), Separator(boundary);
    SeparatorIsNonempty(boundary);
    if |commits| == 1 {
      assert commits[1..] == [];
      assert record + "" == record;
      forall i | 0 <= i < |record|
        ensures !StartsWith(record[i..], sep)
      {
        NoSeparatorInside(record, boundary, i);
      }
      SplitNowhere(record, sep);
    } else {
      var rest := Rest(boundary, commits[1..]);
      OutputStarts(boundary, commits[1..]);
      assert Rest(boundary, commits) == record + "\n" + sep + rest;
      forall i | 0 <= i < |record + "\n"|
        ensures !StartsWith((record + "\n" + sep + rest)[i..], sep)
      {
        NoEarlierSeparator(record, "\n", boundary, rest, i);
      }
      SplitAtSeparator(record + "\n", sep, rest);
      RestSplits(boundary, commits[1..]);
    }
  }

  lemma SeparatorIsNonempty(boundary: string)
    ensures Separator(boundary) != ""
  {
  }

  ghost predicate Named(commits: seq<Commit>, shas: seq<string>) {
    |commits| == |shas| && forall i :: 0 <= i < |commits| ==> WellShaped(commits[i]) && commits[i].header[0] == shas[i]
  }

  lemma {:induction false} PiecesParse(commits: seq<Commit>, shas: seq<string>)
    requires Named(commits, shas)
    ensures |Pieces(commits)| == |commits| && ParseRecords(Pieces(commits), shas) == Ok(commits)
  {
    if commits != [] {
      hide Record, ParseRecord, WellShaped;
      var c := commits[0];
      var record := Record(c.header, c.message);
      RecordComesBack(c);
      PiecesParse(commits[1..], shas[1..]);
      assert WithoutNewline(record + "\n") == record;
      assert record + "" == record;
      assert Pieces(commits)[1..] == Pieces(commits[1..]);
      assert [c] + commits[1..] == commits;
    }
  }

  /** Git's output splits into nothing and one piece per commit. */
  lemma LogSplits(boundary: string, commits: seq<Commit>)
    requires ValidBoundary(boundary) && FreeOf(boundary, commits)
    ensures Separator(boundary) != "" && SplitOn(LogOutput(boundary, commits), Separator(boundary)) == [""] + Pieces(commits)
    ensures |Pieces(commits)| == |commits|
  {
    hide SplitOn, LogOutput, FreeOf, Record;
    SeparatorIsNonempty(boundary);
    PiecesCount(commits);
    if commits == [] {
      EmptyOutput(boundary);
    } else {
      OutputStarts(boundary, commits);
      SplitsAtStart(Separator(boundary), Rest(boundary, commits));
      RestSplits(boundary, commits);
    }
  }

  lemma {:induction false} PiecesCount(commits: seq<Commit>)
    ensures |Pieces(commits)| == |commits|
  {
    hide Record;
    if commits != [] {
      PiecesCount(commits[1..]);
    }
  }

  /** If git prints another number of records than were asked for, the batch is refused. */
  lemma OtherCountIsRefused(boundary: string, commits: seq<Commit>, shas: seq<string>)
    requires ValidBoundary(boundary) && FreeOf(boundary, commits) && |commits| != |shas|
    ensures ReadBatch(LogOutput(boundary, commits), boundary, shas) == Err(WrongCount)
  {
    hide SplitOn, LogOutput, FreeOf, Pieces, ParseRecords;
    LogSplits(boundary, commits);
  }

  /**
   Reading git's output gives back exactly the fields and messages of the
   requested commits, in order - also when messages contain NULs or end in newlines.
   */
  lemma ReadingUndoesLog(boundary: string, commits: seq<Commit>, shas: seq<string>)
    requires ValidBoundary(boundary) && FreeOf(boundary, commits) && Named(commits, shas)
    ensures ReadBatch(LogOutput(boundary, commits), boundary, shas) == Ok(commits)
  {
    hide SplitOn, ParseRecords, LogOutput, Named, FreeOf, Pieces;
    PiecesParse(commits, shas);
    LogSplits(boundary, commits);
    assert ([""] + Pieces(commits))[1..] == Pieces(commits);
    NamedLength(commits, shas);
  }

  lemma NamedLength(commits: seq<Commit>, shas: seq<string>)
    requires Named(commits, shas)
    ensures |commits| == |shas|
  {
  }

  lemma EmptyOutput(boundary: string)
    ensures LogOutput(boundary, []) == "" && Separator(boundary) != "" && SplitOn("", Separator(boundary)) == [""]
    ensures Pieces([]) == []
  {
    SeparatorIsNonempty(boundary);
    SplitNowhere("", Separator(boundary));
  }

  lemma SplitsAtStart(separator: string, rest: string)
    requires separator != ""
    ensures SplitOn(separator + rest, separator) == [""] + SplitOn(rest, separator)
  {
    var text := separator + rest;
    assert text[..|separator|] == separator && text[|separator|..] == rest;
  }

  // ---------------------------------------------------------------- and nothing else is accepted

  function JoinWith(parts: seq<string>, separator: string): string {
    if parts == [] then "" else if |parts| == 1 then parts[0] else parts[0] + separator + JoinWith(parts[1..], separator)
  }

  lemma {:induction false} JoinUndoesSplit(text: string, separator: string)
    requires separator != ""
    ensures JoinWith(SplitOn(text, separator), separator) == text
  {
    if text != "" {
      if StartsWith(text, separator) {
        JoinUndoesSplit(text[|separator|..], separator);
        var rest := SplitOn(text[|separator|..], separator);
        assert ([""] + rest)[1..] == rest;
        assert text == separator + text[|separator|..];
        assert "" + separator + JoinWith(rest, separator) == text;
      } else {
        JoinUndoesSplit(text[1..], separator);
        PrependFirst(SplitOn(text[1..], separator), text[0], separator);
        assert text == [text[0]] + text[1..];
      }
    }
  }

  lemma PrependFirst(parts: seq<string>, c: char, separator: string)
    requires parts != []
    ensures JoinWith([[c] + parts[0]] + parts[1..], separator) == [c] + JoinWith(parts, separator)
  {
    var all := [[c] + parts[0]] + parts[1..];
    assert all[1..] == parts[1..];
    if |parts| > 1 {
      assert [c] + (parts[0] + separator + JoinWith(parts[1..], separator)) == [c] + parts[0] + separator + JoinWith(parts[1..], separator);
    }
  }

  lemma RecordFirst(field: string, fields: seq<string>, message: string)
    ensures Record([field] + fields, message) == field + [NUL] + Record(fields, message)
  {
    assert ([field] + fields)[1..] == fields;
  }

  lemma {:induction false} FieldsRejoin(text: string, n: nat)
    requires |SplitFields(text, n)| == n + 1
    ensures Record(SplitFields(text, n)[..n], SplitFields(text, n)[n]) == text
    ensures forall i :: 0 <= i < n ==> NUL !in SplitFields(text, n)[i]
  {
    hide Record;
    var fields := SplitFields(text, n);
    if n == 0 {
      NoFields(text);
      assert fields[..0] == [];
    } else if text[0] == NUL {
      var rest := SplitFields(text[1..], n - 1);
      FieldsRejoin(text[1..], n - 1);
      assert fields[..n] == [""] + rest[..n - 1] && fields[n] == rest[n - 1];
      RecordFirst("", rest[..n - 1], rest[n - 1]);
      assert text == "" + [NUL] + text[1..];
    } else {
      var rest := SplitFields(text[1..], n);
      FieldsRejoin(text[1..], n);
      assert rest[..n] == [rest[0]] + rest[1..n];
      assert fields[..n] == [[text[0]] + rest[0]] + rest[1..n] && fields[n] == rest[n];
      RecordFirst(rest[0], rest[1..n], rest[n]);
      RecordFirst([text[0]] + rest[0], rest[1..n], rest[n]);
      Prepend(text[0], rest[0], Record(rest[1..n], rest[n]), text);
    }
  }

  lemma NoFields(text: string)
    ensures SplitFields(text, 0) == [text] && Record([], text) == text
  {
  }

  lemma Prepend(c: char, field: string, rest: string, text: string)
    requires text != "" && text[0] == c && text[1..] == field + [NUL] + rest
    ensures ([c] + field) + [NUL] + rest == text
  {
    assert text == [c] + text[1..];
  }

  /** An accepted record is its commit's text, under the expected ID. */
  lemma AcceptedRecord(raw: string, expected: string)
    requires ParseRecord(raw, expected).Ok?
    ensures
      var c := ParseRecord(raw, expected).value;
      WellShaped(c) && c.header[0] == expected && Record(c.header, c.message) == raw
  {
    FieldsRejoin(raw, HEADER_FIELDS);
  }


  lemma NothingAssembled(boundary: string)
    ensures AreAssembled(boundary, [], [])
  {
    assert [""] + [] == [""];
    assert JoinWith([""] + [], Separator(boundary)) == "" == Assemble(boundary, [], []);
  }

  /** The pieces after the first separator are these commits with these newlines between them. */
  ghost predicate AreAssembled(boundary: string, records: seq<string>, commits: seq<Commit>) {
    exists breaks :: |breaks| == |commits| && JoinWith([""] + records, Separator(boundary)) == Assemble(boundary, commits, breaks)
  }

  lemma OneMoreRecord(boundary: string, records: seq<string>, commits: seq<Commit>, ended: bool)
    requires records != [] && commits != [] && AreAssembled(boundary, records[1..], commits[1..])
    requires records[0] == Record(commits[0].header, commits[0].message) + if ended then "\n" else ""
    ensures AreAssembled(boundary, records, commits)
  {
    hide Separator, Assemble, JoinWith, Record;
    var breaks :| |breaks| == |commits| - 1
      && JoinWith([""] + records[1..], Separator(boundary)) == Assemble(boundary, commits[1..], breaks);
    JoinStep(records, Separator(boundary));
    AssembleStep(boundary, commits, ended, breaks);
  }

  lemma {:induction false} AcceptedRecords(boundary: string, records: seq<string>, shas: seq<string>)
    requires |records| == |shas| && ParseRecords(records, shas).Ok?
    ensures Named(ParseRecords(records, shas).value, shas) && AreAssembled(boundary, records, ParseRecords(records, shas).value)
  {
    hide Separator, ParseRecord, WellShaped, Assemble, JoinWith, Record, AreAssembled;
    var commits := ParseRecords(records, shas).value;
    if records == [] {
      NothingAssembled(boundary);
    } else {
      var trimmed := if |records| > 1 then WithoutNewline(records[0]) else records[0];
      AcceptedRecord(trimmed, shas[0]);
      AcceptedRecords(boundary, records[1..], shas[1..]);
      assert commits == [commits[0]] + commits[1..];
      assert records[0] == trimmed + if trimmed != records[0] then "\n" else "";
      OneMoreRecord(boundary, records, commits, trimmed != records[0]);
    }
  }

  lemma JoinCons(first: string, rest: seq<string>, separator: string)
    requires rest != []
    ensures JoinWith([first] + rest, separator) == first + separator + JoinWith(rest, separator)
  {
    assert ([first] + rest)[1..] == rest;
  }

  lemma JoinOne(first: string, separator: string)
    ensures JoinWith([first], separator) == first
  {
  }

  lemma JoinStep(records: seq<string>, separator: string)
    requires records != []
    ensures JoinWith([""] + records, separator) == separator + records[0] + JoinWith([""] + records[1..], separator)
  {
    hide JoinWith;
    var first, rest := records[0], records[1..];
    assert records == [first] + rest;
    JoinCons("", records, separator);
    if rest == [] {
      assert records == [first] && [""] + rest == [""];
      JoinOne(first, separator);
      JoinOne("", separator);
    } else {
      JoinCons(first, rest, separator);
      JoinCons("", rest, separator);
    }
  }

  lemma AssembleStep(boundary: string, commits: seq<Commit>, ended: bool, breaks: seq<bool>)
    requires commits != [] && |breaks| == |commits| - 1
    ensures Assemble(boundary, commits, [ended] + breaks)
            == Separator(boundary) + (Record(commits[0].header, commits[0].message) + if ended then "\n" else "")
               + Assemble(boundary, commits[1..], breaks)
  {
    hide Record, Separator;
    var all := [ended] + breaks;
    assert all[1..] == breaks && all[0] == ended;
    var sep, record, tail := Separator(boundary), Record(commits[0].header, commits[0].message), Assemble(boundary, commits[1..], breaks);
    var newline := if ended then "\n" else "";
    assert Assemble(boundary, commits, all) == sep + record + newline + tail;
    assert sep + record + newline == sep + (record + newline);
  }

  lemma JoinLead(parts: seq<string>, separator: string)
    requires parts != []
    ensures JoinWith(parts, separator) == parts[0] + JoinWith([""] + parts[1..], separator)
  {
    assert ([""] + parts[1..])[1..] == parts[1..];
  }

  /**
   Output is accepted only if it holds as many records as were asked for, each
   under the requested ID; apart from blank leading data and newlines between
   records, every byte of it is in the returned commits.
   */
  lemma AcceptedOutput(output: string, boundary: string, shas: seq<string>)
    requires ReadBatch(output, boundary, shas).Ok?
    ensures
      var commits := ReadBatch(output, boundary, shas).value;
      Named(commits, shas)
      && exists lead, breaks :: IsBlank(lead) && |breaks| == |commits| && output == lead + Assemble(boundary, commits, breaks)
  {
    hide Separator, SplitOn, ParseRecords, Named, IsBlank;
    SeparatorIsNonempty(boundary);
    var parts := SplitOn(output, Separator(boundary));
    var commits := ReadBatch(output, boundary, shas).value;
    JoinUndoesSplit(output, Separator(boundary));
    JoinLead(parts, Separator(boundary));
    AcceptedRecords(boundary, parts[1..], shas);
    var breaks :| |breaks| == |commits| && JoinWith([""] + parts[1..], Separator(boundary)) == Assemble(boundary, commits, breaks);
    assert output == parts[0] + Assemble(boundary, commits, breaks);
  }

  // ---------------------------------------------------------------- reading in batches

  function CommitsOf(repository: map<string, Commit>, shas: seq<string>): (commits: seq<Commit>)
    requires forall i :: 0 <= i < |shas| ==> shas[i] in repository
    ensures |commits| == |shas| && forall i :: 0 <= i < |shas| ==> commits[i] == repository[shas[i]]
  {
    if shas == [] then [] else CommitsOf(repository, shas[..|shas| - 1]) + [repository[shas[|shas| - 1]]]
  }

  ghost predicate ValidRepository(repository: map<string, Commit>) {
    forall sha :: sha in repository ==> WellShaped(repository[sha]) && repository[sha].header[0] == sha
  }

  ghost predicate Unpredicted(repository: map<string, Commit>, boundary: string) {
    ValidBoundary(boundary)
    && forall sha :: sha in repository ==> !Contains(Record(repository[sha].header, repository[sha].message), boundary)
  }

  /** `is_git_sha`: a full lower-case SHA-1 or SHA-256 object ID. */
  predicate IsSha(text: string) {
    (|text| == 40 || |text| == 64) && forall c :: c in text ==> '0' <= c <= '9' || 'a' <= c <= 'f'
  }

  const HEX_DIGITS := "0123456789abcdef"

  /** Twenty or thirty-two bytes, each as two hexadecimal digits. */
  lemma ShaIff(text: string)
    ensures IsSha(text) <==> |text| in {2 * 20, 2 * 32} && forall i :: 0 <= i < |text| ==> text[i] in HEX_DIGITS
  {
    forall i | 0 <= i < |text|
      ensures '0' <= text[i] <= '9' || 'a' <= text[i] <= 'f' <==> text[i] in HEX_DIGITS
    {
      HexDigit(text[i]);
    }
    assert forall i :: 0 <= i < |text| ==> text[i] in text;
  }

  lemma HexDigit(c: char)
    ensures '0' <= c <= '9' || 'a' <= c <= 'f' <==> c in HEX_DIGITS
  {
  }

  /** Git prints a commit that is named twice only the first time. */
  function Unique(shas: seq<string>): seq<string> {
    if shas == [] then []
    else
      var rest, last := Unique(shas[..|shas| - 1]), shas[|shas| - 1];
      if last in rest then rest else rest + [last]
  }

  predicate Distinct(shas: seq<string>) {
    forall i, j :: 0 <= i < j < |shas| ==> shas[i] != shas[j]
  }

  lemma {:induction false} UniqueIsPart(shas: seq<string>)
    ensures forall sha :: sha in Unique(shas) <==> sha in shas
    ensures |Unique(shas)| <= |shas|
  {
    if shas != [] {
      UniqueIsPart(shas[..|shas| - 1]);
      assert shas == shas[..|shas| - 1] + [shas[|shas| - 1]];
    }
  }

  /** Nothing is left out exactly when nothing is repeated. */
  lemma {:induction false} UniqueIfDistinct(shas: seq<string>)
    ensures Distinct(shas) ==> Unique(shas) == shas
    ensures !Distinct(shas) ==> |Unique(shas)| < |shas|
  {
    if shas != [] {
      var rest, last := shas[..|shas| - 1], shas[|shas| - 1];
      assert shas == rest + [last];
      UniqueIfDistinct(rest);
      UniqueIsPart(rest);
      if last in rest {
        var i :| 0 <= i < |rest| && rest[i] == last;
        assert shas[i] == shas[|shas| - 1];
      }
    }
  }

  /** `git log --no-walk=unsorted` on these IDs: it fails if the repository lacks one of them. */
  function RunGit(repository: map<string, Commit>, boundary: string, shas: seq<string>): Option<string> {
    if forall i :: 0 <= i < |shas| ==> shas[i] in repository then
      UniqueKnown(repository, shas);
      Some(LogOutput(boundary, CommitsOf(repository, Unique(shas))))
    else None
  }

  lemma UniqueKnown(repository: map<string, Commit>, shas: seq<string>)
    requires forall i :: 0 <= i < |shas| ==> shas[i] in repository
    ensures forall i :: 0 <= i < |Unique(shas)| ==> Unique(shas)[i] in repository
  {
    UniqueIsPart(shas);
    forall i | 0 <= i < |Unique(shas)|
      ensures Unique(shas)[i] in repository
    {
      assert Unique(shas)[i] in shas;
    }
  }

  /** One batch. */
  function ReadOne(repository: map<string, Commit>, boundary: string, shas: seq<string>): (r: Result<seq<Commit>, ReadError>)
    ensures r.Ok? ==> |r.value| == |shas|
  {
    var printed := RunGit(repository, boundary, shas);
    if printed.None? then Err(GitFailed) else ReadBatch(printed.value, boundary, shas)
  }

  /** A batch is read exactly when the repository has its commits and none is named twice. */
  lemma OneBatch(repository: map<string, Commit>, boundary: string, shas: seq<string>)
    requires ValidRepository(repository) && Unpredicted(repository, boundary)
    ensures
      var known := forall i :: 0 <= i < |shas| ==> shas[i] in repository;
      ReadOne(repository, boundary, shas)
      == if !known then Err(GitFailed) else if !Distinct(shas) then Err(WrongCount) else Ok(CommitsOf(repository, shas))
  {
    hide LogOutput, ReadBatch, CommitsOf, Unique;
    if forall i :: 0 <= i < |shas| ==> shas[i] in repository {
      UniqueIfDistinct(shas);
      UniqueKnown(repository, shas);
      if Distinct(shas) {
        BatchIsRead(repository, boundary, shas);
      } else {
        AllFree(repository, boundary, Unique(shas));
        OtherCountIsRefused(boundary, CommitsOf(repository, Unique(shas)), shas);
      }
    }
  }

  lemma AllFree(repository: map<string, Commit>, boundary: string, shas: seq<string>)
    requires Unpredicted(repository, boundary) && forall i :: 0 <= i < |shas| ==> shas[i] in repository
    ensures ValidBoundary(boundary) && FreeOf(boundary, CommitsOf(repository, shas)) && |CommitsOf(repository, shas)| == |shas|
  {
  }

  lemma BatchIsRead(repository: map<string, Commit>, boundary: string, shas: seq<string>)
    requires ValidRepository(repository) && Unpredicted(repository, boundary)
    requires forall i :: 0 <= i < |shas| ==> shas[i] in repository
    ensures ReadBatch(LogOutput(boundary, CommitsOf(repository, shas)), boundary, shas) == Ok(CommitsOf(repository, shas))
  {
    ReadingUndoesLog(boundary, CommitsOf(repository, shas), shas);
  }

  /** The end of the batch that begins at `start`. */
  function BatchEnd(shas: seq<string>, start: nat): nat {
    if start + READ_BATCH_SIZE < |shas| then start + READ_BATCH_SIZE else |shas|
  }

  /** Everything before `end` exists, and no batch before it names a commit twice. */
  ghost predicate Readable(repository: map<string, Commit>, shas: seq<string>, end: nat)
    requires end <= |shas|
  {
    && (forall i :: 0 <= i < end ==> shas[i] in repository)
    && (forall i, j :: 0 <= i < j < end && i / READ_BATCH_SIZE == j / READ_BATCH_SIZE ==> shas[i] != shas[j])
  }

  /** The first batch that cannot be read decides the error. */
  ghost predicate Fault(repository: map<string, Commit>, shas: seq<string>, start: nat, error: ReadError)
    requires start < |shas|
  {
    && start % READ_BATCH_SIZE == 0 && Readable(repository, shas, start)
    && error == (if exists i :: start <= i < BatchEnd(shas, start) && shas[i] !in repository then GitFailed else WrongCount)
    && !Readable(repository, shas, BatchEnd(shas, start))
  }

  lemma BatchReadable(repository: map<string, Commit>, shas: seq<string>, start: nat)
    requires start < |shas| && start % READ_BATCH_SIZE == 0 && Readable(repository, shas, start)
    ensures
      var requested := shas[start..BatchEnd(shas, start)];
      var known := forall i :: 0 <= i < |requested| ==> requested[i] in repository;
      && (known <==> !exists i :: start <= i < BatchEnd(shas, start) && shas[i] !in repository)
      && (Readable(repository, shas, BatchEnd(shas, start)) <==> known && Distinct(requested))
  {
    var end := BatchEnd(shas, start);
    var requested := shas[start..end];
    forall i | start <= i < end
      ensures i / READ_BATCH_SIZE == start / READ_BATCH_SIZE && shas[i] == requested[i - start]
    {
    }
    if Readable(repository, shas, end) {
      forall i, j | 0 <= i < j < |requested|
        ensures requested[i] != requested[j]
      {
        assert shas[start + i] != shas[start + j];
      }
    }
    if Distinct(requested) {
      forall i, j | 0 <= i < j < end && i / READ_BATCH_SIZE == j / READ_BATCH_SIZE
        ensures shas[i] != shas[j]
      {
        assert i < start ==> j < start;
        assert i >= start ==> requested[i - start] != requested[j - start];
      }
    }
  }

  lemma BatchAppends(repository: map<string, Commit>, shas: seq<string>, commits: seq<Commit>, end: nat, read: seq<Commit>)
    requires |commits| <= end <= |shas| && forall i :: 0 <= i < end ==> shas[i] in repository
    requires forall i :: 0 <= i < |commits| ==> commits[i] == repository[shas[i]]
    requires read == CommitsOf(repository, shas[|commits|..end])
    ensures |commits + read| == end && forall i :: 0 <= i < end ==> (commits + read)[i] == repository[shas[i]]
  {
    hide CommitsOf;
  }

  /**
   `read_commits`: batches of 256, each with a fresh boundary; the order of the
   request is kept. A request is refused at once if an entry is not a full commit
   ID; otherwise the first batch decides that names a missing commit or names one
   twice - so a commit repeated in different batches is returned twice.
   */
  method ReadCommits(repository: map<string, Commit>, boundaries: seq<string>, shas: seq<string>)
    returns (r: Result<seq<Commit>, ReadError>)
    requires ValidRepository(repository)
    requires |boundaries| >= |shas| && forall i :: 0 <= i < |boundaries| ==> Unpredicted(repository, boundaries[i])
    ensures r == Err(UnsafeInput) <==> exists i :: 0 <= i < |shas| && !IsSha(shas[i])
    ensures r.Ok? <==> (forall i :: 0 <= i < |shas| ==> IsSha(shas[i])) && Readable(repository, shas, |shas|)
    ensures r.Ok? ==> |r.value| == |shas| && forall i :: 0 <= i < |shas| ==> r.value[i] == repository[shas[i]]
    ensures r.Err? && r.error != UnsafeInput ==> exists start: nat :: start < |shas| && Fault(repository, shas, start, r.error)
  {
    hide ReadOne, CommitsOf, Unpredicted, ValidRepository, IsSha, Readable, Distinct;
    for i := 0 to |shas|
      invariant forall k :: 0 <= k < i ==> IsSha(shas[k])
    {
      if !IsSha(shas[i]) {
        return Err(UnsafeInput);
      }
    }
    var commits: seq<Commit> := [];
    var start, batch := 0, 0;
    NothingToRead(repository, shas);
    while start < |shas|
      invariant start == |commits| <= |shas| && batch <= start
      invariant start < |shas| ==> start % READ_BATCH_SIZE == 0
      invariant Readable(repository, shas, start)
      invariant forall i :: 0 <= i < |commits| ==> shas[i] in repository && commits[i] == repository[shas[i]]
    {
      var end := BatchEnd(shas, start);
      var requested := shas[start..end];
      OneBatch(repository, boundaries[batch], requested);
      BatchReadable(repository, shas, start);
      var read := ReadOne(repository, boundaries[batch], requested);
      if read.Err? {
        assert Fault(repository, shas, start, read.error);
        NotReadable(repository, shas, end);
        return Err(read.error);
      }
      ReadableIsKnown(repository, shas, end);
      BatchAppends(repository, shas, commits, end, read.value);
      commits := commits + read.value;
      start, batch := end, batch + 1;
    }
    return Ok(commits);
  }

  lemma NothingToRead(repository: map<string, Commit>, shas: seq<string>)
    ensures Readable(repository, shas, 0)
  {
  }

  lemma ReadableIsKnown(repository: map<string, Commit>, shas: seq<string>, end: nat)
    requires end <= |shas| && Readable(repository, shas, end)
    ensures forall i :: 0 <= i < end ==> shas[i] in repository
  {
  }

  lemma NotReadable(repository: map<string, Commit>, shas: seq<string>, end: nat)
    requires end <= |shas| && !Readable(repository, shas, end)
    ensures !Readable(repository, shas, |shas|)
  {
  }
}
