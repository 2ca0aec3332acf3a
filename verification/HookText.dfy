/** Text as lines, and the shell quoting of the interpreter path. */
module HookText {
  import opened Wrappers
  import opened Replacement

  // ---------------------------------------------------------------- lines

  /** `text.split("\n")` */
  function Split(text: string): (lines: seq<string>)
    ensures lines != []
  {
    if text == "" then [""]
    else
      var rest := Split(text[1..]);
      if text[0] == '\n' then [""] + rest else [[text[0]] + rest[0]] + rest[1..]
  }

  /** `"\n".join(lines)` */
  function Join(lines: seq<string>): string {
    if lines == [] then ""
    else if |lines| == 1 then lines[0]
    else lines[0] + "\n" + Join(lines[1..])
  }

  lemma JoinFirst(first: string, rest: seq<string>)
    ensures Join([first] + rest) == if rest == [] then first else first + "\n" + Join(rest)
  {
    assert ([first] + rest)[1..] == rest;
  }

  lemma {:induction false} JoinSplit(text: string)
    ensures Join(Split(text)) == text
  {
    if text != "" {
      hide Join;
      var c, rest := text[0], Split(text[1..]);
      JoinSplit(text[1..]);
      assert text == [c] + text[1..];
      if c == '\n' {
        JoinFirst("", rest);
        assert "" + "\n" + Join(rest) == text;
      } else {
        assert rest == [rest[0]] + rest[1..];
        JoinFirst(rest[0], rest[1..]);
        JoinFirst([c] + rest[0], rest[1..]);
        Longer(c, rest[0], Join(rest[1..]));
      }
    } else {
      assert Split(text) == [""];
    }
  }

  lemma Longer(c: char, first: string, rest: string)
    ensures ([c] + first) + "\n" + rest == [c] + (first + "\n" + rest)
  {
  }

  lemma {:induction false} SplitLine(line: string)
    requires '\n' !in line
    ensures Split(line) == [line]
  {
    if line != "" {
      assert forall c :: c in line[1..] ==> c in line;
      SplitLine(line[1..]);
      assert line == [line[0]] + line[1..];
    }
  }

  lemma {:induction false} SplitAtNewline(line: string, text: string)
    requires '\n' !in line
    ensures Split(line + "\n" + text) == [line] + Split(text)
  {
    if line == "" {
      assert (line + "\n" + text)[1..] == text;
    } else {
      assert forall c :: c in line[1..] ==> c in line;
      var all := line + "\n" + text;
      assert all[0] == line[0] && all[1..] == line[1..] + "\n" + text;
      SplitAtNewline(line[1..], text);
      assert line == [line[0]] + line[1..];
    }
  }

  ghost predicate NoBreaks(lines: seq<string>) {
    forall i :: 0 <= i < |lines| ==> '\n' !in lines[i]
  }

  lemma {:induction false} SplitHasNoBreaks(text: string)
    ensures NoBreaks(Split(text))
  {
    if text != "" {
      SplitHasNoBreaks(text[1..]);
    }
  }

  lemma {:induction false} SplitJoin(lines: seq<string>)
    requires lines != [] && NoBreaks(lines)
    ensures Split(Join(lines)) == lines
  {
    if |lines| == 1 {
      SplitLine(lines[0]);
    } else {
      SplitJoin(lines[1..]);
      SplitAtNewline(lines[0], Join(lines[1..]));
    }
  }

  lemma {:induction false} JoinAppend(a: seq<string>, b: seq<string>)
    requires a != [] && b != []
    ensures Join(a + b) == Join(a) + "\n" + Join(b)
  {
    if |a| == 1 {
      assert (a + b)[1..] == b;
    } else {
      assert (a + b)[1..] == a[1..] + b;
      JoinAppend(a[1..], b);
      assert a[0] + "\n" + (Join(a[1..]) + "\n" + Join(b)) == (a[0] + "\n" + Join(a[1..])) + "\n" + Join(b);
    }
  }

  // ---------------------------------------------------------------- trimming

  /** `line.rstrip("\r")` */
  function TrimReturns(line: string): (trimmed: string)
    ensures '\r' !in line ==> trimmed == line
    ensures forall c :: c in trimmed ==> c in line
  {
    if line != "" && line[|line| - 1] == '\r' then TrimReturns(line[..|line| - 1]) else line
  }

  predicate IsSpace(c: char) {
    c == ' ' || 9 as char <= c <= 13 as char || 28 as char <= c <= 31 as char
  }

  /** `line.strip()`, as far as ASCII white space goes. */
  function Strip(line: string): string {
    if line == "" then ""
    else if IsSpace(line[0]) then Strip(line[1..])
    else if IsSpace(line[|line| - 1]) then Strip(line[..|line| - 1])
    else line
  }

  // ---------------------------------------------------------------- shell quoting

  const QUOTE := "'"
  const QUOTED_QUOTE := "'\\''"

  /** `_sh_quote` */
  function ShQuote(value: string): string {
    QUOTE + Replace(value, QUOTE, QUOTED_QUOTE) + QUOTE
  }

  /** `_unquote_sh` */
  function Unquote(value: string): Option<string> {
    if |value| < 2 || value[0] != '\'' || value[|value| - 1] != '\'' then None
    else Some(Replace(value[1..|value| - 1], QUOTED_QUOTE, QUOTE))
  }

  lemma {:induction false} QuotesComeBack(value: string)
    ensures Replace(Replace(value, QUOTE, QUOTED_QUOTE), QUOTED_QUOTE, QUOTE) == value
  {
    if value != "" {
      var rest := Replace(value[1..], QUOTE, QUOTED_QUOTE);
      QuotesComeBack(value[1..]);
      assert StartsWith(value, QUOTE) <==> value[0] == '\'';
      if value[0] == '\'' {
        var all := QUOTED_QUOTE + rest;
        assert StartsWith(all, QUOTED_QUOTE) && all[|QUOTED_QUOTE|..] == rest;
      } else {
        var all := [value[0]] + rest;
        assert all[0] != QUOTED_QUOTE[0];
        assert !StartsWith(all, QUOTED_QUOTE) && all[1..] == rest;
      }
    }
  }

  /** Unquoting undoes quoting, for every path. */
  lemma UnquoteUndoesQuote(value: string)
    ensures Unquote(ShQuote(value)) == Some(value)
  {
    var inner := Replace(value, QUOTE, QUOTED_QUOTE);
    assert ShQuote(value)[1..|ShQuote(value)| - 1] == inner;
    QuotesComeBack(value);
  }

  /** Quoting adds no characters but quotes and backslashes. */
  lemma {:induction false} QuoteAddsNoBreaks(value: string, c: char)
    requires c !in value && c != '\'' && c != '\\'
    ensures c !in Replace(value, QUOTE, QUOTED_QUOTE)
  {
    if value != "" {
      assert forall x :: x in value[1..] ==> x in value;
      QuoteAddsNoBreaks(value[1..], c);
      assert StartsWith(value, QUOTE) <==> value[0] == '\'';
    }
  }
}
