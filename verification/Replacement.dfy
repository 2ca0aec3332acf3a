/** Python's `str.replace`, and when a chain of replacements is one pass over the characters. */
module Replacement {

  predicate StartsWith(s: string, prefix: string) {
    |prefix| <= |s| && s[..|prefix|] == prefix
  }

  predicate OccursAt(s: string, part: string, i: nat) {
    i + |part| <= |s| && s[i..i + |part|] == part
  }

  /** `part in s` */
  ghost predicate Contains(s: string, part: string) {
    exists i :: OccursAt(s, part, i)
  }

  /** `s.replace(pattern, image)`: every occurrence from the left, without overlap. */
  function Replace(s: string, pattern: string, image: string): string
    requires pattern != ""
  {
    if s == "" then ""
    else if StartsWith(s, pattern) then image + Replace(s[|pattern|..], pattern, image)
    else [s[0]] + Replace(s[1..], pattern, image)
  }

  /** One pass: every character becomes what `f` makes of it. */
  function MapChars(s: string, f: char -> string): string {
    if s == "" then "" else f(s[0]) + MapChars(s[1..], f)
  }

  lemma {:induction false} MapCharsAppend(a: string, b: string, f: char -> string)
    ensures MapChars(a + b, f) == MapChars(a, f) + MapChars(b, f)
  {
    if a == "" {
      assert a + b == b;
    } else {
      assert (a + b)[1..] == a[1..] + b;
      MapCharsAppend(a[1..], b, f);
    }
  }

  function ReplacesChar(c: char, image: string): char -> string {
    (x: char) => if x == c then image else [x]
  }

  /** Replacing a single character is one pass. */
  lemma {:induction false} ReplaceCharIsOnePass(s: string, c: char, image: string)
    ensures Replace(s, [c], image) == MapChars(s, ReplacesChar(c, image))
  {
    if s != "" {
      ReplaceCharIsOnePass(s[1..], c, image);
      assert StartsWith(s, [c]) <==> s[0] == c;
    }
  }

  function Then(f: char -> string, g: char -> string): char -> string {
    (x: char) => MapChars(f(x), g)
  }

  /** Two passes are one pass. */
  lemma {:induction false} PassesCompose(s: string, f: char -> string, g: char -> string)
    ensures MapChars(MapChars(s, f), g) == MapChars(s, Then(f, g))
  {
    if s != "" {
      PassesCompose(s[1..], f, g);
      MapCharsAppend(f(s[0]), MapChars(s[1..], f), g);
    }
  }

  lemma {:induction false} SameOnCharacters(s: string, f: char -> string, g: char -> string)
    requires forall x :: f(x) == g(x)
    ensures MapChars(s, f) == MapChars(s, g)
  {
    if s != "" {
      SameOnCharacters(s[1..], f, g);
    }
  }

  /** A pass followed by the replacement of one more character. */
  lemma ReplaceAfterPass(s: string, f: char -> string, c: char, image: string, g: char -> string)
    requires forall x :: MapChars(f(x), ReplacesChar(c, image)) == g(x)
    ensures Replace(MapChars(s, f), [c], image) == MapChars(s, g)
  {
    ReplaceCharIsOnePass(MapChars(s, f), c, image);
    PassesCompose(s, f, ReplacesChar(c, image));
    SameOnCharacters(s, Then(f, ReplacesChar(c, image)), g);
  }
}
