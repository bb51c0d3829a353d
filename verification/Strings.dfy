/** The string operations the privilege lookup is made of. */
module Strings {

  predicate Without(s: string, c: char) {
    c !in s
  }

  /** What can stand between two slashes of a route: no slash and no brace in it. */
  predicate IsWord(s: string) {
    s != "" && Without(s, '{') && Without(s, '}') && Without(s, '/')
  }

  type Word = s: string | IsWord(s) witness "x"

  lemma Associate<T>(a: seq<T>, b: seq<T>, c: seq<T>)
    ensures (a + b) + c == a + (b + c)
  {
  }

  lemma Concatenate<T>(s: seq<T>, t: seq<T>)
    requires s != []
    ensures s + t == [s[0]] + (s[1..] + t)
  {
  }

  // ---- split and join at a separator -----------------------------------------------------------------

  /** `s.split(sep)`: one part more than there are separators. */
  function Split(s: string, sep: char): (parts: seq<string>)
    ensures |parts| > 0
  {
    if s == "" then [""]
    else
      var rest := Split(s[1..], sep);
      if s[0] == sep then [""] + rest else [[s[0]] + rest[0]] + rest[1..]
  }

  function Join(parts: seq<string>, sep: char): string
    requires |parts| > 0
  {
    if |parts| == 1 then parts[0] else parts[0] + [sep] + Join(parts[1..], sep)
  }

  lemma {:induction false} SplitPrefix(head: string, sep: char, tail: string)
    requires Without(head, sep)
    ensures Split(head, sep) == [head]
    ensures Split(head + [sep] + tail, sep) == [head] + Split(tail, sep)
  {
    if head == "" {
      assert (head + [sep] + tail)[1..] == tail;
    } else {
      SplitPrefix(head[1..], sep, tail);
      assert (head + [sep] + tail)[1..] == head[1..] + [sep] + tail;
      assert [head[0]] + head[1..] == head;
    }
  }

  /** Splitting undoes joining, for parts that do not hold the separator. */
  lemma {:induction false} SplitJoin(parts: seq<string>, sep: char)
    requires |parts| > 0 && forall p :: p in parts ==> Without(p, sep)
    ensures Split(Join(parts, sep), sep) == parts
  {
    if |parts| == 1 {
      SplitPrefix(parts[0], sep, "");
    } else {
      SplitJoin(parts[1..], sep);
      SplitPrefix(parts[0], sep, Join(parts[1..], sep));
    }
  }

  // ---- strip -----------------------------------------------------------------------------------------

  function StripLeft(s: string, c: char): string {
    if s != "" && s[0] == c then StripLeft(s[1..], c) else s
  }

  function StripRight(s: string, c: char): string {
    if s != "" && s[|s| - 1] == c then StripRight(s[..|s| - 1], c) else s
  }

  /** `s.strip(c)`. */
  function Strip(s: string, c: char): string {
    StripRight(StripLeft(s, c), c)
  }

  // ---- replace ---------------------------------------------------------------------------------------

  /** `s.replace(pattern, value)`: occurrences are taken from the left and do not overlap. */
  function Replace(s: string, pattern: string, value: string): string
    requires pattern != ""
  {
    if |s| < |pattern| then s
    else if pattern <= s then value + Replace(s[|pattern|..], pattern, value)
    else [s[0]] + Replace(s[1..], pattern, value)
  }

  /** Text without the pattern's first character is passed over. */
  lemma {:induction false} ReplaceSkips(head: string, tail: string, pattern: string, value: string)
    requires pattern != "" && Without(head, pattern[0])
    ensures Replace(head + tail, pattern, value) == head + Replace(tail, pattern, value)
  {
    if head == "" {
      assert head + tail == tail;
    } else {
      ReplaceSkips(head[1..], tail, pattern, value);
      assert (head + tail)[1..] == head[1..] + tail;
      if |head + tail| < |pattern| {
        assert |tail| < |pattern|;
      } else {
        assert (head + tail)[0] == head[0] != pattern[0];
      }
    }
  }
}
