/** The number a SMART value starts with. */
module Numbers {
  import opened Wrappers
  import opened Strings

  predicate IsSpace(c: char) {
    c == ' ' || c == '\t' || c == '\n' || c == '\r' || c == '\U{000B}' || c == '\U{000C}'
  }

  predicate IsDigit(c: char) {
    '0' <= c <= '9'
  }

  function DigitValue(c: char): nat
    requires IsDigit(c)
  {
    (c - '0') as nat
  }

  function DigitChar(d: nat): (c: char)
    requires d < 10
    ensures IsDigit(c) && DigitValue(c) == d
  {
    '0' + d as char
  }

  // ---- reading -----------------------------------------------------------------------------------------

  /** `value.replace(",", "")`. */
  function DropCommas(s: string): string {
    if s == "" then "" else (if s[0] == ',' then "" else [s[0]]) + DropCommas(s[1..])
  }

  function SkipSpace(s: string): string {
    if s != "" && IsSpace(s[0]) then SkipSpace(s[1..]) else s
  }

  /** The longest run of digits in front, read onto what was read before. */
  function ReadDigits(s: string, read: nat): nat {
    if s != "" && IsDigit(s[0]) then ReadDigits(s[1..], 10 * read + DigitValue(s[0])) else read
  }

  /** `leading_int` of a text. */
  function LeadingInt(s: string): Option<nat> {
    var rest := SkipSpace(DropCommas(s));
    if rest != "" && IsDigit(rest[0]) then Some(ReadDigits(rest, 0)) else None
  }

  // ---- printing ----------------------------------------------------------------------------------------

  function Decimal(n: nat): (s: string)
    ensures s != "" && forall i :: 0 <= i < |s| ==> IsDigit(s[i])
  {
    if n < 10 then [DigitChar(n)] else Decimal(n / 10) + [DigitChar(n % 10)]
  }

  /** Printed with a comma between groups of three digits. */
  function Thousands(n: nat): string {
    if n < 1000 then Decimal(n)
    else Thousands(n / 1000) + [',', DigitChar(n / 100 % 10), DigitChar(n / 10 % 10), DigitChar(n % 10)]
  }

  lemma DropCommasStep(c: char, s: string)
    ensures DropCommas([c] + s) == (if c == ',' then "" else [c]) + DropCommas(s)
  {
    assert ([c] + s)[1..] == s;
  }

  lemma {:induction false} DropCommasAppend(a: string, b: string)
    ensures DropCommas(a + b) == DropCommas(a) + DropCommas(b)
  {
    if a == "" {
      assert a + b == b;
    } else {
      DropCommasAppend(a[1..], b);
      Concatenate(a, b);
      DropCommasStep(a[0], a[1..] + b);
      var head := if a[0] == ',' then "" else [a[0]];
      Associate(head, DropCommas(a[1..]), DropCommas(b));
    }
  }

  lemma {:induction false} NoCommas(s: string)
    requires ',' !in s
    ensures DropCommas(s) == s
  {
    if s == "" {
    } else {
      NoCommas(s[1..]);
    }
  }

  /** Three digits at a time or one by one, the digits are the same. */
  lemma {:induction false} ThousandsAreDecimal(n: nat)
    ensures DropCommas(Thousands(n)) == Decimal(n)
  {
    if n < 1000 {
      NoCommas(Decimal(n));
    } else {
      var group := [',', DigitChar(n / 100 % 10), DigitChar(n / 10 % 10), DigitChar(n % 10)];
      ThousandsAreDecimal(n / 1000);
      DropCommasAppend(Thousands(n / 1000), group);
      NoCommas(group[1..]);
      assert DropCommas(group) == "" + DropCommas(group[1..]);
      ThreeDigits(n);
    }
  }

  lemma ThreeDigits(n: nat)
    requires n >= 1000
    ensures Decimal(n) == Decimal(n / 1000) + [DigitChar(n / 100 % 10), DigitChar(n / 10 % 10), DigitChar(n % 10)]
  {
    var h := n / 100;
    assert n / 10 / 10 == h && h / 10 == n / 1000;
    assert Decimal(n / 10) == Decimal(h) + [DigitChar(n / 10 % 10)];
    assert Decimal(h) == Decimal(n / 1000) + [DigitChar(h % 10)];
  }

  lemma {:induction false} ReadDigitsAppend(a: string, b: string, read: nat)
    requires forall i :: 0 <= i < |a| ==> IsDigit(a[i])
    ensures ReadDigits(a + b, read) == ReadDigits(b, ReadDigits(a, read))
  {
    if a == "" {
      assert a + b == b;
    } else {
      ReadDigitsAppend(a[1..], b, 10 * read + DigitValue(a[0]));
      assert (a + b)[1..] == a[1..] + b;
    }
  }

  lemma {:induction false} DecimalReadsBack(n: nat)
    ensures ReadDigits(Decimal(n), 0) == n
  {
    if n < 10 {
    } else {
      DecimalReadsBack(n / 10);
      ReadDigitsAppend(Decimal(n / 10), [DigitChar(n % 10)], 0);
      assert ReadDigits([DigitChar(n % 10)], n / 10) == ReadDigits([], 10 * (n / 10) + n % 10);
    }
  }

  lemma {:induction false} SkipSpaceAppend(a: string, b: string)
    requires forall i :: 0 <= i < |a| ==> IsSpace(a[i])
    ensures SkipSpace(a + b) == SkipSpace(b)
  {
    if a == "" {
      assert a + b == b;
    } else {
      SkipSpaceAppend(a[1..], b);
      assert (a + b)[1..] == a[1..] + b;
    }
  }

  predicate NoDigitFirst(s: string) {
    s == "" || !IsDigit(s[0])
  }

  /** A number printed with or without thousands separators is read back, whatever space stands
      before it and whatever else follows it. */
  lemma LeadingIntReadsBack(space: string, n: nat, suffix: string)
    requires forall i :: 0 <= i < |space| ==> IsSpace(space[i])
    requires NoDigitFirst(DropCommas(suffix))
    ensures LeadingInt(space + Thousands(n) + suffix) == Some(n)
    ensures LeadingInt(space + Decimal(n) + suffix) == Some(n)
  {
    ThousandsAreDecimal(n);
    NoCommas(Decimal(n));
    ReadsAs(space, Thousands(n), suffix, n);
    ReadsAs(space, Decimal(n), suffix, n);
  }

  lemma CommasOfThree(a: string, b: string, c: string)
    ensures DropCommas(a + b + c) == DropCommas(a) + (DropCommas(b) + DropCommas(c))
  {
    Associate(a, b, c);
    DropCommasAppend(a, b + c);
    DropCommasAppend(b, c);
  }

  lemma ReadsAs(space: string, digits: string, suffix: string, n: nat)
    requires forall i :: 0 <= i < |space| ==> IsSpace(space[i])
    requires DropCommas(digits) == Decimal(n) && NoDigitFirst(DropCommas(suffix))
    ensures LeadingInt(space + digits + suffix) == Some(n)
  {
    var rest := DropCommas(suffix);
    CommasOfThree(space, digits, suffix);
    NoCommas(space);
    SkipSpaceAppend(space, Decimal(n) + rest);
    DigitsRead(n, rest);
  }

  lemma DigitsRead(n: nat, rest: string)
    requires NoDigitFirst(rest)
    ensures var s := Decimal(n) + rest;
      SkipSpace(s) == s && IsDigit(s[0]) && ReadDigits(s, 0) == n
  {
    assert (Decimal(n) + rest)[0] == Decimal(n)[0];
    ReadDigitsAppend(Decimal(n), rest, 0);
    DecimalReadsBack(n);
  }

  lemma {:induction false} ZerosAreRead(zeros: string, rest: string)
    requires forall i :: 0 <= i < |zeros| ==> zeros[i] == '0'
    ensures ReadDigits(zeros + rest, 0) == ReadDigits(rest, 0)
  {
    if zeros == "" {
      assert zeros + rest == rest;
    } else {
      ZerosAreRead(zeros[1..], rest);
      assert (zeros + rest)[1..] == zeros[1..] + rest;
    }
  }

  /** Zeros in front of a number change nothing. */
  lemma LeadingZeros(space: string, zeros: string, n: nat, suffix: string)
    requires forall i :: 0 <= i < |space| ==> IsSpace(space[i])
    requires forall i :: 0 <= i < |zeros| ==> zeros[i] == '0'
    requires NoDigitFirst(DropCommas(suffix))
    ensures LeadingInt(space + (zeros + Decimal(n)) + suffix) == Some(n)
  {
    var digits, rest := zeros + Decimal(n), DropCommas(suffix);
    CommasOfThree(space, digits, suffix);
    NoCommas(space);
    NoCommas(digits);
    SkipSpaceAppend(space, digits + rest);
    DigitsAfterZeros(zeros, n, rest);
  }

  lemma DigitsAfterZeros(zeros: string, n: nat, rest: string)
    requires forall i :: 0 <= i < |zeros| ==> zeros[i] == '0'
    requires NoDigitFirst(rest)
    ensures var s := (zeros + Decimal(n)) + rest;
      SkipSpace(s) == s && IsDigit(s[0]) && ReadDigits(s, 0) == n
  {
    var digits := zeros + Decimal(n);
    assert (digits + rest)[0] == digits[0] && IsDigit(digits[0]);
    Associate(zeros, Decimal(n), rest);
    ZerosAreRead(zeros, Decimal(n) + rest);
    DigitsRead(n, rest);
  }

  /** A text in which no digit comes first, commas and space aside, is no number. */
  lemma UnreadableIsNone(space: string, rest: string)
    requires forall i :: 0 <= i < |space| ==> IsSpace(space[i])
    requires var kept := DropCommas(rest); kept == "" || (!IsDigit(kept[0]) && !IsSpace(kept[0]))
    ensures LeadingInt(space + rest) == None
  {
    DropCommasAppend(space, rest);
    NoCommas(space);
    SkipSpaceAppend(space, DropCommas(rest));
  }

  // ---- stripping ---------------------------------------------------------------------------------------

  /** `s.rstrip()`. */
  function StripEnd(s: string): string {
    if s != "" && IsSpace(s[|s| - 1]) then StripEnd(s[..|s| - 1]) else s
  }

  /** `s.strip()`. */
  function StripSpace(s: string): string {
    StripEnd(SkipSpace(s))
  }

  lemma {:induction false} SkipSpaceSplits(s: string) returns (space: string)
    ensures s == space + SkipSpace(s) && forall i :: 0 <= i < |space| ==> IsSpace(space[i])
  {
    if s != "" && IsSpace(s[0]) {
      var rest := SkipSpaceSplits(s[1..]);
      space := [s[0]] + rest;
    } else {
      space := "";
    }
  }

  lemma {:induction false} StripEndSplits(s: string) returns (space: string)
    ensures s == StripEnd(s) + space && forall i :: 0 <= i < |space| ==> IsSpace(space[i])
  {
    if s != "" && IsSpace(s[|s| - 1]) {
      var rest := StripEndSplits(s[..|s| - 1]);
      space := rest + [s[|s| - 1]];
    } else {
      space := "";
    }
  }

  lemma {:induction false} TrailingSpaceIsNotRead(s: string, space: string, read: nat)
    requires forall i :: 0 <= i < |space| ==> IsSpace(space[i])
    ensures ReadDigits(s + space, read) == ReadDigits(s, read)
  {
    if s == "" {
      assert s + space == space;
    } else if IsDigit(s[0]) {
      TrailingSpaceIsNotRead(s[1..], space, 10 * read + DigitValue(s[0]));
      assert (s + space)[1..] == s[1..] + space;
    }
  }

  lemma {:induction false} SkipBeforeSpace(s: string, space: string)
    requires forall i :: 0 <= i < |space| ==> IsSpace(space[i])
    ensures SkipSpace(s + space) == if SkipSpace(s) == "" then "" else SkipSpace(s) + space
  {
    if s == "" {
      SkipSpaceAppend(space, "");
      assert s + space == space + "";
    } else if IsSpace(s[0]) {
      SkipBeforeSpace(s[1..], space);
      assert (s + space)[1..] == s[1..] + space;
    }
  }

  /** Stripping a value and dropping its commas beforehand changes nothing in what is read. */
  lemma ReadsTheSameStripped(value: string)
    ensures LeadingInt(DropCommas(StripSpace(value))) == LeadingInt(value)
  {
    var front := SkipSpaceSplits(value);
    var middle := StripSpace(value);
    var back := StripEndSplits(SkipSpace(value));
    assert value == front + (middle + back);
    DropCommasAppend(front, middle + back);
    DropCommasAppend(middle, back);
    NoCommas(front);
    NoCommas(back);
    var kept := DropCommas(middle);
    SkipSpaceAppend(front, kept + back);
    SkipBeforeSpace(kept, back);
    TrailingSpaceIsNotRead(SkipSpace(kept), back, 0);
    CommasAreGone(middle);
    NoCommas(kept);
  }

  lemma {:induction false} CommasAreGone(s: string)
    ensures ',' !in DropCommas(s)
  {
    if s == "" {
    } else {
      CommasAreGone(s[1..]);
    }
  }
}
