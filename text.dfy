/** Character-level helpers the prompt builder relies on: the decimal
    rendering of counters in template literals, canonical array-index keys,
    and JavaScript's `String.prototype.split` (one-character separator),
    `Array.prototype.join` and `String.prototype.trim`. */
module Text {

  predicate IsDigit(c: char) { '0' <= c <= '9' }

  predicate AllDigits(s: string) { forall i :: 0 <= i < |s| ==> IsDigit(s[i]) }

  function DigitChar(d: nat): (c: char)
    requires d < 10
    ensures IsDigit(c) && c as int - '0' as int == d
  {
    ('0' as int + d) as char
  }

  function DigitValue(c: char): (d: nat)
    requires IsDigit(c)
    ensures d < 10
  {
    c as int - '0' as int
  }

  /** The decimal text of `n`, as `${n}` renders a non-negative integer:
      digits only, and no leading zero. */
  function NatToString(n: nat): (s: string)
    ensures 1 <= |s| && AllDigits(s)
    ensures n >= 1 ==> s[0] != '0'
    decreases n
  {
    if n < 10 then [DigitChar(n)] else NatToString(n / 10) + [DigitChar(n % 10)]
  }

  /** The number a string of decimal digits denotes. */
  function ParseNat(s: string): nat
    requires AllDigits(s)
  {
    if s == [] then 0 else ParseNat(s[..|s| - 1]) * 10 + DigitValue(s[|s| - 1])
  }

  lemma {:induction false} ParseNatToString(n: nat)
    ensures ParseNat(NatToString(n)) == n
  {
    if n >= 10 {
      var s := NatToString(n);
      assert s[..|s| - 1] == NatToString(n / 10);
      ParseNatToString(n / 10);
    }
  }

  /** A canonical array index key: the decimal text of a natural number
      ("0", "7", "12", but not "", "07" or "x"). */
  predicate IsIndexKey(k: string) {
    |k| > 0 && AllDigits(k) && NatToString(ParseNat(k)) == k
  }

  /** Every decimal rendering is a canonical index key that reads back as itself. */
  lemma IndexKeyOfNat(n: nat)
    ensures IsIndexKey(NatToString(n)) && ParseNat(NatToString(n)) == n
  {
    ParseNatToString(n);
  }

  lemma NatToStringInjective(a: nat, b: nat)
    ensures NatToString(a) == NatToString(b) ==> a == b
  {
    ParseNatToString(a);
    ParseNatToString(b);
  }

  // ---------------------------------------------------------------------
  // split / join

  /** `s.split(sep)` for a one-character separator: the maximal
      separator-free pieces between separators, at least one of them
      ("".split(",") is [""]). */
  function Split(s: string, sep: char): (parts: seq<string>)
    ensures |parts| >= 1
    ensures forall i :: 0 <= i < |parts| ==> sep !in parts[i]
    decreases |s|
  {
    if s == [] then [""]
    else
      var rest := Split(s[1..], sep);
      if s[0] == sep then [""] + rest else [[s[0]] + rest[0]] + rest[1..]
  }

  /** `parts.join(sep)`. */
  function Join(parts: seq<string>, sep: string): string
  {
    if |parts| == 0 then ""
    else if |parts| == 1 then parts[0]
    else parts[0] + sep + Join(parts[1..], sep)
  }

  /** Joining the pieces of a split with the same separator gives the text back. */
  lemma {:induction false} JoinSplit(s: string, sep: char)
    ensures Join(Split(s, sep), [sep]) == s
  {
    if s != [] {
      var rest := Split(s[1..], sep);
      JoinSplit(s[1..], sep);
      if s[0] == sep {
        assert Split(s, sep) == [""] + rest;
        assert ([""] + rest)[1..] == rest;
      } else if |rest| > 1 {
        var parts := Split(s, sep);
        assert parts[1..] == rest[1..];
        assert Join(rest, [sep]) == rest[0] + [sep] + Join(rest[1..], [sep]);
      }
    }
  }

  /** A separator-free text splits into itself alone. */
  lemma {:induction false} SplitNoSeparator(a: string, sep: char)
    requires sep !in a
    ensures Split(a, sep) == [a]
  {
    if a != [] {
      SplitNoSeparator(a[1..], sep);
      assert [a[0]] + a[1..] == a;
    }
  }

  /** Splitting `a + sep + b`, with `a` separator-free, gives `a` followed by the pieces of `b`. */
  lemma {:induction false} SplitAtFirst(a: string, b: string, sep: char)
    requires sep !in a
    ensures Split(a + [sep] + b, sep) == [a] + Split(b, sep)
  {
    var s := a + [sep] + b;
    if a == [] {
      assert s[1..] == b;
    } else {
      assert s[1..] == a[1..] + [sep] + b;
      SplitAtFirst(a[1..], b, sep);
      assert [a[0]] + a[1..] == a;
    }
  }

  /** Splitting a join of separator-free pieces gives the pieces back. */
  lemma {:induction false} SplitJoin(parts: seq<string>, sep: char)
    requires |parts| >= 1
    requires forall i :: 0 <= i < |parts| ==> sep !in parts[i]
    ensures Split(Join(parts, [sep]), sep) == parts
  {
    if |parts| == 1 {
      SplitNoSeparator(parts[0], sep);
    } else {
      SplitJoin(parts[1..], sep);
      SplitAtFirst(parts[0], Join(parts[1..], [sep]), sep);
      assert [parts[0]] + parts[1..] == parts;
    }
  }

  // ---------------------------------------------------------------------
  // trim

  /** The ECMAScript WhiteSpace and LineTerminator code points, which
      `String.prototype.trim` removes. */
  predicate IsWhitespace(c: char) {
    c == '\t' || c == '\n' || c == 0x0B as char || c == 0x0C as char || c == '\r' || c == ' '
    || c == 0xA0 as char || c == 0x1680 as char || (0x2000 as char <= c <= 0x200A as char)
    || c == 0x2028 as char || c == 0x2029 as char || c == 0x202F as char || c == 0x205F as char
    || c == 0x3000 as char || c == 0xFEFF as char
  }

  predicate AllWhitespace(s: string) { forall i :: 0 <= i < |s| ==> IsWhitespace(s[i]) }

  /** Neither starts nor ends with whitespace. */
  predicate IsTrimmed(s: string) {
    s == [] || (!IsWhitespace(s[0]) && !IsWhitespace(s[|s| - 1]))
  }

  /** Length of the whitespace run that starts `s`. */
  function LeadingWhitespace(s: string): (n: nat)
    ensures n <= |s| && AllWhitespace(s[..n]) && (n < |s| ==> !IsWhitespace(s[n]))
  {
    if s != [] && IsWhitespace(s[0]) then
      var m := LeadingWhitespace(s[1..]);
      assert s[..1 + m] == [s[0]] + s[1..][..m];
      1 + m
    else 0
  }

  /** Length of the whitespace run that ends `s`. */
  function TrailingWhitespace(s: string): (n: nat)
    ensures n <= |s| && AllWhitespace(s[|s| - n..]) && (n < |s| ==> !IsWhitespace(s[|s| - 1 - n]))
  {
    if s != [] && IsWhitespace(s[|s| - 1]) then
      var t := s[..|s| - 1];
      var m := TrailingWhitespace(t);
      assert s[|s| - (1 + m)..] == t[|t| - m..] + [s[|s| - 1]];
      1 + m
    else 0
  }

  /** `s.trim()`: the text between the leading and the trailing whitespace. */
  function Trim(s: string): (r: string)
    ensures IsTrimmed(r)
    ensures (r == []) == AllWhitespace(s)
    ensures var k := LeadingWhitespace(s);
      k + |r| <= |s| && s[k..k + |r|] == r && AllWhitespace(s[..k]) && AllWhitespace(s[k + |r|..])
  {
    var lead := LeadingWhitespace(s);
    if lead == |s| then
      assert s[..lead] == s;
      []
    else
      var trail := TrailingWhitespace(s);
      assert lead < |s| - trail;
      assert !AllWhitespace(s) by { assert !IsWhitespace(s[lead]); }
      s[lead..|s| - trail]
  }

  lemma {:induction false} LeadingWhitespaceIs(s: string, n: nat)
    requires n <= |s| && AllWhitespace(s[..n]) && (n < |s| ==> !IsWhitespace(s[n]))
    ensures LeadingWhitespace(s) == n
  {
    if n > 0 {
      assert IsWhitespace(s[..n][0]);
      assert s[1..][..n - 1] == s[..n][1..];
      LeadingWhitespaceIs(s[1..], n - 1);
    }
  }

  lemma {:induction false} TrailingWhitespaceIs(s: string, n: nat)
    requires n <= |s| && AllWhitespace(s[|s| - n..]) && (n < |s| ==> !IsWhitespace(s[|s| - 1 - n]))
    ensures TrailingWhitespace(s) == n
  {
    if n > 0 {
      var t := s[..|s| - 1];
      assert IsWhitespace(s[|s| - n..][n - 1]);
      assert t[|t| - (n - 1)..] == s[|s| - n..][..n - 1];
      TrailingWhitespaceIs(t, n - 1);
    }
  }

  /** Trimming undoes any whitespace padding around an already trimmed text. */
  lemma TrimPadded(a: string, r: string, b: string)
    requires AllWhitespace(a) && AllWhitespace(b) && IsTrimmed(r)
    ensures Trim(a + r + b) == r
  {
    var s := a + r + b;
    if r == [] {
      assert AllWhitespace(s) by {
        forall i | 0 <= i < |s| ensures IsWhitespace(s[i]) {
          if i < |a| { assert s[i] == a[i]; } else { assert s[i] == b[i - |a|]; }
        }
      }
    } else {
      assert s[..|a|] == a;
      assert s[|a|] == r[0];
      LeadingWhitespaceIs(s, |a|);
      assert s[|s| - |b|..] == b;
      assert s[|s| - 1 - |b|] == r[|r| - 1];
      TrailingWhitespaceIs(s, |b|);
      assert s[|a|..|s| - |b|] == r;
    }
  }
}
