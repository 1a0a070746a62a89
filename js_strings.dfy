/**
 * The JavaScript string built-ins the core relies on, over `string` (a sequence of characters):
 * `parseInt(s, 10)`, `Number(s)`, `Number.prototype.toString()`, `toLocaleString()` on an
 * integer, `String.prototype.trim`, `startsWith`, `split` on one character and `Array.prototype.join`.
 */
module JsStrings {
  import opened Wrappers

  predicate IsDigit(c: char) {
    '0' <= c <= '9'
  }

  predicate AllDigits(s: string) {
    forall i :: 0 <= i < |s| ==> IsDigit(s[i])
  }

  function DigitChar(d: nat): (c: char)
    requires d < 10
    ensures IsDigit(c)
  {
    ('0' as int + d) as char
  }

  function DigitValue(c: char): (d: nat)
    requires IsDigit(c)
    ensures d < 10 && DigitChar(d) == c
  {
    c as int - '0' as int
  }

  /**
   * `s.length`: JavaScript counts UTF-16 code units, so a character outside the Basic
   * Multilingual Plane counts twice.
   */
  function JsLength(s: string): (n: nat)
    ensures |s| <= n <= 2 * |s|
  {
    if s == [] then 0 else (if s[0] as int > 0xFFFF then 2 else 1) + JsLength(s[1..])
  }

  /** `Math.abs` on an integer. */
  function Abs(n: int): (m: nat)
    ensures m == n || m == -n
  {
    if n < 0 then -n else n
  }

  /** The decimal numeral of `n` as `n.toString()` writes it: digits only, no leading zero. */
  function NatToDecimal(n: nat): (s: string)
    ensures 1 <= |s| && AllDigits(s)
    ensures |s| > 1 ==> s[0] != '0'
  {
    if n < 10 then [DigitChar(n)] else NatToDecimal(n / 10) + [DigitChar(n % 10)]
  }

  /** `n.toString()` for any integer: a minus sign in front of the magnitude of a negative number. */
  function IntToDecimal(n: int): (s: string)
    ensures 1 <= |s|
    ensures n < 0 <==> s[0] == '-'
  {
    if n < 0 then "-" + NatToDecimal(-n) else NatToDecimal(n)
  }

  /** The value of a run of decimal digits, most significant first. */
  function DigitsValue(s: string): nat
    requires AllDigits(s)
  {
    if s == [] then 0 else DigitsValue(s[..|s| - 1]) * 10 + DigitValue(s[|s| - 1])
  }

  lemma {:induction false} NatToDecimalValue(n: nat)
    ensures DigitsValue(NatToDecimal(n)) == n
  {
    if n >= 10 {
      var s := NatToDecimal(n);
      assert s[..|s| - 1] == NatToDecimal(n / 10);
      NatToDecimalValue(n / 10);
    }
  }

  /** Two numbers with the same decimal numeral are equal. */
  lemma NatToDecimalInjective(m: nat, n: nat)
    requires NatToDecimal(m) == NatToDecimal(n)
    ensures m == n
  {
    NatToDecimalValue(m);
    NatToDecimalValue(n);
  }

  /**
   * The characters `String.prototype.trim` and `parseInt` skip: ECMAScript's WhiteSpace
   * (tab, vertical tab, form feed, space, no-break space, the byte order mark and the Unicode
   * space separators) and LineTerminator (line feed, carriage return, U+2028, U+2029).
   */
  predicate IsJsWhiteSpace(c: char) {
    || c == '\t' || c == '\n' || c == '\U{B}' || c == '\U{C}' || c == '\r' || c == ' '
    || c == '\U{A0}' || c == '\U{1680}' || ('\U{2000}' <= c <= '\U{200A}')
    || c == '\U{2028}' || c == '\U{2029}' || c == '\U{202F}' || c == '\U{205F}'
    || c == '\U{3000}' || c == '\U{FEFF}'
  }

  function TrimStart(s: string): (r: string)
    ensures |r| <= |s| && r == s[|s| - |r|..]
    ensures r != [] ==> !IsJsWhiteSpace(r[0])
    ensures forall i :: 0 <= i < |s| - |r| ==> IsJsWhiteSpace(s[i])
  {
    if s != [] && IsJsWhiteSpace(s[0]) then TrimStart(s[1..]) else s
  }

  function TrimEnd(s: string): (r: string)
    ensures |r| <= |s| && r == s[..|r|]
    ensures r != [] ==> !IsJsWhiteSpace(r[|r| - 1])
    ensures forall i :: |r| <= i < |s| ==> IsJsWhiteSpace(s[i])
  {
    if s != [] && IsJsWhiteSpace(s[|s| - 1]) then TrimEnd(s[..|s| - 1]) else s
  }

  /** `s.trim()`: the longest run of `s` that neither starts nor ends with white space. */
  function Trim(s: string): (r: string)
    ensures |r| <= |s|
  {
    TrimEnd(TrimStart(s))
  }

  /** Trimming leaves no white space at either end, and nothing exactly when all is white space. */
  lemma TrimFacts(s: string)
    ensures var r := Trim(s);
      && (r != [] ==> !IsJsWhiteSpace(r[0]) && !IsJsWhiteSpace(r[|r| - 1]))
      && ((forall i :: 0 <= i < |s| ==> IsJsWhiteSpace(s[i])) <==> r == [])
  {
    var t := TrimStart(s);
    var r := TrimEnd(t);
    assert r == [] ==> t == [];
  }

  /** The length of the run of digits that `s` starts with. */
  function DigitRun(s: string): (n: nat)
    ensures n <= |s| && AllDigits(s[..n])
    ensures n < |s| ==> !IsDigit(s[n])
  {
    if s != [] && IsDigit(s[0]) then
      var n := 1 + DigitRun(s[1..]);
      assert s[..n] == [s[0]] + s[1..][..n - 1];
      n
    else 0
  }

  lemma {:induction false} DigitRunOfDigits(s: string)
    requires AllDigits(s)
    ensures DigitRun(s) == |s|
  {
    if s != [] {
      DigitRunOfDigits(s[1..]);
    }
  }

  /**
   * `parseInt(s, 10)`: skip leading white space, read an optional sign, then the longest run of
   * digits; `None` is NaN, which is what an input without a leading digit run gives.
   */
  function ParseInt(s: string): (r: Option<int>)
    ensures r.Some? <==>
      var t := TrimStart(s);
      var body := if t != [] && (t[0] == '-' || t[0] == '+') then t[1..] else t;
      body != [] && IsDigit(body[0])
  {
    ParseSigned(TrimStart(s))
  }

  /** `parseInt` after the white space: an optional sign, then the leading digits. */
  function ParseSigned(t: string): (r: Option<int>)
    ensures r.Some? <==>
      var body := if t != [] && (t[0] == '-' || t[0] == '+') then t[1..] else t;
      body != [] && IsDigit(body[0])
  {
    var body := if t != [] && (t[0] == '-' || t[0] == '+') then t[1..] else t;
    match LeadingDigits(body)
    case None => None
    case Some(magnitude) => Some(if t != [] && t[0] == '-' then -magnitude else magnitude)
  }

  /** The value of the longest run of digits `s` starts with, or NaN when it starts with none. */
  function LeadingDigits(s: string): (r: Option<int>)
    ensures r.Some? <==> s != [] && IsDigit(s[0])
    ensures r.Some? ==> r.value >= 0
  {
    var n := DigitRun(s);
    if n == 0 then None else Some(DigitsValue(s[..n]))
  }

  /** `parseInt` reads back what `toString` writes. */
  lemma ParseIntOfDecimal(n: int)
    ensures ParseInt(IntToDecimal(n)) == Some(n)
  {
    var digits := NatToDecimal(Abs(n));
    assert IntToDecimal(n) == (if n < 0 then "-" else "") + digits;
    ParseIntOfDigits(digits, n < 0);
    NatToDecimalValue(Abs(n));
  }

  /** `parseInt` reads an optionally signed run of digits as its value. */
  lemma ParseIntOfDigits(digits: string, negative: bool)
    requires digits != [] && AllDigits(digits)
    ensures var value: int := DigitsValue(digits);
      ParseInt((if negative then "-" else "") + digits) == Some(if negative then -value else value)
  {
    if negative {
      MinusNotTrimmed(digits);
      ParseSignedNegative(digits);
    } else {
      assert "" + digits == digits;
      DigitsNotTrimmed(digits);
      ParseSignedDigits(digits);
    }
  }

  lemma MinusNotTrimmed(digits: string)
    ensures TrimStart("-" + digits) == "-" + digits
  {
    assert ("-" + digits)[0] == '-';
  }

  lemma DigitsNotTrimmed(digits: string)
    requires digits != [] && AllDigits(digits)
    ensures TrimStart(digits) == digits
  {
    assert IsDigit(digits[0]);
  }

  lemma ParseSignedDigits(digits: string)
    requires digits != [] && AllDigits(digits)
    ensures ParseSigned(digits) == Some(DigitsValue(digits))
  {
    LeadingDigitsOfDigits(digits);
  }

  lemma ParseSignedNegative(digits: string)
    requires digits != [] && AllDigits(digits)
    ensures var value: int := DigitsValue(digits);
      ParseSigned("-" + digits) == Some(-value)
  {
    LeadingDigitsOfDigits(digits);
    assert ("-" + digits)[1..] == digits;
  }

  lemma LeadingDigitsOfDigits(digits: string)
    requires digits != [] && AllDigits(digits)
    ensures LeadingDigits(digits) == Some(DigitsValue(digits))
  {
    DigitRunOfDigits(digits);
    assert digits[..|digits|] == digits;
  }

  /**
   * `Number(s)` on the decimal subset the core meets: after trimming, the empty string is 0, an
   * optional sign followed by digits is that integer, anything else is NaN (`None`).
   */
  function NumberOf(s: string): Option<int> {
    NumberOfTrimmed(Trim(s))
  }

  /** `Number` on text without surrounding white space. */
  function NumberOfTrimmed(t: string): (r: Option<int>)
    ensures t == [] ==> r == Some(0)
  {
    if t == [] then Some(0)
    else
      var negative := t[0] == '-';
      var body := if t[0] == '-' || t[0] == '+' then t[1..] else t;
      if body == [] || !AllDigits(body) then None
      else
        var magnitude: int := DigitsValue(body);
        Some(if negative then -magnitude else magnitude)
  }

  /** `Number` reads back the numeral `toString` writes for a natural number. */
  lemma NumberOfDecimal(n: nat)
    ensures NumberOf(NatToDecimal(n)) == Some(n)
  {
    NumberOfDigits(NatToDecimal(n));
    NatToDecimalValue(n);
  }

  /** `Number` reads a run of digits as its value. */
  lemma NumberOfDigits(s: string)
    requires s != [] && AllDigits(s)
    ensures NumberOf(s) == Some(DigitsValue(s))
  {
    assert !IsJsWhiteSpace(s[0]) && !IsJsWhiteSpace(s[|s| - 1]) by {
      assert IsDigit(s[0]) && IsDigit(s[|s| - 1]);
    }
    assert TrimStart(s) == s;
    assert TrimEnd(s) == s;
    assert Trim(s) == s;
  }

  /** The number of occurrences of `c` in `s`. */
  function Count(s: string, c: char): nat {
    if s == [] then 0 else (if s[0] == c then 1 else 0) + Count(s[1..], c)
  }

  lemma {:induction false} CountAppend(a: string, b: string, c: char)
    ensures Count(a + b, c) == Count(a, c) + Count(b, c)
  {
    if a != [] {
      assert (a + b)[0] == a[0] && (a + b)[1..] == a[1..] + b;
      CountAppend(a[1..], b, c);
    } else {
      assert a + b == b;
    }
  }

  lemma {:induction false} CountAbsent(s: string, c: char)
    requires c !in s
    ensures Count(s, c) == 0
  {
    if s != [] {
      CountAbsent(s[1..], c);
    }
  }

  /** `s.startsWith(prefix)`. */
  predicate StartsWith(s: string, prefix: string) {
    prefix <= s
  }

  /** `s.split(sep)` for a one-character separator: the pieces between separators, in order. */
  function Split(s: string, sep: char): (parts: seq<string>)
    ensures |parts| == Count(s, sep) + 1
    ensures forall i :: 0 <= i < |parts| ==> sep !in parts[i]
  {
    if s == [] then [""]
    else
      var rest := Split(s[1..], sep);
      if s[0] == sep then [""] + rest else [[s[0]] + rest[0]] + rest[1..]
  }

  /** `parts.join(sep)`. */
  function Join(parts: seq<string>, sep: string): string {
    if parts == [] then ""
    else if |parts| == 1 then parts[0]
    else parts[0] + sep + Join(parts[1..], sep)
  }

  lemma {:induction false} SplitSeparatorFree(a: string, rest: string, sep: char)
    requires sep !in a
    ensures Split(a + rest, sep) == [a + Split(rest, sep)[0]] + Split(rest, sep)[1..]
  {
    if a != [] {
      assert (a + rest)[0] == a[0] && (a + rest)[1..] == a[1..] + rest;
      SplitSeparatorFree(a[1..], rest, sep);
      assert [a[0]] + (a[1..] + Split(rest, sep)[0]) == a + Split(rest, sep)[0];
    } else {
      assert a + rest == rest;
      var parts := Split(rest, sep);
      assert a + parts[0] == parts[0];
      assert parts == [parts[0]] + parts[1..];
    }
  }

  /** Splitting a join on its one-character separator gives the parts back, when no part holds it. */
  lemma {:induction false} SplitJoin(parts: seq<string>, sep: char)
    requires parts != []
    requires forall i :: 0 <= i < |parts| ==> sep !in parts[i]
    ensures Split(Join(parts, [sep]), sep) == parts
  {
    if |parts| == 1 {
      SplitSeparatorFree(parts[0], "", sep);
      assert parts[0] + "" == parts[0];
    } else {
      var tail := Join(parts[1..], [sep]);
      SplitJoin(parts[1..], sep);
      assert Join(parts, [sep]) == parts[0] + ([sep] + tail);
      SplitSeparatorFree(parts[0], [sep] + tail, sep);
      assert ([sep] + tail)[1..] == tail;
      assert Split([sep] + tail, sep) == [""] + parts[1..];
      assert parts[0] + "" == parts[0];
    }
  }

  /** `s.replace(/[...]/g, "")`: `s` without any character of `drop`. */
  function RemoveChars(s: string, drop: set<char>): string {
    if s == [] then ""
    else (if s[0] in drop then "" else [s[0]]) + RemoveChars(s[1..], drop)
  }

  /** What is left is exactly the characters of `s` not in `drop`. */
  lemma {:induction false} RemoveCharsKeeps(s: string, drop: set<char>, c: char)
    ensures c in RemoveChars(s, drop) <==> c in s && c !in drop
  {
    if s != [] {
      RemoveCharsKeeps(s[1..], drop, c);
      assert s == [s[0]] + s[1..];
    }
  }

  /** The three-digit, zero-padded numeral of `n < 1000`, one group of a grouped numeral. */
  function ThreeDigits(n: nat): (s: string)
    requires n < 1000
    ensures |s| == 3 && AllDigits(s)
  {
    [DigitChar(n / 100), DigitChar(n / 10 % 10), DigitChar(n % 10)]
  }

  /**
   * `n.toLocaleString()` for a natural number in the Japanese locale: digits in groups of three
   * separated by commas, no leading zero.
   */
  function GroupDigits(n: nat): (s: string)
    ensures 1 <= |s|
    ensures forall i :: 0 <= i < |s| ==> IsDigit(s[i]) || s[i] == ','
  {
    if n < 1000 then NatToDecimal(n) else GroupDigits(n / 1000) + "," + ThreeDigits(n % 1000)
  }

  /** Dropping the group separators of a grouped numeral gives the plain numeral. */
  lemma {:induction false} GroupDigitsUngrouped(n: nat)
    ensures RemoveChars(GroupDigits(n), {','}) == NatToDecimal(n)
  {
    if n < 1000 {
      NoCommaRemoved(NatToDecimal(n));
    } else {
      GroupDigitsUngrouped(n / 1000);
      var head, tail := GroupDigits(n / 1000), ThreeDigits(n % 1000);
      assert GroupDigits(n) == head + ("," + tail);
      RemoveCharsAppend(head, "," + tail, {','});
      RemoveCharsAppend(",", tail, {','});
      assert RemoveChars(",", {','}) == "";
      NoCommaRemoved(tail);
      assert RemoveChars("," + tail, {','}) == tail;
      DecimalOfThousands(n);
    }
  }

  lemma {:induction false} NoCommaRemoved(s: string)
    requires AllDigits(s)
    ensures RemoveChars(s, {','}) == s
  {
    if s != [] {
      NoCommaRemoved(s[1..]);
    }
  }

  lemma {:induction false} RemoveCharsAppend(a: string, b: string, drop: set<char>)
    ensures RemoveChars(a + b, drop) == RemoveChars(a, drop) + RemoveChars(b, drop)
  {
    if a != [] {
      assert (a + b)[0] == a[0] && (a + b)[1..] == a[1..] + b;
      RemoveCharsAppend(a[1..], b, drop);
    } else {
      assert a + b == b;
    }
  }

  /** The numeral of `n >= 1000` is the numeral of its thousands followed by three digits. */
  lemma DecimalOfThousands(n: nat)
    requires n >= 1000
    ensures NatToDecimal(n) == NatToDecimal(n / 1000) + ThreeDigits(n % 1000)
  {
    var a, b, c := n / 10, n / 100, n / 1000;
    DigitsOfThousands(n);
    NatToDecimalStep(n);
    NatToDecimalStep(a);
    NatToDecimalStep(b);
    assert ThreeDigits(n % 1000) == [DigitChar(b % 10), DigitChar(a % 10), DigitChar(n % 10)];
  }

  /** The numeral of `n >= 10` is the numeral of `n / 10` followed by the last digit. */
  lemma NatToDecimalStep(n: nat)
    requires n >= 10
    ensures NatToDecimal(n) == NatToDecimal(n / 10) + [DigitChar(n % 10)]
  {
  }

  /** How the last three digits of `n` relate to its tens and hundreds. */
  lemma DigitsOfThousands(n: nat)
    ensures n / 100 == n / 10 / 10 && n / 1000 == n / 100 / 10
    ensures (n % 1000) / 100 == n / 100 % 10
    ensures (n % 1000) / 10 % 10 == n / 10 % 10
    ensures (n % 1000) % 10 == n % 10
  {
    var q, r := n / 1000, n % 1000;
    assert n == 1000 * q + r;
    assert n / 10 == 100 * q + r / 10;
    assert n / 100 == 10 * q + r / 100;
  }

  /**
   * Lexicographic order of strings by character: the order `localeCompare` and the database's
   * `orderBy: { name: "asc" }` are modelled by.
   */
  predicate LexLe(a: string, b: string) {
    a == [] || (b != [] && (a[0] < b[0] || (a[0] == b[0] && LexLe(a[1..], b[1..]))))
  }

  lemma {:induction false} LexLeTotal(a: string, b: string)
    ensures LexLe(a, b) || LexLe(b, a)
  {
    if a != [] && b != [] && a[0] == b[0] {
      LexLeTotal(a[1..], b[1..]);
    }
  }

  lemma {:induction false} LexLeTransitive(a: string, b: string, c: string)
    requires LexLe(a, b) && LexLe(b, c)
    ensures LexLe(a, c)
  {
    if a != [] && b != [] && c != [] && a[0] == b[0] == c[0] {
      LexLeTransitive(a[1..], b[1..], c[1..]);
    }
  }

  lemma {:induction false} LexLeAntisymmetric(a: string, b: string)
    requires LexLe(a, b) && LexLe(b, a)
    ensures a == b
  {
    if a != [] && b != [] {
      LexLeAntisymmetric(a[1..], b[1..]);
      assert a == [a[0]] + a[1..] && b == [b[0]] + b[1..];
    }
  }
}
