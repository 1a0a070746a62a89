/**
 * The one-off import of the old spreadsheet: parsing its CSV export (amounts such as "¥1,300",
 * dates such as "2025/05/01", fields that may be quoted or empty), then rebuilding the store as
 * one group in which だいち holds a linked partner for every other name and records every row,
 * with an offsetting "返済" entry for each repaid row.
 */
module ImportCsv {
  import opened Wrappers
  import opened Sorting
  import opened JsStrings
  import opened Ledger

  // ---------------------------------------------------------------------------------------------
  // Amounts and dates

  /** `parseAmount`: drop every '¥' and ',' and read the rest with `parseInt`; `None` is NaN. */
  function ParseAmount(s: string): Option<int> {
    ParseInt(RemoveChars(s, {'¥', ','}))
  }

  /** Removing characters the string does not hold is the same whatever else is dropped. */
  lemma {:induction false} RemoveCharsUnused(s: string, drop: set<char>, extra: set<char>)
    requires forall i :: 0 <= i < |s| ==> s[i] !in extra
    ensures RemoveChars(s, drop + extra) == RemoveChars(s, drop)
  {
    if s != [] {
      RemoveCharsUnused(s[1..], drop, extra);
    }
  }

  /** Dropping '¥' and ',' from `prefix` followed by a grouped numeral leaves the plain numeral. */
  lemma CleanedAmount(prefix: string, n: nat)
    ensures RemoveChars(prefix + GroupDigits(n), {'¥', ','}) == RemoveChars(prefix, {'¥', ','}) + NatToDecimal(n)
  {
    var grouped := GroupDigits(n);
    RemoveCharsAppend(prefix, grouped, {'¥', ','});
    RemoveCharsUnused(grouped, {','}, {'¥'});
    assert {','} + {'¥'} == {'¥', ','};
    GroupDigitsUngrouped(n);
  }

  /** An amount as the spreadsheet shows a credit, "¥1,300", reads back as its value. */
  lemma ParseAmountOfYen(n: nat)
    ensures ParseAmount("¥" + GroupDigits(n)) == Some(n)
  {
    CleanedAmount("¥", n);
    YenDropped();
    assert "" + NatToDecimal(n) == IntToDecimal(n);
    ParseAmountOfCleaned("¥" + GroupDigits(n), n);
  }

  /** A debit as the spreadsheet shows it, "-¥20,000", reads back as the negative value. */
  lemma ParseAmountOfNegativeYen(n: nat)
    requires n > 0
    ensures ParseAmount("-¥" + GroupDigits(n)) == Some(-(n as int))
  {
    CleanedAmount("-¥", n);
    MinusYenDropped();
    NegativeDecimal(n);
    ParseAmountOfCleaned("-¥" + GroupDigits(n), -(n as int));
  }

  /** Text that is a numeral once '¥' and ',' are dropped reads as that numeral's value. */
  lemma ParseAmountOfCleaned(s: string, n: int)
    requires RemoveChars(s, {'¥', ','}) == IntToDecimal(n)
    ensures ParseAmount(s) == Some(n)
  {
    ParseIntOfDecimal(n);
  }

  lemma YenDropped()
    ensures RemoveChars("¥", {'¥', ','}) == ""
  {
    assert "¥"[1..] == "";
  }

  lemma MinusYenDropped()
    ensures RemoveChars("-¥", {'¥', ','}) == "-"
  {
    assert "-¥"[1..] == "¥";
    YenDropped();
  }

  lemma NegativeDecimal(n: nat)
    requires n > 0
    ensures IntToDecimal(-(n as int)) == "-" + NatToDecimal(n)
  {
  }

  /**
   * The arguments `new Date(year, monthIndex, day)` is called with, in local time. `Date` reads a
   * year from 0 to 99 as 1900 to 1999; it also rolls over out-of-range months and days, which is
   * left to the conversion to an instant.
   */
  datatype LocalDate = LocalDate(year: int, monthIndex: int, day: int)

  /** The full year `new Date` uses for the year argument `y`. */
  function FullYear(y: int): int {
    if 0 <= y <= 99 then 1900 + y else y
  }

  /**
   * `parseDate`: split on '/', read each of the first three pieces with `Number`, and build the
   * local date with the month made 0-based. `None` is an invalid date: a missing piece or a
   * piece `Number` cannot read.
   */
  function ParseDate(s: string): Option<LocalDate> {
    DateOfParts(Split(s, '/'))
  }

  /** The date built from the pieces of a split date string. */
  function DateOfParts(parts: seq<string>): Option<LocalDate> {
    if |parts| < 3 then None
    else DateOfNumbers(NumberOf(parts[0]), NumberOf(parts[1]), NumberOf(parts[2]))
  }

  /** The date of the three numbers read from the pieces; NaN in any of them is an invalid date. */
  function DateOfNumbers(year: Option<int>, month: Option<int>, day: Option<int>): Option<LocalDate> {
    if year.None? || month.None? || day.None? then None
    else Some(LocalDate(FullYear(year.value), month.value - 1, day.value))
  }

  /** "2025/05/01" is 1 May 2025, with month index 4: the pieces are read as plain decimals. */
  lemma ParseDateOfNumerals(y: nat, m: nat, d: nat)
    ensures ParseDate(NatToDecimal(y) + "/" + NatToDecimal(m) + "/" + NatToDecimal(d)) ==
            Some(LocalDate(FullYear(y), m - 1, d))
  {
    NumberOfDecimal(y);
    NumberOfDecimal(m);
    NumberOfDecimal(d);
    ParseDateOfReadable(NatToDecimal(y), NatToDecimal(m), NatToDecimal(d), y, m, d);
  }

  lemma ParseDateOfReadable(ys: string, ms: string, ds: string, y: int, m: int, d: int)
    requires AllDigits(ys) && AllDigits(ms) && AllDigits(ds)
    requires NumberOf(ys) == Some(y) && NumberOf(ms) == Some(m) && NumberOf(ds) == Some(d)
    ensures ParseDate(ys + "/" + ms + "/" + ds) == Some(LocalDate(FullYear(y), m - 1, d))
  {
    ParseDateOfDigits(ys, ms, ds);
    DateOfNumbersRead(y, m, d);
  }

  lemma DateOfNumbersRead(y: int, m: int, d: int)
    ensures DateOfNumbers(Some(y), Some(m), Some(d)) == Some(LocalDate(FullYear(y), m - 1, d))
  {
  }

  /** Three runs of digits joined by '/' are read piece by piece. */
  lemma ParseDateOfDigits(ys: string, ms: string, ds: string)
    requires AllDigits(ys) && AllDigits(ms) && AllDigits(ds)
    ensures ParseDate(ys + "/" + ms + "/" + ds) == DateOfNumbers(NumberOf(ys), NumberOf(ms), NumberOf(ds))
  {
    SplitThree(ys, ms, ds);
    DateOfThreeParts(ys, ms, ds);
  }

  /** Three pieces are read in order as the year, the month and the day. */
  lemma DateOfThreeParts(ys: string, ms: string, ds: string)
    ensures DateOfParts([ys, ms, ds]) == DateOfNumbers(NumberOf(ys), NumberOf(ms), NumberOf(ds))
  {
    var parts := [ys, ms, ds];
    assert parts[0] == ys && parts[1] == ms && parts[2] == ds;
  }

  /** Three numerals joined by '/' split back into the three. */
  lemma SplitThree(ys: string, ms: string, ds: string)
    requires AllDigits(ys) && AllDigits(ms) && AllDigits(ds)
    ensures Split(ys + "/" + ms + "/" + ds, '/') == [ys, ms, ds]
  {
    var parts := [ys, ms, ds];
    assert Join(parts[2..], "/") == ds;
    assert Join(parts[1..], "/") == ms + "/" + ds;
    assert Join(parts, "/") == ys + "/" + ms + "/" + ds;
    forall i | 0 <= i < 3 ensures '/' !in parts[i] {
      assert AllDigits(parts[i]);
    }
    SplitJoin(parts, '/');
  }

  // ---------------------------------------------------------------------------------------------
  // CSV lines

  /** The characters `.` does not match in a JavaScript regular expression. */
  predicate IsLineTerminator(c: char) {
    c == '\n' || c == '\r' || c == '\U{2028}' || c == '\U{2029}'
  }

  /**
   * Where the quoted alternative `".*?"` ends when tried at the start of `s`: the index of the
   * first '"' after the opening one, provided no line terminator comes before it.
   */
  function ClosingQuote(s: string): (r: Option<nat>)
    requires s != [] && s[0] == '"'
    ensures r.Some? ==> 1 <= r.value < |s| && s[r.value] == '"'
  {
    ClosingQuoteFrom(s, 1)
  }

  function ClosingQuoteFrom(s: string, i: nat): (r: Option<nat>)
    requires i <= |s|
    ensures r.Some? ==> i <= r.value < |s| && s[r.value] == '"'
    decreases |s| - i
  {
    if i == |s| || IsLineTerminator(s[i]) then None
    else if s[i] == '"' then Some(i)
    else ClosingQuoteFrom(s, i + 1)
  }

  /** The length of the run of non-commas at the start of `s`: what `[^,]+` takes. */
  function NonCommaRun(s: string): (n: nat)
    ensures n <= |s| && (n < |s| ==> s[n] == ',')
    ensures forall i :: 0 <= i < n ==> s[i] != ','
  {
    if s == [] || s[0] == ',' then 0 else 1 + NonCommaRun(s[1..])
  }

  /**
   * `line.match(/(".*?"|[^,]+|(?<=,)(?=,))/g) || []` on the rest `s` of a line, where
   * `afterComma` says whether the character before `s` is a comma. At each position the regular
   * expression tries a quoted run, then a run of non-commas, then an empty field between two
   * commas; where nothing matches it moves one character on.
   */
  function Tokens(s: string, afterComma: bool): (r: seq<string>)
    decreases |s|
  {
    if s == [] then []
    else if s[0] == '"' && ClosingQuote(s).Some? then
      var j := ClosingQuote(s).value;
      [s[..j + 1]] + Tokens(s[j + 1..], false)
    else if s[0] != ',' then
      var k := NonCommaRun(s);
      [s[..k]] + Tokens(s[k..], false)
    else if afterComma then [""] + Tokens(s[1..], true)
    else Tokens(s[1..], true)
  }

  /** The tokens of a whole line. */
  function LineTokens(line: string): seq<string> {
    Tokens(line, false)
  }

  /** A plain field: non-empty when it must be, no comma, no leading quote. */
  predicate PlainField(f: string) {
    ',' !in f && (f != [] ==> f[0] != '"')
  }

  /** Text that follows a comma and ends in a non-empty plain field splits back into its fields. */
  lemma {:induction false} TokensAfterComma(fields: seq<string>)
    requires fields != [] && fields[|fields| - 1] != []
    requires forall i :: 0 <= i < |fields| ==> PlainField(fields[i])
    ensures Tokens(Join(fields, ","), true) == fields
  {
    if |fields| == 1 {
      assert Join(fields, ",") == fields[0];
      PlainTokens(fields[0], true);
    } else {
      RestPlain(fields);
      TokensAfterComma(fields[1..]);
      FieldThenRest(fields);
    }
  }

  /** One more field in front of a comma-led rest that splits back: the whole splits back. */
  lemma FieldThenRest(fields: seq<string>)
    requires |fields| >= 2 && PlainField(fields[0])
    requires Tokens(Join(fields[1..], ","), true) == fields[1..]
    ensures Tokens(Join(fields, ","), true) == fields
  {
    var rest := fields[1..];
    JoinFirst(fields);
    var tail := "," + Join(rest, ",");
    assert tail[1..] == Join(rest, ",");
    assert fields == [fields[0]] + rest;
    if fields[0] == [] {
      assert fields[0] + tail == tail;
      EmptyFieldToken(tail);
    } else {
      PlainTokensThen(fields[0], tail, true);
    }
  }

  /** Right after a comma, a second comma closes an empty field. */
  lemma EmptyFieldToken(tail: string)
    requires tail != [] && tail[0] == ','
    ensures Tokens(tail, true) == [""] + Tokens(tail[1..], true)
  {
  }

  /** A join of two or more fields is the first, a comma, and the join of the rest. */
  lemma JoinFirst(fields: seq<string>)
    requires |fields| >= 2
    ensures Join(fields, ",") == fields[0] + ("," + Join(fields[1..], ","))
  {
    assert fields[0] + "," + Join(fields[1..], ",") == fields[0] + ("," + Join(fields[1..], ","));
  }

  /** The fields after the first keep the last field non-empty and every field plain. */
  lemma RestPlain(fields: seq<string>)
    requires |fields| >= 2 && fields[|fields| - 1] != []
    requires forall i :: 0 <= i < |fields| ==> PlainField(fields[i])
    ensures var rest := fields[1..];
      rest != [] && rest[|rest| - 1] != [] && forall i :: 0 <= i < |rest| ==> PlainField(rest[i])
  {
    var rest := fields[1..];
    assert rest[|rest| - 1] == fields[|fields| - 1];
    forall i | 0 <= i < |rest| ensures PlainField(rest[i]) {
      assert rest[i] == fields[i + 1];
    }
  }

  /**
   * A line of plain fields whose first and last fields are non-empty splits back into its
   * fields; empty fields between them are kept.
   */
  lemma LineTokensOfPlainFields(fields: seq<string>)
    requires fields != [] && fields[0] != [] && fields[|fields| - 1] != []
    requires forall i :: 0 <= i < |fields| ==> PlainField(fields[i])
    ensures LineTokens(Join(fields, ",")) == fields
  {
    if |fields| == 1 {
      assert Join(fields, ",") == fields[0];
      PlainTokens(fields[0], false);
    } else {
      ManyFieldsLine(fields);
    }
  }

  lemma ManyFieldsLine(fields: seq<string>)
    requires |fields| >= 2 && fields[0] != [] && fields[|fields| - 1] != []
    requires forall i :: 0 <= i < |fields| ==> PlainField(fields[i])
    ensures Tokens(Join(fields, ","), false) == fields
  {
    JoinFirst(fields);
    RestPlain(fields);
    assert PlainField(fields[0]);
    FirstThenAfterComma(fields[0], fields[1..]);
    assert fields == [fields[0]] + fields[1..];
  }

  lemma FirstThenAfterComma(first: string, rest: seq<string>)
    requires first != [] && PlainField(first)
    requires rest != [] && rest[|rest| - 1] != []
    requires forall i :: 0 <= i < |rest| ==> PlainField(rest[i])
    ensures Tokens(first + ("," + Join(rest, ",")), false) == [first] + rest
  {
    var tail := "," + Join(rest, ",");
    PlainTokensThen(first, tail, false);
    assert tail[1..] == Join(rest, ",");
    TokensAfterComma(rest);
  }

  lemma PlainTokens(f: string, afterComma: bool)
    requires f != [] && PlainField(f)
    ensures Tokens(f, afterComma) == [f]
  {
    assert f[..NonCommaRun(f)] == f by {
      NonCommaRunWhole(f);
    }
  }

  lemma PlainTokensThen(f: string, tail: string, afterComma: bool)
    requires f != [] && PlainField(f) && tail != [] && tail[0] == ','
    ensures Tokens(f + tail, afterComma) == [f] + Tokens(tail[1..], true)
  {
    var s := f + tail;
    NonCommaRunPrefix(f, tail);
    assert s[..|f|] == f && s[|f|..] == tail;
    assert s[0] == f[0];
  }

  lemma {:induction false} NonCommaRunWhole(f: string)
    requires ',' !in f
    ensures NonCommaRun(f) == |f|
  {
    if f != [] {
      NonCommaRunWhole(f[1..]);
    }
  }

  lemma {:induction false} NonCommaRunPrefix(f: string, tail: string)
    requires ',' !in f && tail != [] && tail[0] == ','
    ensures NonCommaRun(f + tail) == |f|
  {
    if f == [] {
      assert f + tail == tail;
    } else {
      assert (f + tail)[1..] == f[1..] + tail;
      NonCommaRunPrefix(f[1..], tail);
    }
  }

  /** A leading empty field is not matched: the lookbehind needs a comma before it. */
  lemma LeadingEmptyFieldDropped()
    ensures LineTokens(",x") == ["x"]
  {
    assert Tokens(",x", false) == Tokens("x", true);
    PlainTokens("x", true);
  }

  /** A quoted field keeps its commas: "¥1,300" in quotes is one token. */
  lemma QuotedFieldKeepsCommas(s: string, rest: string)
    requires '"' !in s && forall i :: 0 <= i < |s| ==> !IsLineTerminator(s[i])
    ensures Tokens("\"" + s + "\"" + rest, false) == ["\"" + s + "\"" + []] + Tokens(rest, false)
  {
    var q := "\"" + s + "\"" + rest;
    assert ClosingQuoteFrom(q, 1) == Some(|s| + 1) by {
      ClosingQuoteSkips(q, 1, |s| + 1);
    }
    assert q[..|s| + 2] == "\"" + s + "\"" + [];
    assert q[|s| + 2..] == rest;
  }

  lemma {:induction false} ClosingQuoteSkips(s: string, i: nat, j: nat)
    requires i <= j < |s| && s[j] == '"'
    requires forall k :: i <= k < j ==> s[k] != '"' && !IsLineTerminator(s[k])
    ensures ClosingQuoteFrom(s, i) == Some(j)
    decreases j - i
  {
    if i < j {
      ClosingQuoteSkips(s, i + 1, j);
    }
  }

  /** `f.replace(/^"|"$/g, "")`: one leading and one trailing double quote removed. */
  function StripQuotes(f: string): (r: string)
    ensures |r| <= |f|
  {
    var a := if f != [] && f[0] == '"' then f[1..] else f;
    if a != [] && a[|a| - 1] == '"' then a[..|a| - 1] else a
  }

  /** A field as the row reads it: quotes stripped, then trimmed. */
  function CleanField(f: string): string {
    Trim(StripQuotes(f))
  }

  /** Quoting a field that holds no surrounding white space gives the field back. */
  lemma CleanQuotedField(s: string)
    requires '"' !in s
    requires s != [] ==> !IsJsWhiteSpace(s[0]) && !IsJsWhiteSpace(s[|s| - 1])
    ensures CleanField("\"" + s + "\"") == s
  {
    var f := "\"" + s + "\"";
    assert StripQuotes(f) == s by {
      assert f[1..] == s + "\"";
      assert (s + "\"")[..|s|] == s;
    }
    TrimUntouched(s);
  }

  lemma TrimUntouched(s: string)
    requires s != [] ==> !IsJsWhiteSpace(s[0]) && !IsJsWhiteSpace(s[|s| - 1])
    ensures Trim(s) == s
  {
    if s != [] {
      assert TrimStart(s) == s;
      assert TrimEnd(s) == s;
    }
  }

  /** One parsed line of the export. */
  datatype CsvRow = CsvRow(
    date: Option<LocalDate>,                // `None`: an invalid date
    name: string,
    amount: Option<int>,                    // `None`: NaN
    description: string,
    repaymentDate: Option<Option<LocalDate>>)  // `None`: no repayment; `Some(None)`: an invalid date

  /**
   * The callback of `parseCsv` for one line: the cleaned fields, destructured as date, name,
   * amount, description and repayment date. A line with fewer than three fields makes
   * `parseDate` or `parseAmount` run on `undefined`, which throws (`None`).
   */
  function ParseLine(line: string): (r: Option<CsvRow>)
    ensures r.Some? <==> |LineTokens(line)| >= 3
  {
    var tokens := LineTokens(line);
    if |tokens| < 3 then None
    else
      var fields := seq(|tokens|, i requires 0 <= i < |tokens| => CleanField(tokens[i]));
      Some(CsvRow(
        ParseDate(fields[0]),
        fields[1],
        ParseAmount(fields[2]),
        if |fields| >= 4 then fields[3] else "",
        if |fields| >= 5 && fields[4] != "" then Some(ParseDate(fields[4])) else None))
  }

  /** Does every line parse? */
  predicate AllLinesParse(lines: seq<string>) {
    forall i :: 0 <= i < |lines| ==> ParseLine(lines[i]).Some?
  }

  /**
   * `parseCsv` on the file's content: trim, split into lines, skip the header, parse each line.
   * `None` when a line throws.
   */
  function ParseCsv(content: string): (r: Option<seq<CsvRow>>)
    ensures var data := Split(Trim(content), '\n')[1..];
      && (r.Some? <==> AllLinesParse(data))
      && (r.Some? ==> |r.value| == |data| == Count(Trim(content), '\n'))
      && (r.Some? ==> forall i :: 0 <= i < |data| ==> ParseLine(data[i]) == Some(r.value[i]))
  {
    var data := Split(Trim(content), '\n')[1..];
    if AllLinesParse(data) then Some(seq(|data|, i requires 0 <= i < |data| => ParseLine(data[i]).value))
    else None
  }

  // ---------------------------------------------------------------------------------------------
  // The import

  const GroupName: string := "原チャ"
  const AdminName: string := "だいち"
  const RepaymentDescription: string := "返済"
  const Lent: string := "貸し"
  const Borrowed: string := "借り"

  /** Does `newId` hand out a different id on every call? */
  ghost predicate Injective(newId: nat -> string) {
    forall a: nat, b: nat {:trigger IdsApart(newId, a, b)} :: a != b ==> IdsApart(newId, a, b)
  }

  /** The `a`-th and `b`-th ids differ. */
  ghost predicate IdsApart(newId: nat -> string, a: nat, b: nat) {
    newId(a) != newId(b)
  }

  /** Different calls of an injective `createId` hand out different ids. */
  lemma Apart(newId: nat -> string, a: nat, b: nat)
    requires Injective(newId) && a != b
    ensures newId(a) != newId(b)
  {
    assert IdsApart(newId, a, b);
  }

  /**
   * The ids `createId` hands out, by call: 0 the group, 1 its invite code, 2 だいち, then one per
   * member account, one per だいち partner, one per member's partner, one per transaction.
   */
  function MemberSlot(k: nat): nat { 3 + k }
  function OwnPartnerSlot(n: nat, k: nat): nat { 3 + n + k }
  function BackPartnerSlot(n: nat, k: nat): nat { 3 + 2 * n + k }
  function TransactionSlot(n: nat, j: nat): nat { 3 + 3 * n + j }

  /** `[...new Set(rows.map((r) => r.name))]`: each name once, in order of first appearance. */
  function PartnerNames(rows: seq<CsvRow>): (names: seq<string>)
    ensures Distinct(names)
    ensures forall i :: 0 <= i < |rows| ==> rows[i].name in names
    ensures forall k :: 0 <= k < |names| ==> exists i :: 0 <= i < |rows| && rows[i].name == names[k]
  {
    var all := seq(|rows|, i requires 0 <= i < |rows| => rows[i].name);
    var names := Dedup(all);
    assert forall i :: 0 <= i < |rows| ==> rows[i].name in names by {
      forall i | 0 <= i < |rows| ensures rows[i].name in names {
        assert all[i] == rows[i].name;
      }
    }
    assert forall k :: 0 <= k < |names| ==> exists i :: 0 <= i < |rows| && rows[i].name == names[k] by {
      forall k | 0 <= k < |names| ensures exists i :: 0 <= i < |rows| && rows[i].name == names[k] {
        var i :| 0 <= i < |all| && all[i] == names[k];
      }
    }
    names
  }





  /** The accounts once the first `count` members have been created next to だいち. */
  function AccountsUpTo(names: seq<string>, count: nat, passwordHash: string, newId: nat -> string)
    : map<AccountId, Account>
    requires count <= |names|
  {
    if count == 0 then map[newId(2) := Account(AdminName, passwordHash, Some(newId(0)), Admin)]
    else
      AccountsUpTo(names, count - 1, passwordHash, newId)[
        newId(MemberSlot(count - 1)) := Account(names[count - 1], passwordHash, Some(newId(0)), Member)]
  }

  /** だいち's partners once the first `count` have been created: one per name, linked to its account. */
  function OwnPartnersUpTo(names: seq<string>, count: nat, newId: nat -> string): map<PartnerId, Partner>
    requires count <= |names|
  {
    if count == 0 then map[]
    else
      OwnPartnersUpTo(names, count - 1, newId)[
        newId(OwnPartnerSlot(|names|, count - 1)) := Partner(names[count - 1], newId(2), Some(newId(MemberSlot(count - 1))))]
  }

  /** All partners once the first `count` members have their partner "だいち", linked back to だいち. */
  function PartnersUpTo(names: seq<string>, count: nat, newId: nat -> string): map<PartnerId, Partner>
    requires count <= |names|
  {
    if count == 0 then OwnPartnersUpTo(names, |names|, newId)
    else
      PartnersUpTo(names, count - 1, newId)[
        newId(BackPartnerSlot(|names|, count - 1)) := Partner(AdminName, newId(MemberSlot(count - 1)), Some(newId(2)))]
  }

  /** The id of だいち's partner for `name`. */
  function OwnPartnerId(names: seq<string>, name: string, newId: nat -> string): PartnerId
    requires name in names
  {
    newId(OwnPartnerSlot(|names|, IndexOf(names, name)))
  }

  /** `row.description || null`. */
  function StoredDescription(description: string): Option<string> {
    if description == "" then None else Some(description)
  }

  /**
   * What one row writes: its transaction and, when it has a repayment date, the offsetting
   * transaction of the opposite amount described "返済". The flag is false where the database
   * refuses a write: a NaN amount or an invalid date.
   */
  function RowEntries(row: CsvRow, partnerId: PartnerId, adminId: AccountId, instant: LocalDate -> int)
    : (r: (seq<Transaction>, bool))
    ensures r.1 ==> |r.0| == (if row.repaymentDate.Some? then 2 else 1)
  {
    if row.amount.None? || row.date.None? then ([], false)
    else
      var t := Transaction(row.amount.value, StoredDescription(row.description), instant(row.date.value), adminId, partnerId);
      match row.repaymentDate
      case None => ([t], true)
      case Some(None) => ([t], false)
      case Some(Some(d)) =>
        ([t, Transaction(-row.amount.value, Some(RepaymentDescription), instant(d), adminId, partnerId)], true)
  }

  /** The transactions the rows write, in order, up to and including the first refused write. */
  function Entries(rows: seq<CsvRow>, names: seq<string>, newId: nat -> string, instant: LocalDate -> int)
    : (seq<Transaction>, bool)
    requires forall i :: 0 <= i < |rows| ==> rows[i].name in names
  {
    if rows == [] then ([], true)
    else
      var front := Entries(rows[..|rows| - 1], names, newId, instant);
      if !front.1 then front
      else
        var row := rows[|rows| - 1];
        var more := RowEntries(row, OwnPartnerId(names, row.name, newId), newId(2), instant);
        (front.0 + more.0, more.1)
  }

  /** The transaction table holding `entries` under consecutive ids from `base`. */
  function TransactionsMap(entries: seq<Transaction>, base: nat, newId: nat -> string): map<TransactionId, Transaction> {
    if entries == [] then map[]
    else TransactionsMap(entries[..|entries| - 1], base, newId)[newId(base + |entries| - 1) := entries[|entries| - 1]]
  }

  /** How many rows have a repayment date. */
  function RepaidCount(rows: seq<CsvRow>): nat {
    if rows == [] then 0
    else RepaidCount(rows[..|rows| - 1]) + (if rows[|rows| - 1].repaymentDate.Some? then 1 else 0)
  }

  /** What the import reports: the counters, the summary lines and the total balance. */
  datatype ImportReport = ImportReport(
    transactionCount: nat, repaymentCount: nat, summary: seq<SummaryLine>, totalBalance: int)

  /** One line of the balance summary. */
  datatype SummaryLine = SummaryLine(name: string, balance: int, status: string)

  /** How the import fails. */
  datatype ImportFailure =
    | Unreadable          // `parseCsv` throws: nothing has been changed
    | RowRejected(row: nat) // the database refuses a transaction of this row

  /** The sum of the amounts of the entries recorded against `partnerId`: its `_sum.amount`. */
  function PartnerSum(entries: seq<Transaction>, partnerId: PartnerId): int {
    if entries == [] then 0
    else
      PartnerSum(entries[..|entries| - 1], partnerId)
      + (if entries[|entries| - 1].partnerId == partnerId then entries[|entries| - 1].amount else 0)
  }

  /** The balance of each of だいち's partners, in the order of `names`. */
  function Balances(names: seq<string>, entries: seq<Transaction>, newId: nat -> string): (b: seq<(string, int)>)
    ensures |b| == |names|
  {
    seq(|names|, k requires 0 <= k < |names| => (names[k], PartnerSum(entries, newId(OwnPartnerSlot(|names|, k)))))
  }

  /** The summary loop: skip a zero balance, label the rest 貸し when positive and 借り otherwise. */
  function SummaryLines(balances: seq<(string, int)>): (lines: seq<SummaryLine>)
    ensures |lines| <= |balances|
    ensures forall i :: 0 <= i < |lines| ==> lines[i].balance != 0
    ensures forall i :: 0 <= i < |lines| ==> lines[i].status == (if lines[i].balance > 0 then Lent else Borrowed)
  {
    if balances == [] then []
    else
      var (name, balance) := balances[0];
      var rest := SummaryLines(balances[1..]);
      if balance == 0 then rest
      else [SummaryLine(name, balance, if balance > 0 then Lent else Borrowed)] + rest
  }

  /** The `reduce` that totals the balances. */
  function TotalBalance(balances: seq<(string, int)>): int {
    if balances == [] then 0 else balances[0].1 + TotalBalance(balances[1..])
  }

  /** The report of an import whose writes all succeeded. */
  function Report(rows: seq<CsvRow>, names: seq<string>, entries: seq<Transaction>, newId: nat -> string): ImportReport {
    var balances := Balances(names, entries, newId);
    ImportReport(|rows|, RepaidCount(rows), SummaryLines(balances), TotalBalance(balances))
  }

  /**
   * `main`: parse the export, then write it; a file that does not parse changes nothing.
   * `newId(i)` is the id of the `i`-th `createId` call and `instant` turns a local date into an
   * instant.
   */
  method Import(db: Store, content: string, passwordHash: string, newId: nat -> string, instant: LocalDate -> int)
    returns (r: Result<ImportReport, ImportFailure>)
    requires Injective(newId)
    modifies db
    ensures ParseCsv(content).None? ==>
      && r == Err(Unreadable)
      && db.groups == old(db.groups) && db.accounts == old(db.accounts)
      && db.partners == old(db.partners) && db.transactions == old(db.transactions)
    ensures ParseCsv(content).Some? ==> Imported(db, ParseCsv(content).value, passwordHash, newId, instant, r)
  {
    var parsed := ParseCsv(content);
    if parsed.None? {
      return Err(Unreadable);
    }
    r := ImportRows(db, parsed.value, passwordHash, newId, instant);
  }

  /**
   * The tables and the outcome after importing `rows`: the one group, だいち and a member per
   * name, the partners both ways, the transactions up to the first refused write, and the report
   * when every write succeeded.
   */
  ghost predicate Imported(db: Store, rows: seq<CsvRow>, passwordHash: string, newId: nat -> string,
                           instant: LocalDate -> int, r: Result<ImportReport, ImportFailure>)
    reads db
  {
    var names := PartnerNames(rows);
    var (entries, ok) := Entries(rows, names, newId, instant);
    && db.groups == map[newId(0) := Group(GroupName, newId(1))]
    && db.accounts == AccountsUpTo(names, |names|, passwordHash, newId)
    && db.partners == PartnersUpTo(names, |names|, newId)
    && db.transactions == TransactionsMap(entries, TransactionSlot(|names|, 0), newId)
    && (r.Ok? <==> ok)
    && (r.Ok? ==> r.value == Report(rows, names, entries, newId))
  }

  /**
   * The writing part of `main`: empty the four tables, create the group, だいち as its ADMIN, one
   * MEMBER account per name, the linked partners in both directions, then each row's
   * transactions, and report.
   */
  method ImportRows(db: Store, rows: seq<CsvRow>, passwordHash: string, newId: nat -> string, instant: LocalDate -> int)
    returns (r: Result<ImportReport, ImportFailure>)
    requires Injective(newId)
    modifies db
    ensures Imported(db, rows, passwordHash, newId, instant, r)
  {
    var names := PartnerNames(rows);
    db.transactions, db.partners, db.accounts, db.groups := map[], map[], map[], map[];
    db.groups := map[newId(0) := Group(GroupName, newId(1))];
    db.accounts := map[newId(2) := Account(AdminName, passwordHash, Some(newId(0)), Admin)];
    var memberAccounts := CreateMembers(db, names, passwordHash, newId);
    var ownPartners := CreateOwnPartners(db, names, memberAccounts, newId);
    CreateBackPartners(db, names, memberAccounts, newId);
    var written := CreateTransactions(db, rows, names, ownPartners, newId, instant);
    if written.Err? {
      return Err(RowRejected(written.error));
    }
    var balances := Balances(names, Entries(rows, names, newId, instant).0, newId);
    r := Ok(ImportReport(written.value.0, written.value.1, SummaryLines(balances), TotalBalance(balances)));
  }

  /** The member loop: one MEMBER account per name, remembered by name. */
  method CreateMembers(db: Store, names: seq<string>, passwordHash: string, newId: nat -> string)
    returns (memberAccounts: map<string, AccountId>)
    requires Distinct(names)
    requires db.accounts == AccountsUpTo(names, 0, passwordHash, newId)
    modifies db`accounts
    ensures db.accounts == AccountsUpTo(names, |names|, passwordHash, newId)
    ensures forall k :: 0 <= k < |names| ==> names[k] in memberAccounts && memberAccounts[names[k]] == newId(MemberSlot(k))
  {
    memberAccounts := map[];
    var i := 0;
    while i < |names|
      invariant 0 <= i <= |names|
      invariant db.accounts == AccountsUpTo(names, i, passwordHash, newId)
      invariant forall k :: 0 <= k < i ==> names[k] in memberAccounts && memberAccounts[names[k]] == newId(MemberSlot(k))
    {
      var id := newId(MemberSlot(i));
      db.accounts := db.accounts[id := Account(names[i], passwordHash, Some(newId(0)), Member)];
      memberAccounts := memberAccounts[names[i] := id];
      i := i + 1;
    }
  }

  /** The loop creating だいち's partners, one per name and linked to that member's account. */
  method CreateOwnPartners(db: Store, names: seq<string>, memberAccounts: map<string, AccountId>, newId: nat -> string)
    returns (ownPartners: map<string, PartnerId>)
    requires Distinct(names)
    requires forall k :: 0 <= k < |names| ==> names[k] in memberAccounts && memberAccounts[names[k]] == newId(MemberSlot(k))
    modifies db`partners
    ensures db.partners == OwnPartnersUpTo(names, |names|, newId)
    ensures forall k :: 0 <= k < |names| ==> names[k] in ownPartners && ownPartners[names[k]] == newId(OwnPartnerSlot(|names|, k))
  {
    db.partners := map[];
    ownPartners := map[];
    var i := 0;
    while i < |names|
      invariant 0 <= i <= |names|
      invariant db.partners == OwnPartnersUpTo(names, i, newId)
      invariant forall k :: 0 <= k < i ==> names[k] in ownPartners && ownPartners[names[k]] == newId(OwnPartnerSlot(|names|, k))
    {
      var id := newId(OwnPartnerSlot(|names|, i));
      db.partners := db.partners[id := Partner(names[i], newId(2), Some(memberAccounts[names[i]]))];
      ownPartners := ownPartners[names[i] := id];
      i := i + 1;
    }
  }

  /** The loop giving every member the partner "だいち", linked back to だいち. */
  method CreateBackPartners(db: Store, names: seq<string>, memberAccounts: map<string, AccountId>, newId: nat -> string)
    requires forall k :: 0 <= k < |names| ==> names[k] in memberAccounts && memberAccounts[names[k]] == newId(MemberSlot(k))
    requires db.partners == OwnPartnersUpTo(names, |names|, newId)
    modifies db`partners
    ensures db.partners == PartnersUpTo(names, |names|, newId)
  {
    var i := 0;
    while i < |names|
      invariant 0 <= i <= |names|
      invariant db.partners == PartnersUpTo(names, i, newId)
    {
      db.partners := db.partners[newId(BackPartnerSlot(|names|, i)) := Partner(AdminName, memberAccounts[names[i]], Some(newId(2)))];
      i := i + 1;
    }
  }

  /**
   * The transaction loop: each row's transaction, then its offsetting repayment, counted as they
   * are written. Stops with the row's index at the first write the database refuses.
   */
  method CreateTransactions(db: Store, rows: seq<CsvRow>, names: seq<string>, ownPartners: map<string, PartnerId>,
                            newId: nat -> string, instant: LocalDate -> int)
    returns (r: Result<(nat, nat), nat>)
    requires Distinct(names) && forall i :: 0 <= i < |rows| ==> rows[i].name in names
    requires forall k :: 0 <= k < |names| ==> names[k] in ownPartners && ownPartners[names[k]] == newId(OwnPartnerSlot(|names|, k))
    modifies db`transactions
    ensures var (entries, ok) := Entries(rows, names, newId, instant);
      && db.transactions == TransactionsMap(entries, TransactionSlot(|names|, 0), newId)
      && (r.Ok? <==> ok)
      && (r.Ok? ==> r.value == (|rows|, RepaidCount(rows)))
  {
    var base := TransactionSlot(|names|, 0);
    db.transactions := map[];
    var entries: seq<Transaction> := [];
    var transactionCount, repaymentCount := 0, 0;
    var i := 0;
    while i < |rows|
      invariant 0 <= i <= |rows|
      invariant Entries(rows[..i], names, newId, instant) == (entries, true)
      invariant db.transactions == TransactionsMap(entries, base, newId)
      invariant transactionCount == i && repaymentCount == RepaidCount(rows[..i])
    {
      RowPartner(names, ownPartners, rows[i].name, newId);
      EntriesStep(rows, i, names, newId, instant);
      var written, ok := WriteRow(db, rows[i], ownPartners[rows[i].name], newId(2), base, entries, newId, instant);
      if !ok {
        EntriesStopAtFailure(rows, i + 1, names, newId, instant);
        return Err(i);
      }
      entries := written;
      transactionCount := transactionCount + 1;
      if rows[i].repaymentDate.Some? {
        repaymentCount := repaymentCount + 1;
      }
      RepaidCountStep(rows, i);
      i := i + 1;
    }
    assert rows[..i] == rows;
    r := Ok((transactionCount, repaymentCount));
  }

  /**
   * One pass of the transaction loop: the row's transaction, then its repayment, each written
   * under the next id; `ok` is false at the first write the database refuses.
   */
  method WriteRow(db: Store, row: CsvRow, partnerId: PartnerId, adminId: AccountId, base: nat,
                  entries: seq<Transaction>, newId: nat -> string, instant: LocalDate -> int)
    returns (written: seq<Transaction>, ok: bool)
    requires db.transactions == TransactionsMap(entries, base, newId)
    modifies db`transactions
    ensures (written, ok) == (entries + RowEntries(row, partnerId, adminId, instant).0,
                              RowEntries(row, partnerId, adminId, instant).1)
    ensures db.transactions == TransactionsMap(written, base, newId)
  {
    written := entries;
    if row.amount.None? || row.date.None? {
      assert entries + [] == entries;
      return written, false;
    }
    var t := Transaction(row.amount.value, StoredDescription(row.description), instant(row.date.value), adminId, partnerId);
    TransactionsMapSnoc(written, t, base, newId);
    db.transactions := db.transactions[newId(base + |written|) := t];
    written := written + [t];
    if row.repaymentDate.None? {
      return written, true;
    }
    if row.repaymentDate.value.None? {
      return written, false;
    }
    var offset := Transaction(-row.amount.value, Some(RepaymentDescription), instant(row.repaymentDate.value.value),
                              adminId, partnerId);
    TransactionsMapSnoc(written, offset, base, newId);
    db.transactions := db.transactions[newId(base + |written|) := offset];
    written := written + [offset];
    assert written == entries + [t, offset];
    ok := true;
  }

  /** The id the `Record` of だいち's partners holds for a name is that name's own-partner slot. */
  lemma RowPartner(names: seq<string>, ownPartners: map<string, PartnerId>, name: string, newId: nat -> string)
    requires Distinct(names) && name in names
    requires forall k :: 0 <= k < |names| ==> names[k] in ownPartners && ownPartners[names[k]] == newId(OwnPartnerSlot(|names|, k))
    ensures name in ownPartners && ownPartners[name] == OwnPartnerId(names, name, newId)
  {
    IndexOfUnique(names, IndexOf(names, name));
  }

  /** One more row appends what that row writes. */
  lemma EntriesStep(rows: seq<CsvRow>, i: nat, names: seq<string>, newId: nat -> string, instant: LocalDate -> int)
    requires i < |rows| && forall j :: 0 <= j < |rows| ==> rows[j].name in names
    requires Entries(rows[..i], names, newId, instant).1
    ensures var more := RowEntries(rows[i], OwnPartnerId(names, rows[i].name, newId), newId(2), instant);
      Entries(rows[..i + 1], names, newId, instant) == (Entries(rows[..i], names, newId, instant).0 + more.0, more.1)
  {
    assert rows[..i + 1][..i] == rows[..i];
  }

  /** Writing one more entry adds it under the next id. */
  lemma TransactionsMapSnoc(entries: seq<Transaction>, t: Transaction, base: nat, newId: nat -> string)
    ensures TransactionsMap(entries + [t], base, newId) == TransactionsMap(entries, base, newId)[newId(base + |entries|) := t]
  {
    assert (entries + [t])[..|entries|] == entries;
  }

  lemma RepaidCountStep(rows: seq<CsvRow>, i: nat)
    requires i < |rows|
    ensures RepaidCount(rows[..i + 1]) == RepaidCount(rows[..i]) + (if rows[i].repaymentDate.Some? then 1 else 0)
  {
    assert rows[..i + 1][..i] == rows[..i];
  }

  /** Once a write is refused, later rows write nothing. */
  lemma {:induction false} EntriesStopAtFailure(rows: seq<CsvRow>, j: nat, names: seq<string>, newId: nat -> string,
                                                instant: LocalDate -> int)
    requires j <= |rows| && forall i :: 0 <= i < |rows| ==> rows[i].name in names
    requires !Entries(rows[..j], names, newId, instant).1
    ensures Entries(rows, names, newId, instant) == Entries(rows[..j], names, newId, instant)
    decreases |rows| - j
  {
    if j < |rows| {
      var front := rows[..|rows| - 1];
      assert front[..j] == rows[..j];
      EntriesStopAtFailure(front, j, names, newId, instant);
    } else {
      assert rows[..j] == rows;
    }
  }

  // ---------------------------------------------------------------------------------------------
  // What the import leaves behind

  /** だいち, then one MEMBER per name, all in the one group with the one password hash. */
  lemma {:induction false} AccountsUpToFacts(names: seq<string>, count: nat, passwordHash: string, newId: nat -> string,
                                             m: map<AccountId, Account>)
    requires Injective(newId) && count <= |names| && m == AccountsUpTo(names, count, passwordHash, newId)
    ensures newId(2) in m && m[newId(2)] == Account(AdminName, passwordHash, Some(newId(0)), Admin)
    ensures forall k :: 0 <= k < count ==>
      newId(MemberSlot(k)) in m && m[newId(MemberSlot(k))] == Account(names[k], passwordHash, Some(newId(0)), Member)
    ensures forall id :: id in m ==> id == newId(2) || exists k :: 0 <= k < count && id == newId(MemberSlot(k))
  {
    if count > 0 {
      var prev := AccountsUpTo(names, count - 1, passwordHash, newId);
      AccountsUpToFacts(names, count - 1, passwordHash, newId, prev);
      Apart(newId, MemberSlot(count - 1), 2);
      forall k | 0 <= k < count - 1 ensures newId(MemberSlot(count - 1)) != newId(MemberSlot(k)) {
        Apart(newId, MemberSlot(count - 1), MemberSlot(k));
      }
      forall x | x in m ensures x == newId(2) || exists k :: 0 <= k < count && x == newId(MemberSlot(k)) {
        if x != newId(MemberSlot(count - 1)) {
          assert x in prev;
        }
      }
    }
  }

  /** だいち's partners: one per name, linked to that name's account. */
  lemma {:induction false} OwnPartnersUpToFacts(names: seq<string>, count: nat, newId: nat -> string,
                                                m: map<PartnerId, Partner>)
    requires Injective(newId) && count <= |names| && m == OwnPartnersUpTo(names, count, newId)
    ensures forall k :: 0 <= k < count ==>
      newId(OwnPartnerSlot(|names|, k)) in m
      && m[newId(OwnPartnerSlot(|names|, k))] == Partner(names[k], newId(2), Some(newId(MemberSlot(k))))
    ensures forall id :: id in m ==> exists k :: 0 <= k < count && id == newId(OwnPartnerSlot(|names|, k))
  {
    if count > 0 {
      var n := |names|;
      var prev := OwnPartnersUpTo(names, count - 1, newId);
      OwnPartnersUpToFacts(names, count - 1, newId, prev);
      var id := newId(OwnPartnerSlot(n, count - 1));
      forall k | 0 <= k < count
        ensures newId(OwnPartnerSlot(n, k)) in m
        ensures m[newId(OwnPartnerSlot(n, k))] == Partner(names[k], newId(2), Some(newId(MemberSlot(k))))
      {
        if k < count - 1 {
          Apart(newId, OwnPartnerSlot(n, count - 1), OwnPartnerSlot(n, k));
        }
      }
      forall x | x in m ensures exists k :: 0 <= k < count && x == newId(OwnPartnerSlot(n, k)) {
        if x == id {
          assert 0 <= count - 1 < count;
        } else {
          assert x in prev;
          var k :| 0 <= k < count - 1 && x == newId(OwnPartnerSlot(n, k));
        }
      }
    }
  }

  /** The partner table: だいち's partners as above, and every member's partner "だいち" linked back. */
  lemma PartnersUpToFacts(names: seq<string>, count: nat, newId: nat -> string, m: map<PartnerId, Partner>)
    requires Injective(newId) && count <= |names| && m == PartnersUpTo(names, count, newId)
    ensures forall k :: 0 <= k < |names| ==>
      newId(OwnPartnerSlot(|names|, k)) in m
      && m[newId(OwnPartnerSlot(|names|, k))] == Partner(names[k], newId(2), Some(newId(MemberSlot(k))))
    ensures forall k :: 0 <= k < count ==>
      newId(BackPartnerSlot(|names|, k)) in m
      && m[newId(BackPartnerSlot(|names|, k))] == Partner(AdminName, newId(MemberSlot(k)), Some(newId(2)))
    ensures forall id :: id in m ==>
      (exists k :: 0 <= k < |names| && id == newId(OwnPartnerSlot(|names|, k)))
      || (exists k :: 0 <= k < count && id == newId(BackPartnerSlot(|names|, k)))
  {
    PartnersUpToOwn(names, count, newId, m);
    PartnersUpToBack(names, count, newId, m);
    PartnersUpToKeys(names, count, newId, m);
  }

  lemma {:induction false} PartnersUpToOwn(names: seq<string>, count: nat, newId: nat -> string, m: map<PartnerId, Partner>)
    requires Injective(newId) && count <= |names| && m == PartnersUpTo(names, count, newId)
    ensures forall k :: 0 <= k < |names| ==>
      newId(OwnPartnerSlot(|names|, k)) in m
      && m[newId(OwnPartnerSlot(|names|, k))] == Partner(names[k], newId(2), Some(newId(MemberSlot(k))))
  {
    if count == 0 {
      OwnPartnersUpToFacts(names, |names|, newId, m);
    } else {
      PartnersUpToOwn(names, count - 1, newId, PartnersUpTo(names, count - 1, newId));
      var n := |names|;
      var id := newId(BackPartnerSlot(n, count - 1));
      forall k | 0 <= k < n ensures id != newId(OwnPartnerSlot(n, k)) {
        Apart(newId, BackPartnerSlot(n, count - 1), OwnPartnerSlot(n, k));
      }
    }
  }

  lemma {:induction false} PartnersUpToBack(names: seq<string>, count: nat, newId: nat -> string, m: map<PartnerId, Partner>)
    requires Injective(newId) && count <= |names| && m == PartnersUpTo(names, count, newId)
    ensures forall k :: 0 <= k < count ==>
      newId(BackPartnerSlot(|names|, k)) in m
      && m[newId(BackPartnerSlot(|names|, k))] == Partner(AdminName, newId(MemberSlot(k)), Some(newId(2)))
  {
    if count > 0 {
      PartnersUpToBack(names, count - 1, newId, PartnersUpTo(names, count - 1, newId));
      var n := |names|;
      var id := newId(BackPartnerSlot(n, count - 1));
      forall k | 0 <= k < count - 1 ensures id != newId(BackPartnerSlot(n, k)) {
        Apart(newId, BackPartnerSlot(n, count - 1), BackPartnerSlot(n, k));
      }
    }
  }

  lemma {:induction false} PartnersUpToKeys(names: seq<string>, count: nat, newId: nat -> string, m: map<PartnerId, Partner>)
    requires Injective(newId) && count <= |names| && m == PartnersUpTo(names, count, newId)
    ensures forall id :: id in m ==>
      (exists k :: 0 <= k < |names| && id == newId(OwnPartnerSlot(|names|, k)))
      || (exists k :: 0 <= k < count && id == newId(BackPartnerSlot(|names|, k)))
  {
    var n := |names|;
    if count == 0 {
      OwnPartnersUpToFacts(names, n, newId, m);
    } else {
      var prev := PartnersUpTo(names, count - 1, newId);
      PartnersUpToKeys(names, count - 1, newId, prev);
      forall x | x in m
        ensures (exists k :: 0 <= k < n && x == newId(OwnPartnerSlot(n, k)))
             || (exists k :: 0 <= k < count && x == newId(BackPartnerSlot(n, k)))
      {
        if x == newId(BackPartnerSlot(n, count - 1)) {
          assert 0 <= count - 1 < count;
        } else {
          assert x in prev;
        }
      }
    }
  }

  /**
   * The imported accounts: だいち is the ADMIN, every name has a MEMBER account, and nothing else
   * exists; all of them are in the new group with the one password hash.
   */
  lemma ImportedAccounts(names: seq<string>, passwordHash: string, newId: nat -> string, accounts: map<AccountId, Account>)
    requires Injective(newId) && accounts == AccountsUpTo(names, |names|, passwordHash, newId)
    ensures |accounts| == |names| + 1
    ensures newId(2) in accounts && accounts[newId(2)] == Account(AdminName, passwordHash, Some(newId(0)), Admin)
    ensures forall k :: 0 <= k < |names| ==>
      newId(MemberSlot(k)) in accounts
      && accounts[newId(MemberSlot(k))] == Account(names[k], passwordHash, Some(newId(0)), Member)
    ensures forall id :: id in accounts ==> accounts[id].groupId == Some(newId(0)) && accounts[id].passwordHash == passwordHash
  {
    AccountsUpToFacts(names, |names|, passwordHash, newId, accounts);
    AccountsCount(names, passwordHash, newId, accounts);
  }

  /** The account table holds exactly |names| + 1 rows. */
  lemma AccountsCount(names: seq<string>, passwordHash: string, newId: nat -> string, accounts: map<AccountId, Account>)
    requires Injective(newId) && accounts == AccountsUpTo(names, |names|, passwordHash, newId)
    ensures |accounts| == |names| + 1
  {
    var ids := AccountIds(names, newId);
    AccountIdsDistinct(names, newId);
    AccountIdsAreKeys(names, passwordHash, newId, accounts);
    SeqMatchesSet(ids, accounts.Keys);
    assert |accounts.Keys| == |accounts|;
  }

  /** The ids the import gives accounts: だいち's, then one per name. */
  function AccountIds(names: seq<string>, newId: nat -> string): (ids: seq<AccountId>)
    ensures |ids| == |names| + 1 && ids[0] == newId(2)
    ensures forall k :: 0 <= k < |names| ==> ids[k + 1] == newId(MemberSlot(k))
  {
    [newId(2)] + seq(|names|, k requires 0 <= k < |names| => newId(MemberSlot(k)))
  }

  lemma AccountIdsDistinct(names: seq<string>, newId: nat -> string)
    requires Injective(newId)
    ensures Distinct(AccountIds(names, newId))
  {
    var ids := AccountIds(names, newId);
    forall i, j | 0 <= i < j < |ids| ensures ids[i] != ids[j] {
      assert ids[j] == newId(MemberSlot(j - 1));
      if i > 0 {
        assert ids[i] == newId(MemberSlot(i - 1));
        Apart(newId, MemberSlot(i - 1), MemberSlot(j - 1));
      } else {
        Apart(newId, 2, MemberSlot(j - 1));
      }
    }
  }

  lemma AccountIdsAreKeys(names: seq<string>, passwordHash: string, newId: nat -> string, accounts: map<AccountId, Account>)
    requires Injective(newId) && accounts == AccountsUpTo(names, |names|, passwordHash, newId)
    ensures forall id :: id in accounts.Keys <==> id in AccountIds(names, newId)
  {
    var ids := AccountIds(names, newId);
    AccountsUpToFacts(names, |names|, passwordHash, newId, accounts);
    forall id | id in accounts.Keys ensures id in ids {
      if id != newId(2) {
        var k :| 0 <= k < |names| && id == newId(MemberSlot(k));
        assert ids[k + 1] == id;
      }
    }
    forall i | 0 <= i < |ids| ensures ids[i] in accounts.Keys {
      if i > 0 {
        assert ids[i] == newId(MemberSlot(i - 1));
      }
    }
  }




  /**
   * The imported partners keep the `ownerId_name` unique index, and each links to an imported
   * account whose owner is linked back by the partner on the other side.
   */
  lemma ImportedPartners(names: seq<string>, passwordHash: string, newId: nat -> string,
                         accounts: map<AccountId, Account>, partners: map<PartnerId, Partner>)
    requires Injective(newId) && Distinct(names)
    requires accounts == AccountsUpTo(names, |names|, passwordHash, newId) && partners == PartnersUpTo(names, |names|, newId)
    ensures PartnerNamesUnique(partners)
    ensures LinksMirrored(accounts, partners)
  {
    ImportedPartnersUnique(names, newId, partners);
    ImportedPartnersLinked(names, passwordHash, newId, accounts, partners);
  }

  /**
   * Every partner's owner and linked account exist, and the linked account has a partner linked
   * back to the owner.
   */
  ghost predicate LinksMirrored(accounts: map<AccountId, Account>, partners: map<PartnerId, Partner>) {
    forall p :: p in partners ==>
      && partners[p].ownerId in accounts
      && partners[p].linkedAccountId.Some? && partners[p].linkedAccountId.value in accounts
      && exists q :: q in partners && partners[q].ownerId == partners[p].linkedAccountId.value
                     && partners[q].linkedAccountId == Some(partners[p].ownerId)
  }

  lemma ImportedPartnersUnique(names: seq<string>, newId: nat -> string, partners: map<PartnerId, Partner>)
    requires Injective(newId) && Distinct(names) && partners == PartnersUpTo(names, |names|, newId)
    ensures PartnerNamesUnique(partners)
  {
    forall p, q | p in partners && q in partners && p != q
      ensures partners[p].ownerId != partners[q].ownerId || partners[p].name != partners[q].name
    {
      PartnerPairDiffers(names, newId, partners, p, q);
    }
  }

  lemma ImportedPartnersLinked(names: seq<string>, passwordHash: string, newId: nat -> string,
                               accounts: map<AccountId, Account>, partners: map<PartnerId, Partner>)
    requires Injective(newId)
    requires accounts == AccountsUpTo(names, |names|, passwordHash, newId) && partners == PartnersUpTo(names, |names|, newId)
    ensures LinksMirrored(accounts, partners)
  {
    forall p | p in partners
      ensures partners[p].ownerId in accounts
      ensures partners[p].linkedAccountId.Some? && partners[p].linkedAccountId.value in accounts
      ensures exists q :: q in partners && partners[q].ownerId == partners[p].linkedAccountId.value
                          && partners[q].linkedAccountId == Some(partners[p].ownerId)
    {
      PartnerLinked(names, passwordHash, newId, accounts, partners, p);
    }
  }

  /** One imported partner's owner and linked account exist, and the link is mirrored. */
  lemma PartnerLinked(names: seq<string>, passwordHash: string, newId: nat -> string,
                      accounts: map<AccountId, Account>, partners: map<PartnerId, Partner>, p: PartnerId)
    requires Injective(newId)
    requires accounts == AccountsUpTo(names, |names|, passwordHash, newId) && partners == PartnersUpTo(names, |names|, newId)
    requires p in partners
    ensures partners[p].ownerId in accounts
    ensures partners[p].linkedAccountId.Some? && partners[p].linkedAccountId.value in accounts
    ensures exists q :: q in partners && partners[q].ownerId == partners[p].linkedAccountId.value
                        && partners[q].linkedAccountId == Some(partners[p].ownerId)
  {
    var n := |names|;
    var k, own := PartnerKind(names, newId, partners, p);
    AccountsAt(names, passwordHash, newId, accounts, k);
    var q;
    if own {
      BackPartnerAt(names, newId, partners, k);
      q := newId(BackPartnerSlot(n, k));
    } else {
      OwnPartnerAt(names, newId, partners, k);
      q := newId(OwnPartnerSlot(n, k));
    }
    assert q in partners && partners[q].ownerId == partners[p].linkedAccountId.value
           && partners[q].linkedAccountId == Some(partners[p].ownerId);
  }

  /** Every imported partner is だいち's partner for some name, or that name's member's partner "だいち". */
  lemma PartnerKind(names: seq<string>, newId: nat -> string, partners: map<PartnerId, Partner>, p: PartnerId)
    returns (k: nat, own: bool)
    requires Injective(newId) && partners == PartnersUpTo(names, |names|, newId) && p in partners
    ensures k < |names|
    ensures own ==> p == newId(OwnPartnerSlot(|names|, k))
                    && partners[p] == Partner(names[k], newId(2), Some(newId(MemberSlot(k))))
    ensures !own ==> p == newId(BackPartnerSlot(|names|, k))
                     && partners[p] == Partner(AdminName, newId(MemberSlot(k)), Some(newId(2)))
  {
    var n := |names|;
    PartnersUpToFacts(names, n, newId, partners);
    if j :| 0 <= j < n && p == newId(OwnPartnerSlot(n, j)) {
      k, own := j, true;
    } else {
      k :| 0 <= k < n && p == newId(BackPartnerSlot(n, k));
      own := false;
    }
  }

  lemma OwnPartnerAt(names: seq<string>, newId: nat -> string, partners: map<PartnerId, Partner>, k: nat)
    requires Injective(newId) && partners == PartnersUpTo(names, |names|, newId) && k < |names|
    ensures newId(OwnPartnerSlot(|names|, k)) in partners
    ensures partners[newId(OwnPartnerSlot(|names|, k))] == Partner(names[k], newId(2), Some(newId(MemberSlot(k))))
  {
    PartnersUpToFacts(names, |names|, newId, partners);
  }

  lemma BackPartnerAt(names: seq<string>, newId: nat -> string, partners: map<PartnerId, Partner>, k: nat)
    requires Injective(newId) && partners == PartnersUpTo(names, |names|, newId) && k < |names|
    ensures newId(BackPartnerSlot(|names|, k)) in partners
    ensures partners[newId(BackPartnerSlot(|names|, k))] == Partner(AdminName, newId(MemberSlot(k)), Some(newId(2)))
  {
    PartnersUpToFacts(names, |names|, newId, partners);
  }

  /** だいち's account and the `k`-th member's account are imported. */
  lemma AccountsAt(names: seq<string>, passwordHash: string, newId: nat -> string, accounts: map<AccountId, Account>, k: nat)
    requires Injective(newId) && accounts == AccountsUpTo(names, |names|, passwordHash, newId) && k < |names|
    ensures newId(2) in accounts && newId(MemberSlot(k)) in accounts
  {
    AccountsUpToFacts(names, |names|, passwordHash, newId, accounts);
  }

  /** Two different imported partners differ in owner or in name. */
  lemma PartnerPairDiffers(names: seq<string>, newId: nat -> string, partners: map<PartnerId, Partner>, p: PartnerId, q: PartnerId)
    requires Injective(newId) && Distinct(names) && partners == PartnersUpTo(names, |names|, newId)
    requires p in partners && q in partners && p != q
    ensures partners[p].ownerId != partners[q].ownerId || partners[p].name != partners[q].name
  {
    var k, own := PartnerKind(names, newId, partners, p);
    var j, ownQ := PartnerKind(names, newId, partners, q);
    if own && ownQ {
      assert k != j;
    } else if !own && !ownQ {
      assert k != j;
      Apart(newId, MemberSlot(k), MemberSlot(j));
    } else if own {
      Apart(newId, 2, MemberSlot(j));
    } else {
      Apart(newId, MemberSlot(k), 2);
    }
  }

  // ---------------------------------------------------------------------------------------------
  // Balances after the import

  /** What a row leaves owing: its amount, or nothing once it has been repaid. */
  function Net(row: CsvRow): int {
    if row.amount.None? || row.repaymentDate.Some? then 0 else row.amount.value
  }

  /** What the rows for `name` leave owing. */
  function NetOf(rows: seq<CsvRow>, name: string): int {
    if rows == [] then 0
    else NetOf(rows[..|rows| - 1], name) + (if rows[|rows| - 1].name == name then Net(rows[|rows| - 1]) else 0)
  }

  /** What all the rows leave owing. */
  function TotalNet(rows: seq<CsvRow>): int {
    if rows == [] then 0 else TotalNet(rows[..|rows| - 1]) + Net(rows[|rows| - 1])
  }

  /** The sum of what each name's rows leave owing. */
  function SumNets(names: seq<string>, rows: seq<CsvRow>): int {
    if names == [] then 0 else NetOf(rows, names[0]) + SumNets(names[1..], rows)
  }

  lemma {:induction false} PartnerSumAppend(a: seq<Transaction>, b: seq<Transaction>, partnerId: PartnerId)
    ensures PartnerSum(a + b, partnerId) == PartnerSum(a, partnerId) + PartnerSum(b, partnerId)
  {
    if b == [] {
      assert a + b == a;
    } else {
      assert (a + b)[..|a + b| - 1] == a + b[..|b| - 1];
      PartnerSumAppend(a, b[..|b| - 1], partnerId);
    }
  }

  /**
   * A written row adds its net to its own partner and nothing to any other: a repaid row's two
   * transactions cancel.
   */
  lemma RowEntriesNet(row: CsvRow, partnerId: PartnerId, adminId: AccountId, instant: LocalDate -> int, q: PartnerId)
    requires RowEntries(row, partnerId, adminId, instant).1
    ensures PartnerSum(RowEntries(row, partnerId, adminId, instant).0, q) == (if partnerId == q then Net(row) else 0)
    ensures forall t :: t in RowEntries(row, partnerId, adminId, instant).0 ==> t.ownerId == adminId && t.partnerId == partnerId
  {
    var more := RowEntries(row, partnerId, adminId, instant).0;
    assert [more[0]][..0] == [];
    assert PartnerSum([more[0]], q) == (if partnerId == q then more[0].amount else 0);
    if |more| == 2 {
      assert more[..1] == [more[0]];
      assert more[1].amount == -more[0].amount;
    } else {
      assert more == [more[0]];
    }
  }

  /** A write that succeeded was preceded by writes that all succeeded. */
  lemma EntriesFront(rows: seq<CsvRow>, names: seq<string>, newId: nat -> string, instant: LocalDate -> int)
    requires rows != [] && forall i :: 0 <= i < |rows| ==> rows[i].name in names
    requires Entries(rows, names, newId, instant).1
    ensures Entries(rows[..|rows| - 1], names, newId, instant).1
    ensures var row := rows[|rows| - 1];
      var more := RowEntries(row, OwnPartnerId(names, row.name, newId), newId(2), instant);
      more.1 && Entries(rows, names, newId, instant).0 == Entries(rows[..|rows| - 1], names, newId, instant).0 + more.0
  {
  }

  /** An import that succeeded wrote one transaction per row and one more per repaid row, all by だいち. */
  lemma {:induction false} EntriesCount(rows: seq<CsvRow>, names: seq<string>, newId: nat -> string, instant: LocalDate -> int)
    requires forall i :: 0 <= i < |rows| ==> rows[i].name in names
    requires Entries(rows, names, newId, instant).1
    ensures |Entries(rows, names, newId, instant).0| == |rows| + RepaidCount(rows)
    ensures forall t :: t in Entries(rows, names, newId, instant).0 ==> t.ownerId == newId(2)
  {
    if rows != [] {
      var front := rows[..|rows| - 1];
      var row := rows[|rows| - 1];
      EntriesFront(rows, names, newId, instant);
      EntriesCount(front, names, newId, instant);
      RowEntriesNet(row, OwnPartnerId(names, row.name, newId), newId(2), instant, OwnPartnerId(names, row.name, newId));
    }
  }

  /** The own partner of one name is not the own partner of another. */
  lemma OwnPartnerIdOf(names: seq<string>, name: string, k: nat, newId: nat -> string)
    requires Injective(newId) && Distinct(names) && name in names && k < |names|
    ensures OwnPartnerId(names, name, newId) == newId(OwnPartnerSlot(|names|, k)) <==> name == names[k]
  {
    IndexOfUnique(names, k);
    if name != names[k] {
      Apart(newId, OwnPartnerSlot(|names|, IndexOf(names, name)), OwnPartnerSlot(|names|, k));
    }
  }

  /** After an import that succeeded, each of だいち's partners stands at what its name's rows leave owing. */
  lemma {:induction false} EntriesNet(rows: seq<CsvRow>, names: seq<string>, newId: nat -> string, instant: LocalDate -> int,
                                      k: nat)
    requires Injective(newId) && Distinct(names) && k < |names|
    requires forall i :: 0 <= i < |rows| ==> rows[i].name in names
    requires Entries(rows, names, newId, instant).1
    ensures PartnerSum(Entries(rows, names, newId, instant).0, newId(OwnPartnerSlot(|names|, k))) == NetOf(rows, names[k])
  {
    if rows != [] {
      var front := rows[..|rows| - 1];
      var row := rows[|rows| - 1];
      var q := newId(OwnPartnerSlot(|names|, k));
      var partnerId := OwnPartnerId(names, row.name, newId);
      EntriesFront(rows, names, newId, instant);
      EntriesNet(front, names, newId, instant, k);
      RowEntriesNet(row, partnerId, newId(2), instant, q);
      PartnerSumAppend(Entries(front, names, newId, instant).0, RowEntries(row, partnerId, newId(2), instant).0, q);
      OwnPartnerIdOf(names, row.name, k, newId);
    }
  }

  /** Adding a row adds its net to the sum over the names, once, when its name is among them. */
  lemma {:induction false} SumNetsSnoc(names: seq<string>, rows: seq<CsvRow>, row: CsvRow)
    requires Distinct(names)
    ensures SumNets(names, rows + [row]) == SumNets(names, rows) + (if row.name in names then Net(row) else 0)
  {
    if names != [] {
      assert (rows + [row])[..|rows + [row]| - 1] == rows;
      assert Distinct(names[1..]) by {
        forall i, j | 0 <= i < j < |names[1..]| ensures names[1..][i] != names[1..][j] {
          assert names[1..][i] == names[i + 1] && names[1..][j] == names[j + 1];
        }
      }
      SumNetsSnoc(names[1..], rows, row);
      assert row.name in names <==> row.name == names[0] || row.name in names[1..];
      assert row.name == names[0] ==> row.name !in names[1..];
    }
  }

  /** Summed over distinct names covering every row, the per-name nets are the total net. */
  lemma {:induction false} SumNetsTotal(names: seq<string>, rows: seq<CsvRow>)
    requires Distinct(names) && forall i :: 0 <= i < |rows| ==> rows[i].name in names
    ensures SumNets(names, rows) == TotalNet(rows)
  {
    if rows == [] {
      SumNetsOfNone(names);
    } else {
      var front := rows[..|rows| - 1];
      SumNetsTotal(names, front);
      assert front + [rows[|rows| - 1]] == rows;
      SumNetsSnoc(names, front, rows[|rows| - 1]);
    }
  }

  lemma {:induction false} SumNetsOfNone(names: seq<string>)
    ensures SumNets(names, []) == 0
  {
    if names != [] {
      SumNetsOfNone(names[1..]);
    }
  }

  /** Totalling balances that are the per-name nets gives the sum of the nets. */
  lemma {:induction false} TotalOfNets(balances: seq<(string, int)>, names: seq<string>, rows: seq<CsvRow>)
    requires |balances| == |names| && forall k :: 0 <= k < |names| ==> balances[k].1 == NetOf(rows, names[k])
    ensures TotalBalance(balances) == SumNets(names, rows)
  {
    if names != [] {
      TotalOfNets(balances[1..], names[1..], rows);
    }
  }

  /** The sum of the balances the summary prints. */
  function SumLines(lines: seq<SummaryLine>): int {
    if lines == [] then 0 else lines[0].balance + SumLines(lines[1..])
  }

  /** Leaving out the zero balances does not change the total. */
  lemma {:induction false} SummaryKeepsTotal(balances: seq<(string, int)>)
    ensures SumLines(SummaryLines(balances)) == TotalBalance(balances)
  {
    if balances != [] {
      SummaryKeepsTotal(balances[1..]);
    }
  }

  /** The summary prints exactly the non-zero balances, in order. */
  lemma {:induction false} SummaryListsNonZero(balances: seq<(string, int)>)
    ensures forall line :: line in SummaryLines(balances) ==> (line.name, line.balance) in balances
    ensures forall k :: 0 <= k < |balances| && balances[k].1 != 0 ==>
      SummaryLine(balances[k].0, balances[k].1, if balances[k].1 > 0 then Lent else Borrowed) in SummaryLines(balances)
  {
    if balances != [] {
      var rest := SummaryLines(balances[1..]);
      SummaryListsNonZero(balances[1..]);
      forall line | line in SummaryLines(balances) ensures (line.name, line.balance) in balances {
        if line in rest {
          assert (line.name, line.balance) in balances[1..];
        } else {
          assert line == SummaryLine(balances[0].0, balances[0].1, if balances[0].1 > 0 then Lent else Borrowed);
          assert (line.name, line.balance) == balances[0];
        }
      }
      forall k | 0 < k < |balances| && balances[k].1 != 0
        ensures SummaryLine(balances[k].0, balances[k].1, if balances[k].1 > 0 then Lent else Borrowed) in SummaryLines(balances)
      {
        assert balances[k] == balances[1..][k - 1];
      }
    }
  }

  /**
   * The report of an import that succeeded: one transaction counted per row, a repayment per
   * repaid row, each printed line a name's net with its label, every name with something owing
   * printed, and a total equal both to the printed lines' sum and to what all rows leave owing.
   */
  lemma ImportReportFacts(rows: seq<CsvRow>, newId: nat -> string, instant: LocalDate -> int)
    requires Injective(newId)
    requires Entries(rows, PartnerNames(rows), newId, instant).1
    ensures var names := PartnerNames(rows);
      var entries := Entries(rows, names, newId, instant).0;
      var report := Report(rows, names, entries, newId);
      && report.transactionCount == |rows|
      && |entries| == report.transactionCount + report.repaymentCount
      && report.totalBalance == SumLines(report.summary) == TotalNet(rows)
      && (forall line :: line in report.summary ==>
            line.name in names && line.balance == NetOf(rows, line.name) != 0
            && line.status == (if line.balance > 0 then Lent else Borrowed))
      && (forall name :: name in names && NetOf(rows, name) != 0 ==>
            exists line :: line in report.summary && line.name == name && line.balance == NetOf(rows, name))
  {
    var names := PartnerNames(rows);
    var entries := Entries(rows, names, newId, instant).0;
    var balances := Balances(names, entries, newId);
    EntriesCount(rows, names, newId, instant);
    BalancesAreNets(rows, names, newId, instant);
    TotalOfNets(balances, names, rows);
    SumNetsTotal(names, rows);
    SummaryKeepsTotal(balances);
    SummaryOfNets(rows, names, balances);
  }

  /** Each name's balance after the import is that name's net over the rows. */
  lemma BalancesAreNets(rows: seq<CsvRow>, names: seq<string>, newId: nat -> string, instant: LocalDate -> int)
    requires Injective(newId) && names == PartnerNames(rows) && Entries(rows, names, newId, instant).1
    ensures var balances := Balances(names, Entries(rows, names, newId, instant).0, newId);
      forall k :: 0 <= k < |names| ==> balances[k] == (names[k], NetOf(rows, names[k]))
  {
    var balances := Balances(names, Entries(rows, names, newId, instant).0, newId);
    forall k | 0 <= k < |names| ensures balances[k] == (names[k], NetOf(rows, names[k])) {
      EntriesNet(rows, names, newId, instant, k);
    }
  }

  /** The summary of per-name nets lists exactly the names whose net is not zero, each with its net. */
  lemma SummaryOfNets(rows: seq<CsvRow>, names: seq<string>, balances: seq<(string, int)>)
    requires |balances| == |names| && forall k :: 0 <= k < |names| ==> balances[k] == (names[k], NetOf(rows, names[k]))
    ensures forall line :: line in SummaryLines(balances) ==> line.name in names && line.balance == NetOf(rows, line.name)
    ensures forall name :: name in names && NetOf(rows, name) != 0 ==>
      exists line :: line in SummaryLines(balances) && line.name == name && line.balance == NetOf(rows, name)
  {
    SummaryListsNonZero(balances);
    forall line | line in SummaryLines(balances)
      ensures line.name in names && line.balance == NetOf(rows, line.name)
    {
      var k :| 0 <= k < |balances| && balances[k] == (line.name, line.balance);
    }
    forall name | name in names && NetOf(rows, name) != 0
      ensures exists line :: line in SummaryLines(balances) && line.name == name && line.balance == NetOf(rows, name)
    {
      var k :| 0 <= k < |names| && names[k] == name;
      var line := SummaryLine(balances[k].0, balances[k].1, if balances[k].1 > 0 then Lent else Borrowed);
      assert line in SummaryLines(balances);
    }
  }

}
