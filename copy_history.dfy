/**
 * The "copy history" button of a partner's page: the partner's transactions, oldest first, as
 * tab-separated text under a header line (date, partner, description, amount, running balance),
 * written to the clipboard. The button is absent when there are no transactions and disabled
 * while the "copied" mark shows.
 */
module CopyHistory {
  import opened Wrappers
  import opened JsStrings
  import opened Sorting
  import opened DateUtils
  import opened TransactionFields

  /**
   * A transaction as the list passes it to the button: the date both as its instant
   * (`getTime()`) and as its local calendar reading, and the running balance when the list has
   * one.
   */
  datatype ListedTransaction = ListedTransaction(
    amount: int, description: Option<string>, time: int, local: DisplayDate, balanceAfter: Option<int>)

  /** Every transaction's weekday is one of the seven. */
  predicate Displayable(ts: seq<ListedTransaction>) {
    forall i :: 0 <= i < |ts| ==> ts[i].local.weekday < |Weekdays|
  }

  // ---------------------------------------------------------------------------------------------
  // Amounts and balances

  /** `formatAmount`: a plus sign for money lent, then the yen sign and the grouped magnitude. */
  function FormatAmount(amount: int): (s: string)
    ensures |s| > 0 && (s[0] == '+' <==> amount > 0)
    ensures '-' !in s
  {
    (if amount > 0 then "+" else "") + "¥" + GroupDigits(Abs(amount))
  }

  /** `formatBalance`: the yen sign and the grouped magnitude, then " (借)" when the balance is negative. */
  function FormatBalance(balance: int): (s: string)
    ensures |s| > 0 && (s[|s| - 1] == ')' <==> balance < 0)
    ensures '-' !in s
  {
    var s := "¥" + GroupDigits(Abs(balance)) + (if balance < 0 then " (借)" else "");
    assert balance >= 0 ==> s[|s| - 1] == GroupDigits(Abs(balance))[|s| - 2];
    s
  }

  /** The characters `FormatAmount` writes besides digits. */
  const AmountMarks: set<char> := {'+', '¥', ','}

  /** The characters `FormatBalance` writes besides digits. */
  const BalanceMarks: set<char> := {'¥', ',', ' ', '(', '借', ')'}

  /** Removing two sets of characters agrees on a string whose characters the sets classify alike. */
  lemma {:induction false} RemoveCharsAgree(s: string, d1: set<char>, d2: set<char>)
    requires forall i :: 0 <= i < |s| ==> (s[i] in d1 <==> s[i] in d2)
    ensures RemoveChars(s, d1) == RemoveChars(s, d2)
  {
    if s != [] {
      RemoveCharsAgree(s[1..], d1, d2);
    }
  }

  /** Dropping every mark but the digits from a grouped numeral gives the plain numeral. */
  lemma GroupDigitsUnmarked(n: nat, marks: set<char>)
    requires ',' in marks && forall c :: c in marks ==> !IsDigit(c)
    ensures RemoveChars(GroupDigits(n), marks) == NatToDecimal(n)
  {
    RemoveCharsAgree(GroupDigits(n), marks, {','});
    GroupDigitsUngrouped(n);
  }

  /** The digits of a displayed amount spell its magnitude. */
  lemma FormatAmountDigits(amount: int)
    ensures RemoveChars(FormatAmount(amount), AmountMarks) == NatToDecimal(Abs(amount))
  {
    var prefix := (if amount > 0 then "+" else "") + "¥";
    assert FormatAmount(amount) == prefix + GroupDigits(Abs(amount));
    RemoveCharsAppend(prefix, GroupDigits(Abs(amount)), AmountMarks);
    assert RemoveChars(prefix, AmountMarks) == "" by {
      RemoveCharsAppend(if amount > 0 then "+" else "", "¥", AmountMarks);
    }
    GroupDigitsUnmarked(Abs(amount), AmountMarks);
  }

  /** Different amounts are displayed differently: the sign mark and the digits give the amount back. */
  lemma FormatAmountInjective(a: int, b: int)
    requires FormatAmount(a) == FormatAmount(b)
    ensures a == b
  {
    FormatAmountDigits(a);
    FormatAmountDigits(b);
    NatToDecimalInjective(Abs(a), Abs(b));
  }

  /** A string made only of removed characters leaves nothing. */
  lemma {:induction false} RemoveCharsAll(s: string, drop: set<char>)
    requires forall i :: 0 <= i < |s| ==> s[i] in drop
    ensures RemoveChars(s, drop) == ""
  {
    if s != [] {
      RemoveCharsAll(s[1..], drop);
    }
  }

  /** The digits of a displayed balance spell its magnitude. */
  lemma FormatBalanceDigits(balance: int)
    ensures RemoveChars(FormatBalance(balance), BalanceMarks) == NatToDecimal(Abs(balance))
  {
    var rest := GroupDigits(Abs(balance)) + (if balance < 0 then " (借)" else "");
    assert FormatBalance(balance) == "¥" + rest;
    RemoveCharsAppend("¥", rest, BalanceMarks);
    RemoveCharsAll("¥", BalanceMarks);
    MarkedBalanceDigits(balance);
  }

  /** What follows the yen sign: the grouped magnitude and the debt mark. */
  lemma MarkedBalanceDigits(balance: int)
    ensures RemoveChars(GroupDigits(Abs(balance)) + (if balance < 0 then " (借)" else ""), BalanceMarks)
         == NatToDecimal(Abs(balance))
  {
    var suffix := if balance < 0 then " (借)" else "";
    RemoveCharsAppend(GroupDigits(Abs(balance)), suffix, BalanceMarks);
    RemoveCharsAll(suffix, BalanceMarks);
    GroupDigitsUnmarked(Abs(balance), BalanceMarks);
  }

  /** Different balances are displayed differently: the " (借)" mark and the digits give the balance back. */
  lemma FormatBalanceInjective(a: int, b: int)
    requires FormatBalance(a) == FormatBalance(b)
    ensures a == b
  {
    FormatBalanceDigits(a);
    FormatBalanceDigits(b);
    NatToDecimalInjective(Abs(a), Abs(b));
  }

  // ---------------------------------------------------------------------------------------------
  // The exported text

  const Header: seq<string> := ["日付", "相手", "説明", "金額", "残高"]

  /** The comparator `dateA - dateB` on the instants: oldest first. */
  function ByTimeAscending(): (ListedTransaction, ListedTransaction) -> bool {
    (a: ListedTransaction, b: ListedTransaction) => a.time <= b.time
  }

  /** The balance field: the formatted running balance, or empty where the list has none. */
  function BalanceField(balanceAfter: Option<int>): (s: string)
    ensures s == "" <==> balanceAfter.None?
  {
    match balanceAfter
    case None => ""
    case Some(b) => FormatBalance(b)
  }

  /** The five fields of one exported line, in the header's order. */
  function Fields(t: ListedTransaction, partnerName: string): (fields: seq<string>)
    requires t.local.weekday < |Weekdays|
    ensures |fields| == |Header|
  {
    [FormatDateForDisplay(t.local), partnerName, DescriptionField(t.description), FormatAmount(t.amount),
     BalanceField(t.balanceAfter)]
  }

  function Line(t: ListedTransaction, partnerName: string): string
    requires t.local.weekday < |Weekdays|
  {
    Join(Fields(t, partnerName), "\t")
  }

  /** One exported line per transaction, in the given order. */
  function Lines(ts: seq<ListedTransaction>, partnerName: string): (lines: seq<string>)
    requires Displayable(ts)
    ensures |lines| == |ts| && forall i :: 0 <= i < |ts| ==> lines[i] == Line(ts[i], partnerName)
  {
    seq(|ts|, i requires 0 <= i < |ts| => Line(ts[i], partnerName))
  }

  /** Sorting keeps every weekday in range. */
  lemma SortedDisplayable(ts: seq<ListedTransaction>)
    requires Displayable(ts)
    ensures Displayable(SortBy(ts, ByTimeAscending()))
  {
    var sorted := SortBy(ts, ByTimeAscending());
    forall i | 0 <= i < |sorted| ensures sorted[i].local.weekday < |Weekdays| {
      assert sorted[i] in multiset(ts);
    }
  }

  /** `handleCopy`'s content: the header line, then a line per transaction oldest first, joined by newlines. */
  function HistoryTsv(ts: seq<ListedTransaction>, partnerName: string): string
    requires Displayable(ts)
  {
    SortedDisplayable(ts);
    Join([Join(Header, "\t")] + Lines(SortBy(ts, ByTimeAscending()), partnerName), "\n")
  }

  /** The export holds the transactions themselves, each once, oldest first. */
  lemma ExportOrder(ts: seq<ListedTransaction>)
    ensures var sorted := SortBy(ts, ByTimeAscending());
      && multiset(sorted) == multiset(ts)
      && forall i, j :: 0 <= i < j < |sorted| ==> sorted[i].time <= sorted[j].time
  {
    SortBySorted(ts, ByTimeAscending());
  }

  /** Joining strings that lack `c` with a separator that lacks it gives a string that lacks it. */
  lemma {:induction false} JoinFree(parts: seq<string>, sep: string, c: char)
    requires forall i :: 0 <= i < |parts| ==> c !in parts[i]
    requires c !in sep
    ensures c !in Join(parts, sep)
  {
    if |parts| > 1 {
      JoinFree(parts[1..], sep, c);
    }
  }

  /** A displayed date holds neither a tab nor a newline. */
  lemma DateSingleField(d: DisplayDate)
    requires d.weekday < |Weekdays|
    ensures '\t' !in FormatDateForDisplay(d) && '\n' !in FormatDateForDisplay(d)
  {
    var y := IntToDecimal(d.year);
    if d.year < 0 {
      assert y == "-" + NatToDecimal(-d.year);
      assert forall i :: 1 <= i < |y| ==> y[i] == NatToDecimal(-d.year)[i - 1];
    }
    NumeralFree(y, '\t');
    NumeralFree(y, '\n');
    DayPartSingleField(d);
    assert '\t' !in MonthPart(d) && '\n' !in MonthPart(d) by {
      var m := NatToDecimal(d.monthIndex + 1);
      NumeralFree(m, '\t');
      NumeralFree(m, '\n');
      assert MonthPart(d) == m + "月" + DayPart(d);
    }
    assert FormatDateForDisplay(d) == y + "年" + MonthPart(d);
  }

  lemma DayPartSingleField(d: DisplayDate)
    requires d.weekday < |Weekdays|
    ensures '\t' !in DayPart(d) && '\n' !in DayPart(d)
  {
    var n := NatToDecimal(d.day);
    NumeralFree(n, '\t');
    NumeralFree(n, '\n');
    var w := Weekdays[d.weekday];
    assert |w| == 1 && w[0] != '\t' && w[0] != '\n';
    assert DayPart(d) == n + "日(" + w + ")";
  }

  /** A field the export writes itself holds neither a tab nor a newline. */
  lemma FormattedSingleField(t: ListedTransaction, c: char)
    requires c == '\t' || c == '\n'
    ensures c !in FormatAmount(t.amount) && c !in BalanceField(t.balanceAfter)
  {
    var g := GroupDigits(Abs(t.amount));
    assert FormatAmount(t.amount) == (if t.amount > 0 then "+" else "") + "¥" + g;
    if t.balanceAfter.Some? {
      var b := t.balanceAfter.value;
      assert FormatBalance(b) == "¥" + GroupDigits(Abs(b)) + (if b < 0 then " (借)" else "");
    }
  }

  /** The description and the partner's name are free of `c`. */
  predicate FreeOf(ts: seq<ListedTransaction>, partnerName: string, c: char) {
    && c !in partnerName
    && forall i :: 0 <= i < |ts| ==> c !in DescriptionField(ts[i].description)
  }

  lemma HeaderSingle()
    ensures '\n' !in Join(Header, "\t")
  {
    assert Join(Header, "\t") == "日付\t相手\t説明\t金額\t残高";
  }

  /** Sorting keeps the descriptions free of `c`. */
  lemma SortedFreeOf(ts: seq<ListedTransaction>, partnerName: string, c: char)
    requires FreeOf(ts, partnerName, c)
    ensures FreeOf(SortBy(ts, ByTimeAscending()), partnerName, c)
  {
    var sorted := SortBy(ts, ByTimeAscending());
    forall i | 0 <= i < |sorted| ensures c !in DescriptionField(sorted[i].description) {
      assert sorted[i] in multiset(ts);
      var k :| 0 <= k < |ts| && ts[k] == sorted[i];
    }
  }

  /** No line holds a newline when the partner's name and the descriptions hold none. */
  lemma LinesSingle(ts: seq<ListedTransaction>, partnerName: string)
    requires Displayable(ts) && FreeOf(ts, partnerName, '\n')
    ensures forall i :: 0 <= i < |ts| ==> '\n' !in Lines(ts, partnerName)[i]
  {
    forall i | 0 <= i < |ts| ensures '\n' !in Lines(ts, partnerName)[i] {
      LineSingle(ts[i], partnerName);
    }
  }

  /** A line holds no newline when the partner's name and the description hold none. */
  lemma LineSingle(t: ListedTransaction, partnerName: string)
    requires t.local.weekday < |Weekdays|
    requires '\n' !in partnerName && '\n' !in DescriptionField(t.description)
    ensures '\n' !in Line(t, partnerName)
  {
    DateSingleField(t.local);
    FormattedSingleField(t, '\n');
    JoinFree(Fields(t, partnerName), "\t", '\n');
  }

  /**
   * Splitting the export at newlines gives the header and then one line per transaction, oldest
   * first, provided neither the partner's name nor a description holds a newline.
   */
  lemma HistoryTsvLines(ts: seq<ListedTransaction>, partnerName: string)
    requires Displayable(ts) && FreeOf(ts, partnerName, '\n')
    ensures var sorted := SortBy(ts, ByTimeAscending());
      var rows := Split(HistoryTsv(ts, partnerName), '\n');
      && Displayable(sorted)
      && |rows| == |ts| + 1
      && rows[0] == Join(Header, "\t")
      && forall i :: 0 <= i < |ts| ==> rows[i + 1] == Line(sorted[i], partnerName)
  {
    SortedDisplayable(ts);
    var sorted := SortBy(ts, ByTimeAscending());
    var parts := [Join(Header, "\t")] + Lines(sorted, partnerName);
    HeaderSingle();
    SortedFreeOf(ts, partnerName, '\n');
    LinesSingle(sorted, partnerName);
    forall i | 0 <= i < |parts| ensures '\n' !in parts[i] {
      if i > 0 {
        assert parts[i] == Lines(sorted, partnerName)[i - 1];
      }
    }
    SplitJoin(parts, '\n');
  }

  /**
   * Splitting a line at tabs gives its five fields back, provided neither the partner's name nor
   * the description holds a tab.
   */
  lemma LineFields(t: ListedTransaction, partnerName: string)
    requires t.local.weekday < |Weekdays|
    requires '\t' !in partnerName && '\t' !in DescriptionField(t.description)
    ensures Split(Line(t, partnerName), '\t') == Fields(t, partnerName)
    ensures |Split(Line(t, partnerName), '\t')| == |Header|
  {
    DateSingleField(t.local);
    FormattedSingleField(t, '\t');
    SplitJoin(Fields(t, partnerName), '\t');
  }

  // ---------------------------------------------------------------------------------------------
  // The button

  /** What the button copies: nothing, because no button shows, when there are no transactions. */
  function CopyContent(ts: seq<ListedTransaction>, partnerName: string): (r: Option<string>)
    requires Displayable(ts)
    ensures r.None? <==> ts == []
    ensures r.Some? ==> r.value == HistoryTsv(ts, partnerName)
  {
    if ts == [] then None else Some(HistoryTsv(ts, partnerName))
  }

  /** The button's `copied` state. */
  class CopyButton {
    var copied: bool

    constructor()
      ensures !copied
    {
      copied := false;
    }

    /** `disabled={copied}`. */
    predicate Enabled()
      reads this
    {
      !copied
    }

    /**
     * `handleCopy`: the content offered to the clipboard, and the mark set when the clipboard
     * accepts it; a refused write leaves the state as it was.
     */
    method HandleCopy(ts: seq<ListedTransaction>, partnerName: string, clipboardAccepts: bool)
        returns (content: string)
      requires Displayable(ts)
      modifies this
      ensures content == HistoryTsv(ts, partnerName)
      ensures copied == (old(copied) || clipboardAccepts)
      ensures clipboardAccepts ==> !Enabled()
    {
      content := HistoryTsv(ts, partnerName);
      if clipboardAccepts {
        copied := true;
      }
    }

    /** The timer two seconds after a copy: the button is enabled again. */
    method ResetCopied()
      modifies this
      ensures !copied && Enabled()
    {
      copied := false;
    }
  }
}
