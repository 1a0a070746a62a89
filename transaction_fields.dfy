/**
 * What the transaction components share: the description field's `description || ""`, and the
 * lend/borrow toggle that turns the unsigned amount field into the signed amount sent to the
 * server (positive: money lent, negative: money borrowed or repaid).
 */
module TransactionFields {
  import opened Wrappers
  import opened JsStrings

  /** `description || ""`: no description and an empty one both become the empty field. */
  function DescriptionField(description: Option<string>): (s: string)
    ensures description.Some? ==> s == description.value
    ensures description.None? ==> s == ""
  {
    match description
    case None => ""
    case Some(d) => d
  }

  /**
   * `parseInt(amount, 10)`, then `isLending ? raw : -raw`; `None` where the field does not parse,
   * and the handler then sends nothing.
   */
  function SignedAmount(isLending: bool, field: string): (r: Option<int>)
    ensures r.Some? <==> ParseInt(field).Some?
    ensures r.Some? ==> Abs(r.value) == Abs(ParseInt(field).value)
    ensures r.Some? && ParseInt(field).value > 0 ==> (r.value > 0 <==> isLending)
  {
    match ParseInt(field)
    case None => None
    case Some(raw) => Some(if isLending then raw else -raw)
  }

  /**
   * Showing an amount as the toggle (lending iff not negative) and the magnitude's numeral, then
   * reading the form back, gives the amount again.
   */
  lemma ToggleRoundTrip(amount: int)
    ensures SignedAmount(amount >= 0, NatToDecimal(Abs(amount))) == Some(amount)
  {
    ParseIntOfDecimal(Abs(amount));
    assert IntToDecimal(Abs(amount)) == NatToDecimal(Abs(amount));
  }
}
