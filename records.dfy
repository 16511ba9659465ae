/**
 * A row of the `transactions` table as the frontend and the notification
 * service read it, with the status strings the code compares against.
 */
module Records {
  import opened Wrappers

  const HELD := "held"
  const PENDING_PAYMENT := "pending_payment"
  const COMPLETE := "complete"
  const DISPUTED := "disputed"

  /**
   * Nullable columns are options; timestamps are instants as integers,
   * milliseconds from the epoch (the model does not parse date strings).
   * Status is the raw string the row carries, so values outside the four
   * above are representable.
   */
  datatype Transaction = Transaction(
    id: string,
    user_id: string,
    buyer_email: string,
    seller_email: string,
    amount: real,
    description: string,
    status: string,
    mpesa_code: Option<string>,
    mpesa_receipt: Option<string>,
    dispute_reason: Option<string>,
    created_at: Option<int>,
    paid_at: Option<int>,
    disputed_at: Option<int>,
    refunded_at: Option<int>,
    completed_at: Option<int>)

  /** JavaScript truthiness of a nullable text column: present and non-empty. */
  predicate Truthy(o: Option<string>)
  {
    o.Some? && o.value != ""
  }

  /** What a template literal makes of a nullable text column: `null` prints as "null". */
  function Interpolated(o: Option<string>): (s: string)
    ensures o.Some? ==> s == o.value
    ensures o.None? ==> s == "null"
  {
    match o
    case Some(v) => v
    case None => "null"
  }
}
