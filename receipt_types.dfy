/**
 * The records the application stores and exchanges: a repair receipt, its
 * status, and the form data a new receipt is created from.
 */
module ReceiptTypes {
  import opened Optional

  /** `ReceiptStatus`. */
  datatype Status = Received | InProgress | Completed | Delivered | Cancelled

  /** The text each status is stored and exported as. */
  function StatusName(s: Status): (name: string)
    ensures name != []
  {
    match s
    case Received => "received"
    case InProgress => "in_progress"
    case Completed => "completed"
    case Delivered => "delivered"
    case Cancelled => "cancelled"
  }

  /** Reads a stored status name back; any other text is not a status. */
  function StatusFromName(name: string): Option<Status> {
    if name == "received" then Some(Received)
    else if name == "in_progress" then Some(InProgress)
    else if name == "completed" then Some(Completed)
    else if name == "delivered" then Some(Delivered)
    else if name == "cancelled" then Some(Cancelled)
    else None
  }

  /** Status names are distinct: each one reads back as its own status. */
  lemma StatusNameRoundTrip(s: Status)
    ensures StatusFromName(StatusName(s)) == Some(s)
  {
  }

  /**
   * `Receipt`. Nullable columns are options; dates and timestamps are the
   * strings the database returns.
   */
  datatype Receipt = Receipt(
    id: string,
    receipt_number: nat,
    customer_name: string,
    customer_phone: string,
    customer_email: Option<string>,
    device_type: string,
    device_model: Option<string>,
    serial_number: Option<string>,
    accessories: Option<string>,
    problem_description: string,
    repair_notes: Option<string>,
    received_date: string,
    estimated_delivery_date: Option<string>,
    actual_delivery_date: Option<string>,
    device_password: Option<string>,
    status: Status,
    created_at: string,
    updated_at: string)

  /**
   * `ReceiptFormData & { received_date?, group_id? }`: an optional property
   * that is absent is `None`.
   */
  datatype ReceiptFormData = ReceiptFormData(
    customer_name: string,
    customer_phone: string,
    customer_email: Option<string>,
    device_type: string,
    device_model: Option<string>,
    serial_number: Option<string>,
    accessories: Option<string>,
    problem_description: string,
    repair_notes: Option<string>,
    estimated_delivery_date: Option<string>,
    device_password: Option<string>,
    received_date: Option<string>,
    group_id: Option<string>)
}
