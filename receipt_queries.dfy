/**
 * The receipt hooks with the database calls stripped away: how a search
 * string becomes a query, the dashboard tally, the status update record and
 * the insert record of a new receipt. A query is described as a value; the
 * database that answers it is not part of this model.
 */
module ReceiptQueries {
  import opened Optional
  import opened Text
  import opened ReceiptTypes

  // ---------------------------------------------------------------------
  // Listing and searching
  // ---------------------------------------------------------------------

  datatype Filter =
    | NoFilter
    | ReceiptNumberIs(number: nat)          // `.eq('receipt_number', n)`
    | PhoneOrNameContains(term: string)     // `.or('customer_phone.ilike...,customer_name.ilike...')`

  datatype Order = Ascending | Descending

  /** A `select('*')` on the receipts table with one filter and an order on `receipt_number`. */
  datatype Query = Query(filter: Filter, order: Order)

  /** `/^\d+$/.test(s)`: one or more ASCII digits and nothing else. */
  predicate IsNumeric(s: string) {
    s != [] && AllDigits(s)
  }

  /**
   * The filter a search string selects: none for an absent or empty search,
   * the receipt number for a string of digits (leading zeros ignored), a
   * substring match on phone or name otherwise.
   */
  function Classify(searchQuery: Option<string>): (f: Filter)
    ensures (searchQuery == None || searchQuery == Some("")) <==> f == NoFilter
    ensures f.ReceiptNumberIs? <==> searchQuery.Some? && IsNumeric(searchQuery.value)
    ensures f.ReceiptNumberIs? ==> f.number == DecimalValue(searchQuery.value)
    ensures f.PhoneOrNameContains? ==> searchQuery == Some(f.term) && f.term != [] && !AllDigits(f.term)
  {
    match searchQuery
    case None => NoFilter
    case Some(s) =>
      if s == "" then NoFilter
      else if IsNumeric(s) then ReceiptNumberIs(DecimalValue(s))
      else PhoneOrNameContains(s)
  }

  /** `useReceipts`: the query, newest receipt number first, narrowed by the search. */
  method ReceiptsQuery(searchQuery: Option<string>) returns (q: Query)
    ensures q.order == Descending && q.filter == Classify(searchQuery)
  {
    q := Query(NoFilter, Descending);
    if searchQuery.Some? && searchQuery.value != "" {
      var s := searchQuery.value;
      var isNumeric := IsNumeric(s);
      if isNumeric {
        q := q.(filter := ReceiptNumberIs(DecimalValue(s)));
      } else {
        q := q.(filter := PhoneOrNameContains(s));
      }
    }
  }

  /** A receipt number written with leading zeros selects the same receipt. */
  lemma {:induction false} LeadingZerosSameFilter(s: string, zeros: nat)
    requires IsNumeric(s)
    ensures var padded := seq(zeros, _ => '0') + s;
      IsNumeric(padded) && Classify(Some(padded)) == Classify(Some(s))
    decreases zeros
  {
    if zeros == 0 {
      assert seq(zeros, _ => '0') + s == s;
    } else {
      var shorter := seq(zeros - 1, _ => '0') + s;
      LeadingZerosSameFilter(s, zeros - 1);
      assert seq(zeros, _ => '0') + s == "0" + shorter;
      DecimalLeadingZero(shorter);
    }
  }

  /** `ilike '%term%'`, read as an ASCII case-insensitive substring test. */
  predicate ILikeContains(text: string, term: string) {
    Contains(ToLower(text), ToLower(term))
  }

  /** Whether a receipt satisfies a filter. */
  predicate Matches(f: Filter, r: Receipt) {
    match f
    case NoFilter => true
    case ReceiptNumberIs(n) => r.receipt_number == n
    case PhoneOrNameContains(t) => ILikeContains(r.customer_phone, t) || ILikeContains(r.customer_name, t)
  }

  /** Searching for a receipt's own number, with any leading zeros, finds it. */
  lemma SearchFindsOwnNumber(r: Receipt, zeros: nat)
    ensures Matches(Classify(Some(seq(zeros, _ => '0') + NatToString(r.receipt_number))), r)
  {
    var digits := NatToString(r.receipt_number);
    DecimalOfNatToString(r.receipt_number);
    LeadingZerosSameFilter(digits, zeros);
    assert Classify(Some(digits)) == ReceiptNumberIs(r.receipt_number);
  }

  /** `useGroupedReceipts`: no query, and no receipts, without a group id. */
  datatype GroupQuery = NoQuery | ByGroup(groupId: string, order: Order)

  function GroupedQuery(groupId: Option<string>): (q: GroupQuery)
    ensures q == NoQuery <==> (groupId == None || groupId == Some(""))
    ensures q.ByGroup? ==> q.order == Ascending && groupId == Some(q.groupId)
  {
    if groupId.None? || groupId.value == "" then NoQuery else ByGroup(groupId.value, Ascending)
  }

  // ---------------------------------------------------------------------
  // The dashboard tally
  // ---------------------------------------------------------------------

  /** `data.filter(r => r.status === s).length`. */
  function Count(data: seq<Status>, s: Status): (n: nat)
    ensures n <= |data|
    ensures n == multiset(data)[s]
    decreases |data|
  {
    assert data != [] ==> data == [data[0]] + data[1..];
    if data == [] then 0 else (if data[0] == s then 1 else 0) + Count(data[1..], s)
  }

  datatype Stats = Stats(total: nat, received: nat, in_progress: nat, completed: nat, delivered: nat)

  /** `useReceiptStats`: the total and four of the five status counts. */
  function Tally(data: seq<Status>): (st: Stats)
    ensures st.total == |data|
    ensures st.received == Count(data, Received) && st.in_progress == Count(data, InProgress)
    ensures st.completed == Count(data, Completed) && st.delivered == Count(data, Delivered)
  {
    Stats(|data|, Count(data, Received), Count(data, InProgress), Count(data, Completed), Count(data, Delivered))
  }

  /** The five status counts add up to the number of rows. */
  lemma {:induction false} CountsPartition(data: seq<Status>)
    ensures Count(data, Received) + Count(data, InProgress) + Count(data, Completed)
          + Count(data, Delivered) + Count(data, Cancelled) == |data|
    decreases |data|
  {
    if data != [] {
      CountsPartition(data[1..]);
    }
  }

  /** The tally's four counts never exceed the total; the gap is the cancelled receipts. */
  lemma TallyBound(data: seq<Status>)
    ensures var st := Tally(data);
      st.received + st.in_progress + st.completed + st.delivered + Count(data, Cancelled) == st.total
  {
    CountsPartition(data);
  }

  // ---------------------------------------------------------------------
  // Status updates
  // ---------------------------------------------------------------------

  /** `updateData`: the new status, and for a delivery the delivery date. */
  datatype StatusUpdate = StatusUpdate(status: Status, actual_delivery_date: Option<string>)

  /**
   * `useUpdateReceiptStatus`: `nowIso` stands for `new Date().toISOString()`;
   * a delivery records the date part, before the `T`.
   */
  method BuildStatusUpdate(status: Status, nowIso: string) returns (u: StatusUpdate)
    ensures u.status == status
    ensures status == Delivered ==> u.actual_delivery_date == Some(Before(nowIso, 'T'))
    ensures status != Delivered ==> u.actual_delivery_date == None
  {
    u := StatusUpdate(status, None);
    if status == Delivered {
      u := u.(actual_delivery_date := Some(Before(nowIso, 'T')));
    }
  }

  // ---------------------------------------------------------------------
  // Creating a receipt
  // ---------------------------------------------------------------------

  /** `x || null` for an optional form field. */
  function Normalize(o: Option<string>): (r: Option<string>)
    ensures r == None <==> (o == None || o == Some(""))
    ensures r.Some? ==> r == o
  {
    if o == Some("") then None else o
  }

  /** The record `useCreateReceipt` inserts. */
  datatype CreateData = CreateData(
    customer_name: string,
    customer_phone: string,
    device_type: string,
    device_model: Option<string>,
    serial_number: Option<string>,
    accessories: Option<string>,
    problem_description: string,
    estimated_delivery_date: Option<string>,
    device_password: Option<string>,
    received_date: string,
    group_id: Option<string>)

  /** `insertData`, with `nowIso` for `new Date().toISOString()`. */
  function CreateInsert(form: ReceiptFormData, nowIso: string): (d: CreateData)
    ensures d.customer_name == form.customer_name && d.customer_phone == form.customer_phone
    ensures d.device_type == form.device_type && d.problem_description == form.problem_description
    ensures d.device_model == Normalize(form.device_model) && d.serial_number == Normalize(form.serial_number)
    ensures d.accessories == Normalize(form.accessories) && d.device_password == Normalize(form.device_password)
    ensures d.estimated_delivery_date == Normalize(form.estimated_delivery_date)
    ensures d.group_id == Normalize(form.group_id)
    ensures Normalize(form.received_date) == None ==> d.received_date == nowIso
    ensures Normalize(form.received_date) != None ==> Some(d.received_date) == form.received_date
  {
    CreateData(
      form.customer_name,
      form.customer_phone,
      form.device_type,
      Normalize(form.device_model),
      Normalize(form.serial_number),
      Normalize(form.accessories),
      form.problem_description,
      Normalize(form.estimated_delivery_date),
      Normalize(form.device_password),
      Normalize(form.received_date).GetOr(nowIso),
      Normalize(form.group_id))
  }
}
