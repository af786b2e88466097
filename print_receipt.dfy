/**
 * The printed maintenance slip for a group of receipts created together:
 * the receipt-number range in the header, the customer block taken from the
 * first receipt, one numbered table row per device, and blank padding rows
 * that keep the table at least five rows tall.
 */
module PrintReceipt {
  import opened Optional
  import opened Text
  import opened ReceiptTypes

  /** One device row of the table. */
  datatype SlipRow = SlipRow(
    serialNo: nat,
    particulars: string,
    accessories: Option<string>,   // shown in brackets under the device, when non-empty
    problem: string,
    modelNo: string,
    serialNumber: string)

  /** What the slip shows. */
  datatype Slip = Slip(
    receiptNo: string,
    customerName: string,
    contact: string,
    pw: string,
    rows: seq<SlipRow>,
    paddingRows: nat)

  /** `receiptNumberDisplay`: "last-first" for several receipts, the one number otherwise. */
  function NumberDisplay(receipts: seq<Receipt>): (r: string)
    requires |receipts| >= 1
    ensures '-' in r <==> |receipts| > 1
    ensures |receipts| == 1 ==> AllDigits(r)
  {
    if |receipts| > 1 then
      NatToString(receipts[|receipts| - 1].receipt_number) + "-" + NatToString(receipts[0].receipt_number)
    else NatToString(receipts[0].receipt_number)
  }

  /** The blank rows after the devices. */
  function PaddingRows(n: nat): (p: nat)
    ensures n < 5 ==> p >= 3 && p >= 5 - n
    ensures n < 5 ==> p == 3 || p == 5 - n
    ensures n >= 5 ==> p == 0
  {
    if n < 5 then (if 5 - n > 3 then 5 - n else 3) else 0
  }

  /** The table has at least five rows, and never more than seven, with at least one device up to five. */
  lemma TableHeight(n: nat)
    requires n >= 1
    ensures n + PaddingRows(n) >= 5
    ensures n < 5 ==> n + PaddingRows(n) <= 7
    ensures n >= 5 ==> n + PaddingRows(n) == n
  {
  }

  /** The table row for the receipt at `index`. */
  function Row(r: Receipt, index: nat): (row: SlipRow)
    ensures row.serialNo == index + 1 && row.particulars == r.device_type && row.problem == r.problem_description
    ensures row.accessories == None <==> (r.accessories == None || r.accessories == Some(""))
    ensures row.accessories.Some? ==> row.accessories == r.accessories
    ensures r.device_model == None ==> row.modelNo == ""
    ensures r.device_model.Some? ==> row.modelNo == r.device_model.value
    ensures r.serial_number == None ==> row.serialNumber == ""
    ensures r.serial_number.Some? ==> row.serialNumber == r.serial_number.value
  {
    SlipRow(index + 1, r.device_type,
            if r.accessories == Some("") then None else r.accessories,
            r.problem_description, OrEmpty(r.device_model), OrEmpty(r.serial_number))
  }

  /** `PrintReceipt`: nothing for no receipts, otherwise the slip. */
  function Render(receipts: seq<Receipt>): (s: Option<Slip>)
    ensures s.None? <==> receipts == []
    ensures s.Some? ==>
      && s.value.customerName == receipts[0].customer_name
      && s.value.contact == receipts[0].customer_phone
      && s.value.pw == OrEmpty(receipts[0].device_password)
      && |s.value.rows| == |receipts|
      && (forall i :: 0 <= i < |receipts| ==> s.value.rows[i].serialNo == i + 1)
      && (forall i :: 0 <= i < |receipts| ==> s.value.rows[i].particulars == receipts[i].device_type)
      && (forall i :: 0 <= i < |receipts| ==> s.value.rows[i] == Row(receipts[i], i))
      && s.value.receiptNo == NumberDisplay(receipts)
      && s.value.paddingRows == PaddingRows(|receipts|)
      && |s.value.rows| + s.value.paddingRows >= 5
  {
    if receipts == [] then None
    else
      Some(Slip(
        NumberDisplay(receipts),
        receipts[0].customer_name,
        receipts[0].customer_phone,
        OrEmpty(receipts[0].device_password),
        seq(|receipts|, i requires 0 <= i < |receipts| => Row(receipts[i], i)),
        PaddingRows(|receipts|)))
  }

  /** A single receipt's slip shows its own number, which reads back as that number. */
  lemma SingleNumber(r: Receipt)
    ensures var d := NumberDisplay([r]);
      d == NatToString(r.receipt_number) && AllDigits(d) && DecimalValue(d) == r.receipt_number
  {
    DecimalOfNatToString(r.receipt_number);
  }

  /**
   * For several receipts the header splits at its one `-` into the last and
   * the first receipt numbers, in that order.
   */
  lemma RangeReadsBack(receipts: seq<Receipt>)
    requires |receipts| > 1
    ensures var parts := SplitOn(NumberDisplay(receipts), '-');
      && |parts| == 2 && AllDigits(parts[0]) && AllDigits(parts[1])
      && DecimalValue(parts[0]) == receipts[|receipts| - 1].receipt_number
      && DecimalValue(parts[1]) == receipts[0].receipt_number
  {
    var last := NatToString(receipts[|receipts| - 1].receipt_number);
    var first := NatToString(receipts[0].receipt_number);
    assert NumberDisplay(receipts) == JoinWith([last, first], '-');
    SplitJoin([last, first], '-');
    DecimalOfNatToString(receipts[|receipts| - 1].receipt_number);
    DecimalOfNatToString(receipts[0].receipt_number);
  }
}
