/**
 * The new-receipt form: a customer, a received date and a list of devices,
 * each of which becomes its own receipt on submit. The component's state is
 * the fields of `ReceiptForm`; each handler is a method that replaces some
 * of them. Device ids come from a counter (the form needs them fresh and
 * distinct, nothing more), and the create mutation is a parameter.
 */
module ReceiptFormState {
  import opened Optional
  import opened Text
  import opened ReceiptTypes
  import ReceiptQueries

  // ---------------------------------------------------------------------
  // Devices and their fields
  // ---------------------------------------------------------------------

  /** `DeviceEntry`. */
  datatype DeviceEntry = DeviceEntry(
    id: nat,
    device_type: string,
    model_number: string,
    serial_number: string,
    problem_description: string,
    has_accessories: bool,
    accessories_text: string,
    has_password_lock: bool,
    device_password: string)

  /** `createEmptyDevice`, with the id it is given. */
  function EmptyDevice(id: nat): (d: DeviceEntry)
    ensures d.id == id
    ensures forall name :: Get(d, name) == (if IsFlagField(name) then Flag(false) else Text(""))
  {
    DeviceEntry(id, "", "", "", "", false, "", false, "")
  }

  /** The fields `updateDevice` is called with (every field but `id`). */
  datatype FieldName =
    | DeviceType | ModelNumber | SerialNumber | ProblemDescription
    | HasAccessories | AccessoriesText | HasPasswordLock | DevicePassword

  /** A field's value: text for the inputs, a flag for the two checkboxes. */
  datatype FieldValue = Text(text: string) | Flag(flag: bool)

  predicate IsFlagField(name: FieldName) {
    name == HasAccessories || name == HasPasswordLock
  }

  /** The value of one field of a device. */
  function Get(d: DeviceEntry, name: FieldName): (v: FieldValue)
    ensures v.Flag? <==> IsFlagField(name)
  {
    match name
    case DeviceType => Text(d.device_type)
    case ModelNumber => Text(d.model_number)
    case SerialNumber => Text(d.serial_number)
    case ProblemDescription => Text(d.problem_description)
    case HasAccessories => Flag(d.has_accessories)
    case AccessoriesText => Text(d.accessories_text)
    case HasPasswordLock => Flag(d.has_password_lock)
    case DevicePassword => Text(d.device_password)
  }

  /** `{ ...d, [field]: value }`: the named field takes the value, every other field and the id stay. */
  function WithField(d: DeviceEntry, name: FieldName, v: FieldValue): (e: DeviceEntry)
    requires v.Flag? <==> IsFlagField(name)
    ensures e.id == d.id && Get(e, name) == v
    ensures forall other :: other != name ==> Get(e, other) == Get(d, other)
  {
    match name
    case DeviceType => d.(device_type := v.text)
    case ModelNumber => d.(model_number := v.text)
    case SerialNumber => d.(serial_number := v.text)
    case ProblemDescription => d.(problem_description := v.text)
    case HasAccessories => d.(has_accessories := v.flag)
    case AccessoriesText => d.(accessories_text := v.text)
    case HasPasswordLock => d.(has_password_lock := v.flag)
    case DevicePassword => d.(device_password := v.text)
  }

  predicate DistinctIds(ds: seq<DeviceEntry>) {
    forall i, j :: 0 <= i < j < |ds| ==> ds[i].id != ds[j].id
  }

  /** `prev.map(d => d.id === id ? { ...d, [field]: value } : d)`. */
  function UpdateWhere(ds: seq<DeviceEntry>, id: nat, name: FieldName, v: FieldValue): (r: seq<DeviceEntry>)
    requires v.Flag? <==> IsFlagField(name)
    ensures |r| == |ds|
    ensures forall i :: 0 <= i < |ds| ==> r[i].id == ds[i].id
    ensures forall i :: 0 <= i < |ds| && ds[i].id != id ==> r[i] == ds[i]
    ensures forall i :: 0 <= i < |ds| && ds[i].id == id ==> Get(r[i], name) == v
  {
    seq(|ds|, i requires 0 <= i < |ds| => if ds[i].id == id then WithField(ds[i], name, v) else ds[i])
  }

  /** `prev.filter(d => d.id !== id)`. */
  function RemoveId(ds: seq<DeviceEntry>, id: nat): (r: seq<DeviceEntry>)
    ensures |r| <= |ds|
    decreases |ds|
  {
    if ds == [] then []
    else if ds[0].id == id then RemoveId(ds[1..], id)
    else [ds[0]] + RemoveId(ds[1..], id)
  }

  /** The devices left are exactly those with another id. */
  lemma {:induction false} RemoveIdMembers(ds: seq<DeviceEntry>, id: nat)
    ensures forall d :: d in RemoveId(ds, id) <==> d in ds && d.id != id
    decreases |ds|
  {
    if ds != [] {
      RemoveIdMembers(ds[1..], id);
      assert ds == [ds[0]] + ds[1..];
    }
  }

  /** With distinct ids, removing the device at `k` leaves the others, in their order. */
  lemma {:induction false} RemoveIdAt(ds: seq<DeviceEntry>, k: nat)
    requires DistinctIds(ds) && k < |ds|
    ensures RemoveId(ds, ds[k].id) == ds[..k] + ds[k + 1..]
    decreases |ds|
  {
    var id := ds[k].id;
    DistinctTail(ds);
    if k == 0 {
      RemoveFirst(ds);
      assert ds[..0] + ds[1..] == ds[1..];
    } else {
      var tl := ds[1..];
      RemoveIdAt(tl, k - 1);
      RemoveKeepsHead(ds, k);
      assert [ds[0]] + (tl[..k - 1] + tl[k..]) == ds[..k] + ds[k + 1..];
    }
  }

  lemma DistinctTail(ds: seq<DeviceEntry>)
    requires DistinctIds(ds) && ds != []
    ensures DistinctIds(ds[1..])
  {
    var tl := ds[1..];
    forall i, j | 0 <= i < j < |tl| ensures tl[i].id != tl[j].id {
      assert tl[i] == ds[i + 1] && tl[j] == ds[j + 1];
    }
  }

  /** Removing the first device's id drops exactly the first device. */
  lemma RemoveFirst(ds: seq<DeviceEntry>)
    requires DistinctIds(ds) && ds != []
    ensures RemoveId(ds, ds[0].id) == ds[1..]
  {
    var tl := ds[1..];
    forall i | 0 <= i < |tl| ensures tl[i].id != ds[0].id {
      assert tl[i] == ds[i + 1];
    }
    RemoveAbsent(tl, ds[0].id);
  }

  /** Removing a later device's id keeps the first device in front. */
  lemma RemoveKeepsHead(ds: seq<DeviceEntry>, k: nat)
    requires DistinctIds(ds) && 0 < k < |ds|
    ensures RemoveId(ds, ds[k].id) == [ds[0]] + RemoveId(ds[1..], ds[1..][k - 1].id)
  {
    assert ds[0].id != ds[k].id;
    assert ds[1..][k - 1] == ds[k];
  }

  /** Removing an id no device has changes nothing. */
  lemma {:induction false} RemoveAbsent(ds: seq<DeviceEntry>, id: nat)
    requires forall i :: 0 <= i < |ds| ==> ds[i].id != id
    ensures RemoveId(ds, id) == ds
    decreases |ds|
  {
    if ds != [] {
      RemoveAbsent(ds[1..], id);
    }
  }

  /** Dropping one element keeps the ids distinct. */
  lemma DropKeepsDistinct(ds: seq<DeviceEntry>, k: nat)
    requires DistinctIds(ds) && k < |ds|
    ensures DistinctIds(ds[..k] + ds[k + 1..])
  {
    var r := ds[..k] + ds[k + 1..];
    forall i, j | 0 <= i < j < |r| ensures r[i].id != r[j].id {
      var i' := if i < k then i else i + 1;
      var j' := if j < k then j else j + 1;
      assert r[i] == ds[i'] && r[j] == ds[j'];
    }
  }

  /**
   * Removing by id from a list of two or more devices with distinct ids keeps
   * at least one device, keeps the ids distinct and below any bound they
   * were below, and drops exactly the device with that id.
   */
  lemma RemoveKeepsOne(ds: seq<DeviceEntry>, id: nat, bound: nat)
    requires DistinctIds(ds) && |ds| > 1
    requires forall i :: 0 <= i < |ds| ==> ds[i].id < bound
    ensures var r := RemoveId(ds, id);
      && |r| >= 1 && DistinctIds(r)
      && (forall i :: 0 <= i < |r| ==> r[i].id < bound)
      && (forall k :: 0 <= k < |ds| && ds[k].id == id ==> r == ds[..k] + ds[k + 1..])
  {
    var r := RemoveId(ds, id);
    RemoveIdMembers(ds, id);
    forall i | 0 <= i < |r| ensures r[i].id < bound {
      assert r[i] in ds;
    }
    if k :| 0 <= k < |ds| && ds[k].id == id {
      RemoveIdAt(ds, k);
      DropKeepsDistinct(ds, k);
      forall k' | 0 <= k' < |ds| && ds[k'].id == id
        ensures r == ds[..k'] + ds[k' + 1..]
      {
        assert k' == k;
      }
    } else {
      RemoveAbsent(ds, id);
    }
  }

  // ---------------------------------------------------------------------
  // Device name suggestions
  // ---------------------------------------------------------------------

  /** `deviceSuggestions`, the fixed list of common device names. */
  const DeviceNames: seq<string> := [
    "Dell Laptop", "HP Laptop", "Lenovo Laptop", "Acer Laptop", "Asus Laptop",
    "MacBook", "Desktop PC", "Dell Monitor", "HP Monitor", "LG Monitor",
    "HP Printer", "Canon Printer", "Epson Printer", "Motherboard",
    "Gaming Laptop", "Workstation"]

  /** `d.toLowerCase().includes(value.toLowerCase())`. */
  predicate MatchesInput(name: string, value: string) {
    Contains(ToLower(name), ToLower(value))
  }

  /** The names that contain the input, ignoring case, in list order. */
  function FilterNames(names: seq<string>, value: string): (r: seq<string>)
    ensures |r| <= |names|
    ensures forall x :: x in r <==> x in names && MatchesInput(x, value)
    decreases |names|
  {
    if names == [] then []
    else (if MatchesInput(names[0], value) then [names[0]] else []) + FilterNames(names[1..], value)
  }

  /** Filtering distributes over concatenation, so the kept names stay in list order. */
  lemma {:induction false} FilterNamesAppend(a: seq<string>, b: seq<string>, value: string)
    ensures FilterNames(a + b, value) == FilterNames(a, value) + FilterNames(b, value)
    decreases |a|
  {
    if a != [] {
      assert (a + b)[1..] == a[1..] + b;
      FilterNamesAppend(a[1..], b, value);
      assert (a + b)[0] == a[0];
    } else {
      assert a + b == b;
    }
  }

  /** An input that every name contains keeps the whole list, in order. */
  lemma {:induction false} FilterKeepsAllMatching(names: seq<string>, value: string)
    requires forall i :: 0 <= i < |names| ==> MatchesInput(names[i], value)
    ensures FilterNames(names, value) == names
    decreases |names|
  {
    if names != [] {
      FilterKeepsAllMatching(names[1..], value);
      assert [names[0]] + names[1..] == names;
    }
  }

  // ---------------------------------------------------------------------
  // Submitting
  // ---------------------------------------------------------------------

  /** What `createReceipt.mutateAsync` does with one device: a new receipt's id, or a throw. */
  datatype CreateOutcome = Created(id: string) | Threw(message: string)

  /**
   * `submitData` for one device. `receivedDate` is the picked date as an
   * ISO string, `nowIso` is `new Date().toISOString()`.
   */
  function SubmitData(d: DeviceEntry, name: string, phone: string, receivedDate: Option<string>, nowIso: string)
    : (f: ReceiptFormData)
    ensures f.customer_name == name && f.customer_phone == phone
    ensures f.device_type == d.device_type && f.problem_description == d.problem_description
    ensures f.device_model == OrNull(d.model_number) && f.serial_number == OrNull(d.serial_number)
    ensures f.accessories.Some? <==> d.has_accessories && d.accessories_text != ""
    ensures f.accessories.Some? ==> f.accessories.value == d.accessories_text
    ensures f.device_password.Some? <==> d.has_password_lock && d.device_password != ""
    ensures f.device_password.Some? ==> f.device_password.value == d.device_password
    ensures f.received_date == Some(receivedDate.GetOr(nowIso))
    ensures f.customer_email == None && f.repair_notes == None
    ensures f.estimated_delivery_date == None && f.group_id == None
  {
    ReceiptFormData(
      name,
      phone,
      None,
      d.device_type,
      OrNull(d.model_number),
      OrNull(d.serial_number),
      if d.has_accessories then OrNull(d.accessories_text) else None,
      d.problem_description,
      None,
      None,
      if d.has_password_lock then OrNull(d.device_password) else None,
      Some(receivedDate.GetOr(nowIso)),
      None)
  }

  /**
   * The data submitted for each device, in list order. `now(i)` is the
   * clock reading taken while the `i`-th device is built: the loop reads
   * `new Date()` afresh for each device.
   */
  function Payloads(ds: seq<DeviceEntry>, name: string, phone: string, receivedDate: Option<string>,
                    now: nat -> string)
    : (ps: seq<ReceiptFormData>)
    ensures |ps| == |ds|
    ensures forall i :: 0 <= i < |ds| ==> ps[i] == SubmitData(ds[i], name, phone, receivedDate, now(i))
  {
    seq(|ds|, i requires 0 <= i < |ds| => SubmitData(ds[i], name, phone, receivedDate, now(i)))
  }

  /**
   * The create mutation stores what the form submits: the optional fields
   * come through as the form mapped them, the received date is the picked
   * date or now, and the receipt belongs to no group.
   */
  lemma SubmittedFieldsStored(d: DeviceEntry, name: string, phone: string, receivedDate: Option<string>,
                              nowIso: string, createNow: string)
    ensures var row := ReceiptQueries.CreateInsert(SubmitData(d, name, phone, receivedDate, nowIso), createNow);
      && row.accessories == (if d.has_accessories then OrNull(d.accessories_text) else None)
      && row.device_password == (if d.has_password_lock then OrNull(d.device_password) else None)
      && row.device_model == OrNull(d.model_number)
      && row.serial_number == OrNull(d.serial_number)
      && (receivedDate.Some? && receivedDate.value != "" ==> row.received_date == receivedDate.value)
      && row.group_id == None
  {
  }

  /**
   * What the loop of `handleSubmit` does with the payloads `ps`: the first
   * `calls` of them are sent, in list order, each with its index; every
   * one but the last of those was created; an id comes back exactly when
   * every payload was created, and it is the last receipt's id; otherwise
   * the last call threw.
   */
  ghost predicate SubmitOutcome(create: (nat, ReceiptFormData) -> CreateOutcome, ps: seq<ReceiptFormData>,
                                calls: nat, createdId: Option<string>)
  {
    && 1 <= calls <= |ps|
    && (forall j :: 0 <= j < calls - 1 ==> create(j, ps[j]).Created?)
    && (createdId.Some? <==> calls == |ps| && create(|ps| - 1, ps[|ps| - 1]).Created?)
    && (createdId.Some? ==> createdId == Some(create(|ps| - 1, ps[|ps| - 1]).id))
    && (createdId.None? ==> create(calls - 1, ps[calls - 1]).Threw?)
  }

  /**
   * The loop of `handleSubmit`: one create call per device, in list order,
   * each with the call's index. A throw ends the loop; after the last
   * device is created the id of its receipt is returned, for `onSuccess`.
   */
  method SubmitAll(create: (nat, ReceiptFormData) -> CreateOutcome, ds: seq<DeviceEntry>, name: string,
                   phone: string, date: Option<string>, now: nat -> string)
    returns (calls: nat, createdId: Option<string>)
    requires |ds| >= 1
    ensures SubmitOutcome(create, Payloads(ds, name, phone, date, now), calls, createdId)
  {
    var ps := Payloads(ds, name, phone, date, now);
    calls, createdId := 0, None;
    while calls < |ds|
      invariant 0 <= calls <= |ds|
      invariant forall j :: 0 <= j < calls ==> create(j, ps[j]).Created?
      invariant createdId == (if calls == |ds| then Some(create(|ds| - 1, ps[|ds| - 1]).id) else None)
    {
      var result := create(calls, ps[calls]);
      calls := calls + 1;
      if result.Threw? {
        return;
      }
      if calls == |ds| {
        createdId := Some(result.id);
      }
    }
  }

  // ---------------------------------------------------------------------
  // The component
  // ---------------------------------------------------------------------

  class ReceiptForm {
    var customerName: string
    var customerPhone: string
    /** The picked received date as an ISO string; `None` when the picker is cleared. */
    var receivedDate: Option<string>
    var devices: seq<DeviceEntry>
    /** The next id a new device receives. */
    var nextId: nat
    var showPasswords: map<nat, bool>
    var deviceSuggestions: map<nat, seq<string>>
    var suggestionOpen: map<nat, bool>
    var isSubmitting: bool
    /** The device names offered as suggestions: `DeviceNames`. */
    const nameList: seq<string>

    /** At least one device, ids distinct, and every id below the counter. */
    ghost predicate Valid()
      reads this
    {
      |devices| >= 1 && DistinctIds(devices) && forall i :: 0 <= i < |devices| ==> devices[i].id < nextId
    }

    /** The initial state: one empty device, dated now. */
    constructor(nowIso: string)
      ensures Valid()
      ensures customerName == "" && customerPhone == "" && receivedDate == Some(nowIso)
      ensures devices == [EmptyDevice(0)] && nextId == 1
      ensures showPasswords == map[] && deviceSuggestions == map[] && suggestionOpen == map[]
      ensures !isSubmitting && nameList == DeviceNames
    {
      nameList := DeviceNames;
      customerName := "";
      customerPhone := "";
      receivedDate := Some(nowIso);
      devices := [EmptyDevice(0)];
      nextId := 1;
      showPasswords := map[];
      deviceSuggestions := map[];
      suggestionOpen := map[];
      isSubmitting := false;
    }

    /** `handleSelectCustomer`. */
    method SelectCustomer(name: string, phone: string)
      requires Valid()
      modifies this
      ensures Valid()
      ensures customerName == name && customerPhone == phone
      ensures devices == old(devices) && nextId == old(nextId) && receivedDate == old(receivedDate)
      ensures showPasswords == old(showPasswords) && deviceSuggestions == old(deviceSuggestions)
      ensures suggestionOpen == old(suggestionOpen) && isSubmitting == old(isSubmitting)
    {
      customerName := name;
      customerPhone := phone;
    }

    /** The customer-name input's `onChange={setCustomerName}`. */
    method SetCustomerName(name: string)
      requires Valid()
      modifies this
      ensures Valid()
      ensures customerName == name
      ensures customerPhone == old(customerPhone) && receivedDate == old(receivedDate)
      ensures devices == old(devices) && nextId == old(nextId)
      ensures showPasswords == old(showPasswords) && deviceSuggestions == old(deviceSuggestions)
      ensures suggestionOpen == old(suggestionOpen) && isSubmitting == old(isSubmitting)
    {
      customerName := name;
    }

    /** The phone input's `onChange`: `setCustomerPhone(e.target.value)`. */
    method SetCustomerPhone(phone: string)
      requires Valid()
      modifies this
      ensures Valid()
      ensures customerPhone == phone
      ensures customerName == old(customerName) && receivedDate == old(receivedDate)
      ensures devices == old(devices) && nextId == old(nextId)
      ensures showPasswords == old(showPasswords) && deviceSuggestions == old(deviceSuggestions)
      ensures suggestionOpen == old(suggestionOpen) && isSubmitting == old(isSubmitting)
    {
      customerPhone := phone;
    }

    /**
     * The date picker's `onSelect={setReceivedDate}`: a picked day, or
     * `None` when the selected day is clicked again and the picker clears.
     */
    method SetReceivedDate(d: Option<string>)
      requires Valid()
      modifies this
      ensures Valid()
      ensures receivedDate == d
      ensures customerName == old(customerName) && customerPhone == old(customerPhone)
      ensures devices == old(devices) && nextId == old(nextId)
      ensures showPasswords == old(showPasswords) && deviceSuggestions == old(deviceSuggestions)
      ensures suggestionOpen == old(suggestionOpen) && isSubmitting == old(isSubmitting)
    {
      receivedDate := d;
    }

    /** `addDevice`: one new empty device at the end, with a fresh id. */
    method AddDevice()
      requires Valid()
      modifies this
      ensures Valid()
      ensures devices == old(devices) + [EmptyDevice(old(nextId))]
      ensures old(nextId) !in set i | 0 <= i < |old(devices)| :: old(devices)[i].id
      ensures nextId == old(nextId) + 1
      ensures customerName == old(customerName) && customerPhone == old(customerPhone)
      ensures receivedDate == old(receivedDate) && showPasswords == old(showPasswords)
      ensures deviceSuggestions == old(deviceSuggestions) && suggestionOpen == old(suggestionOpen)
      ensures isSubmitting == old(isSubmitting)
    {
      devices := devices + [EmptyDevice(nextId)];
      nextId := nextId + 1;
    }

    /**
     * `removeDevice`: nothing happens to the last remaining device; otherwise
     * the device with that id leaves the list and the rest keep their order.
     */
    method RemoveDevice(id: nat)
      requires Valid()
      modifies this
      ensures Valid()
      ensures |old(devices)| == 1 ==> devices == old(devices)
      ensures |old(devices)| > 1 ==> devices == RemoveId(old(devices), id)
      ensures forall k :: 0 <= k < |old(devices)| && old(devices)[k].id == id && |old(devices)| > 1 ==>
        devices == old(devices)[..k] + old(devices)[k + 1..]
      ensures nextId == old(nextId) && customerName == old(customerName) && customerPhone == old(customerPhone)
      ensures receivedDate == old(receivedDate) && showPasswords == old(showPasswords)
      ensures deviceSuggestions == old(deviceSuggestions) && suggestionOpen == old(suggestionOpen)
      ensures isSubmitting == old(isSubmitting)
    {
      if |devices| > 1 {
        RemoveKeepsOne(devices, id, nextId);
        devices := RemoveId(devices, id);
      }
    }

    /** `updateDevice`: the named field of the device with that id; nothing else. */
    method UpdateDevice(id: nat, name: FieldName, v: FieldValue)
      requires Valid()
      requires v.Flag? <==> IsFlagField(name)
      modifies this
      ensures Valid()
      ensures devices == UpdateWhere(old(devices), id, name, v)
      ensures nextId == old(nextId) && customerName == old(customerName) && customerPhone == old(customerPhone)
      ensures receivedDate == old(receivedDate) && showPasswords == old(showPasswords)
      ensures deviceSuggestions == old(deviceSuggestions) && suggestionOpen == old(suggestionOpen)
      ensures isSubmitting == old(isSubmitting)
    {
      devices := UpdateWhere(devices, id, name, v);
    }

    /**
     * `handleDeviceNameChange`: the device's name takes the input; for a
     * non-empty input the suggestions are the matching names, and the popup
     * is open exactly when some name matches.
     */
    method HandleDeviceNameChange(id: nat, value: string)
      requires Valid()
      modifies this
      ensures Valid()
      ensures devices == UpdateWhere(old(devices), id, DeviceType, Text(value))
      ensures value != "" ==> deviceSuggestions == old(deviceSuggestions)[id := FilterNames(nameList, value)]
      ensures value == "" ==> deviceSuggestions == old(deviceSuggestions)
      ensures suggestionOpen == old(suggestionOpen)[id := value != "" && FilterNames(nameList, value) != []]
      ensures nextId == old(nextId) && customerName == old(customerName) && customerPhone == old(customerPhone)
      ensures receivedDate == old(receivedDate) && showPasswords == old(showPasswords)
      ensures isSubmitting == old(isSubmitting)
    {
      UpdateDevice(id, DeviceType, Text(value));
      if |value| > 0 {
        var filtered := FilterNames(nameList, value);
        deviceSuggestions := deviceSuggestions[id := filtered];
        suggestionOpen := suggestionOpen[id := |filtered| > 0];
      } else {
        suggestionOpen := suggestionOpen[id := false];
      }
    }

    /** `selectDeviceSuggestion`: the device takes the chosen name and its popup closes. */
    method SelectDeviceSuggestion(id: nat, suggestion: string)
      requires Valid()
      modifies this
      ensures Valid()
      ensures devices == UpdateWhere(old(devices), id, DeviceType, Text(suggestion))
      ensures suggestionOpen == old(suggestionOpen)[id := false]
      ensures deviceSuggestions == old(deviceSuggestions)
      ensures nextId == old(nextId) && customerName == old(customerName) && customerPhone == old(customerPhone)
      ensures receivedDate == old(receivedDate) && showPasswords == old(showPasswords)
      ensures isSubmitting == old(isSubmitting)
    {
      UpdateDevice(id, DeviceType, Text(suggestion));
      suggestionOpen := suggestionOpen[id := false];
    }

    /** `togglePasswordVisibility`: flips that device's flag (an unset flag counts as hidden). */
    method TogglePasswordVisibility(id: nat)
      requires Valid()
      modifies this
      ensures Valid()
      ensures showPasswords == old(showPasswords)[id := !(id in old(showPasswords) && old(showPasswords)[id])]
      ensures devices == old(devices) && nextId == old(nextId)
      ensures customerName == old(customerName) && customerPhone == old(customerPhone)
      ensures receivedDate == old(receivedDate) && deviceSuggestions == old(deviceSuggestions)
      ensures suggestionOpen == old(suggestionOpen) && isSubmitting == old(isSubmitting)
    {
      var shown := id in showPasswords && showPasswords[id];
      showPasswords := showPasswords[id := !shown];
    }

    /**
     * The "Show" checkbox's `onCheckedChange`: the flag of that device takes
     * the box's new state, whatever it was before.
     */
    method SetPasswordShown(id: nat, checked: bool)
      requires Valid()
      modifies this
      ensures Valid()
      ensures showPasswords == old(showPasswords)[id := checked]
      ensures id in showPasswords && showPasswords[id] == checked
      ensures devices == old(devices) && nextId == old(nextId)
      ensures customerName == old(customerName) && customerPhone == old(customerPhone)
      ensures receivedDate == old(receivedDate) && deviceSuggestions == old(deviceSuggestions)
      ensures suggestionOpen == old(suggestionOpen) && isSubmitting == old(isSubmitting)
    {
      showPasswords := showPasswords[id := checked];
    }

    /** The reset after the last device is created: a blank customer and one fresh empty device. */
    method Reset(nowIso: string)
      requires Valid()
      modifies this
      ensures Valid()
      ensures customerName == "" && customerPhone == "" && receivedDate == Some(nowIso)
      ensures devices == [EmptyDevice(old(nextId))] && nextId == old(nextId) + 1
      ensures showPasswords == map[]
      ensures deviceSuggestions == old(deviceSuggestions) && suggestionOpen == old(suggestionOpen)
      ensures isSubmitting == old(isSubmitting)
    {
      customerName := "";
      customerPhone := "";
      receivedDate := Some(nowIso);
      devices := [EmptyDevice(nextId)];
      nextId := nextId + 1;
      showPasswords := map[];
    }

    /**
     * `handleSubmit`: the create calls of SubmitAll; a throw is caught and
     * logged. The form is reset, and `onSuccess` receives the last receipt's
     * id, only after the last device is created. `now(i)` is the clock
     * reading for the `i`-th device, and `now(|devices|)` the one the reset
     * takes after the last device.
     */
    method HandleSubmit(create: (nat, ReceiptFormData) -> CreateOutcome, now: nat -> string)
      returns (calls: nat, createdId: Option<string>)
      requires Valid()
      modifies this
      ensures Valid()
      ensures !isSubmitting
      ensures SubmitOutcome(create, Payloads(old(devices), old(customerName), old(customerPhone), old(receivedDate), now),
                            calls, createdId)
      ensures createdId.Some? ==>
        && customerName == "" && customerPhone == "" && receivedDate == Some(now(|old(devices)|))
        && devices == [EmptyDevice(old(nextId))] && nextId == old(nextId) + 1 && showPasswords == map[]
      ensures createdId.None? ==>
        && customerName == old(customerName) && customerPhone == old(customerPhone)
        && receivedDate == old(receivedDate) && devices == old(devices) && nextId == old(nextId)
        && showPasswords == old(showPasswords)
      ensures deviceSuggestions == old(deviceSuggestions) && suggestionOpen == old(suggestionOpen)
    {
      isSubmitting := true;
      calls, createdId := SubmitAll(create, devices, customerName, customerPhone, receivedDate, now);
      if createdId.Some? {
        Reset(now(|devices|));
      }
      isSubmitting := false;
    }
  }
}
