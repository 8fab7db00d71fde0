/** The customer screens: the Customer record, the checks run when a customer
    is added or modified, the id a new customer gets, and the rule that keeps
    a customer with appointments from being deleted. */
module Customers {

  import opened Wrappers
  import opened Seqs
  import Ids
  import Text
  import Address
  import PostalCode
  import Phone
  import Appointments

  /** The record in the constructor's parameter order; timestamps are instants
      in minutes, as everywhere else in the model. */
  datatype Customer = Customer(
    id: int,
    name: string,
    address: string,
    postalCode: string,
    phone: string,
    createDate: int,
    createdBy: string,
    lastUpdate: int,
    lastUpdatedBy: string,
    divisionId: int)

  /** What the customer form holds when Save is pressed. */
  datatype CustomerForm = CustomerForm(
    name: string,
    address: string,
    postalCode: string,
    phone: string,
    country: string,
    divisionId: int)

  datatype CustomerField = NameField | PostalCodeField | AddressField | PhoneField

  /** The message variant shown under a failing field. */
  datatype Label = GeneralLabel | CanadaLabel | UkLabel

  /** The error label set under each field, if any. */
  datatype FieldFlags = FieldFlags(
    name: Option<Label>,
    postalCode: Option<Label>,
    address: Option<Label>,
    phone: Option<Label>)
  {
    predicate Clear()
    {
      name.None? && postalCode.None? && address.None? && phone.None?
    }
  }

  datatype Screen = Adding | Modifying

  // ---------------------------------------------------------------------
  // The address rule per country
  // ---------------------------------------------------------------------

  /** The number of comma-separated fields an address must have after its
      street number: two in the U.S. and Canada, three anywhere else. */
  function AddressFieldsFor(country: string): (n: int)
    ensures n == 2 <==> country == "U.S" || country == "Canada"
    ensures n == 2 || n == 3
  {
    if country == "U.S" then 2
    else if country == "Canada" then 2
    else 3
  }

  function CustomerAddressCheck(address: string, country: string): (ok: bool)
    ensures address == [] ==> !ok
    ensures ok <==> Address.AddressCheck(address, AddressFieldsFor(country))
  {
    if address != [] then
      if country == "U.S" then Address.AddressCheck(address, 2)
      else if country == "Canada" then Address.AddressCheck(address, 2)
      else Address.AddressCheck(address, 3)
    else false
  }

  /** An address that suits a North American customer never suits a British
      one, and the reverse: the field counts differ. */
  lemma AddressCountriesExclusive(address: string, american: string, other: string)
    requires american == "U.S" || american == "Canada"
    requires other != "U.S" && other != "Canada"
    ensures !(CustomerAddressCheck(address, american) && CustomerAddressCheck(address, other))
  {
  }

  // ---------------------------------------------------------------------
  // Error labels
  // ---------------------------------------------------------------------

  /** The add screen picks the Canadian or British message by the country
      name the checkers use; the modify screen tests for "United Kingdom",
      a name the checkers never accept, so its British message is never shown. */
  function LabelFor(screen: Screen, field: CustomerField, country: string): (l: Label)
    ensures field == NameField ==> l == GeneralLabel
    ensures l == CanadaLabel <==> field != NameField && country == "Canada"
    ensures l == UkLabel <==>
              field != NameField && country == (if screen == Adding then "UK" else "United Kingdom")
  {
    if field == NameField then GeneralLabel
    else match screen
      case Adding =>
        if country == "Canada" then CanadaLabel
        else if country == "UK" then UkLabel
        else GeneralLabel
      case Modifying =>
        if country == "Canada" then CanadaLabel
        else if country == "United Kingdom" then UkLabel
        else GeneralLabel
  }

  /** A British customer edited on the modify screen sees the general
      message, although the add screen shows the British one. */
  lemma BritishLabelOnlyWhenAdding(field: CustomerField)
    requires field != NameField
    ensures LabelFor(Adding, field, "UK") == UkLabel
    ensures LabelFor(Modifying, field, "UK") == GeneralLabel
  {
  }

  // ---------------------------------------------------------------------
  // Adding a customer
  // ---------------------------------------------------------------------

  /** Each field's acceptance on the add screen. */
  predicate NameAccepted(f: CustomerForm) { f.name != [] }

  predicate PostalCodeAccepted(f: CustomerForm)
  {
    f.postalCode != [] && PostalCode.PostalCodeCheck(f.postalCode, f.country)
  }

  predicate AddressAccepted(f: CustomerForm)
  {
    f.address != [] && CustomerAddressCheck(f.address, f.country)
  }

  predicate PhoneAccepted(f: CustomerForm)
  {
    f.phone != [] && Phone.PhoneNumberCheck(f.phone, f.country)
  }

  /** The error raised for `field` when `failed`: the message its screen
      picks for it. */
  function Flag(failed: bool, screen: Screen, field: CustomerField, country: string): (r: Option<Label>)
    ensures r.Some? <==> failed
    ensures r.Some? ==> r.value == LabelFor(screen, field, country)
  {
    if failed then Some(LabelFor(screen, field, country)) else None
  }

  /** All four checks run and none stops the others: each field's error
      label is set on its own. */
  function Flags(screen: Screen, country: string,
                 nameOk: bool, postalCodeOk: bool, addressOk: bool, phoneOk: bool): (r: FieldFlags)
    ensures r.name.Some? <==> !nameOk
    ensures r.postalCode.Some? <==> !postalCodeOk
    ensures r.address.Some? <==> !addressOk
    ensures r.phone.Some? <==> !phoneOk
    ensures r.name.Some? ==> r.name.value == GeneralLabel
    ensures r.postalCode.Some? ==> r.postalCode.value == LabelFor(screen, PostalCodeField, country)
    ensures r.address.Some? ==> r.address.value == LabelFor(screen, AddressField, country)
    ensures r.phone.Some? ==> r.phone.value == LabelFor(screen, PhoneField, country)
    ensures r.Clear() <==> nameOk && postalCodeOk && addressOk && phoneOk
  {
    FieldFlags(Flag(!nameOk, screen, NameField, country),
               Flag(!postalCodeOk, screen, PostalCodeField, country),
               Flag(!addressOk, screen, AddressField, country),
               Flag(!phoneOk, screen, PhoneField, country))
  }

  /** The add screen's flags: a field is flagged exactly when its checker
      refuses it (an empty value included). */
  function AddFlags(f: CustomerForm): (r: FieldFlags)
    ensures r.name.Some? <==> f.name == []
    ensures r.postalCode.Some? <==> !PostalCode.PostalCodeCheck(f.postalCode, f.country)
    ensures r.address.Some? <==> !CustomerAddressCheck(f.address, f.country)
    ensures r.phone.Some? <==> !Phone.PhoneNumberCheck(f.phone, f.country)
    ensures r.Clear() <==>
              NameAccepted(f) && PostalCodeAccepted(f) && AddressAccepted(f) && PhoneAccepted(f)
  {
    Flags(Adding, f.country, NameAccepted(f), PostalCodeAccepted(f), AddressAccepted(f), PhoneAccepted(f))
  }

  datatype AddOutcome = Created(customer: Customer) | NotCreated(flags: FieldFlags)

  /** The add screen's save: the customer is created only when nothing was
      flagged, with the form's values, the id already allocated, and the same
      instant and user name for creation and last update. */
  function SaveNewCustomer(f: CustomerForm, id: int, now: int, username: string): (r: AddOutcome)
    ensures r.Created? <==>
              NameAccepted(f) && PostalCodeAccepted(f) && AddressAccepted(f) && PhoneAccepted(f)
    ensures r.NotCreated? ==> r.flags == AddFlags(f) && !r.flags.Clear()
    ensures r.Created? ==>
              && r.customer.id == id
              && r.customer.name == f.name
              && r.customer.address == f.address
              && r.customer.postalCode == f.postalCode
              && r.customer.phone == f.phone
              && r.customer.divisionId == f.divisionId
              && r.customer.createDate == r.customer.lastUpdate == now
              && r.customer.createdBy == r.customer.lastUpdatedBy == username
  {
    var flags := AddFlags(f);
    if !flags.Clear() then NotCreated(flags)
    else Created(Customer(id, f.name, f.address, f.postalCode, f.phone,
                          now, username, now, username, f.divisionId))
  }

  /** The id shown for a new customer: the largest stored id plus one, kept
      once computed. */
  function CustomerIds(customers: seq<Customer>): (ids: seq<int>)
    ensures |ids| == |customers|
    ensures forall i :: 0 <= i < |customers| ==> ids[i] == customers[i].id
  {
    seq(|customers|, i requires 0 <= i < |customers| => customers[i].id)
  }

  function NewCustomerId(current: Option<int>, stored: seq<Customer>): (r: Option<int>)
    ensures current.Some? ==> r == current
    ensures current.None? ==> (r.Some? <==> |stored| > 0)
    ensures current.None? && |stored| > 0 ==> r.value == Ids.Wrap(Ids.Max(CustomerIds(stored)) + 1)
    ensures current.None? && r.Some? && Ids.Max(CustomerIds(stored)) < Ids.IntMax
            && (forall c :: c in stored ==> Ids.IsJavaInt(c.id)) ==>
              forall c :: c in stored ==> c.id != r.value
  {
    var ids := CustomerIds(stored);
    assert forall c :: c in stored ==> c.id in ids;
    if && current.None? && |stored| > 0 && Ids.Max(ids) < Ids.IntMax
       && (forall c :: c in stored ==> Ids.IsJavaInt(c.id)) then
      Ids.NextIdFresh(ids);
      Ids.AllocateId(current, ids)
    else Ids.AllocateId(current, ids)
  }

  // ---------------------------------------------------------------------
  // Modifying a customer
  // ---------------------------------------------------------------------

  /** On the modify screen a value passes its checker, or is simply the one
      the customer already has. */
  predicate ModifiedPostalCodeAccepted(f: CustomerForm, current: Customer)
  {
    PostalCodeAccepted(f) || f.postalCode == current.postalCode
  }

  predicate ModifiedAddressAccepted(f: CustomerForm, current: Customer)
  {
    AddressAccepted(f) || f.address == current.address
  }

  predicate ModifiedPhoneAccepted(f: CustomerForm, current: Customer)
  {
    PhoneAccepted(f) || f.phone == current.phone
  }

  predicate ModifyAccepts(f: CustomerForm, current: Customer)
  {
    && NameAccepted(f)
    && ModifiedPostalCodeAccepted(f, current)
    && ModifiedAddressAccepted(f, current)
    && ModifiedPhoneAccepted(f, current)
  }

  /** The UPDATE statement's parameters, including its WHERE id. */
  datatype CustomerUpdate = CustomerUpdate(
    name: string,
    address: string,
    postalCode: string,
    phone: string,
    lastUpdate: int,
    lastUpdatedBy: string,
    divisionId: int,
    whereId: int)

  /** The selected customer after the save (accepted fields are written into
      it at once, whatever happens later), the flagged fields, and the update
      that is issued only when nothing was flagged. */
  datatype ModifyOutcome = ModifyOutcome(
    customer: Customer,
    flags: FieldFlags,
    update: Option<CustomerUpdate>)

  function SaveModifiedCustomer(f: CustomerForm, selected: Customer, now: int, username: string): (r: ModifyOutcome)
    ensures r.update.Some? <==> ModifyAccepts(f, selected)
    ensures r.update.Some? <==> r.flags.Clear()
    ensures r.flags == Flags(Modifying, f.country, NameAccepted(f), ModifiedPostalCodeAccepted(f, selected),
                              ModifiedAddressAccepted(f, selected), ModifiedPhoneAccepted(f, selected))
    ensures r.customer.name == (if NameAccepted(f) then f.name else selected.name)
    ensures r.customer.postalCode ==
              (if ModifiedPostalCodeAccepted(f, selected) then f.postalCode else selected.postalCode)
    ensures r.customer.address ==
              (if ModifiedAddressAccepted(f, selected) then f.address else selected.address)
    ensures r.customer.phone ==
              (if ModifiedPhoneAccepted(f, selected) then f.phone else selected.phone)
    ensures r.customer.id == selected.id && r.customer.divisionId == selected.divisionId
    ensures r.customer.createDate == selected.createDate && r.customer.createdBy == selected.createdBy
    ensures r.customer.lastUpdate == selected.lastUpdate
    ensures r.customer.lastUpdatedBy == selected.lastUpdatedBy
    ensures r.update.Some? ==>
              r.update.value == CustomerUpdate(f.name, f.address, f.postalCode, f.phone,
                                               now, username, selected.divisionId, selected.id)
  {
    var nameOk := NameAccepted(f);
    var postalOk := ModifiedPostalCodeAccepted(f, selected);
    var addressOk := ModifiedAddressAccepted(f, selected);
    var phoneOk := ModifiedPhoneAccepted(f, selected);
    var c := selected.(
      name := if nameOk then f.name else selected.name,
      postalCode := if postalOk then f.postalCode else selected.postalCode,
      address := if addressOk then f.address else selected.address,
      phone := if phoneOk then f.phone else selected.phone);
    var flags := Flags(Modifying, f.country, nameOk, postalOk, addressOk, phoneOk);
    var update := if flags.Clear() then
                    Some(CustomerUpdate(c.name, c.address, c.postalCode, c.phone,
                                        now, username, c.divisionId, c.id))
                  else None;
    ModifyOutcome(c, flags, update)
  }

  /** Leaving postal code, address and phone as they are always lets the
      save through once the name is filled in, even when the stored values
      would fail their checkers today. */
  lemma UnchangedValuesPass(f: CustomerForm, selected: Customer, now: int, username: string)
    requires f.name != []
    requires f.postalCode == selected.postalCode
    requires f.address == selected.address
    requires f.phone == selected.phone
    ensures SaveModifiedCustomer(f, selected, now, username).update.Some?
  {
  }

  /** Whatever the add screen would accept, the modify screen accepts too,
      for any customer being edited. */
  lemma AddAcceptedThenModifyAccepted(f: CustomerForm, id: int, selected: Customer, now: int, username: string)
    requires SaveNewCustomer(f, id, now, username).Created?
    ensures SaveModifiedCustomer(f, selected, now, username).update.Some?
  {
  }

  /** The modify screen never changes which division is written, whatever
      division the form shows. */
  lemma DivisionChangeIgnored(f: CustomerForm, selected: Customer, now: int, username: string)
    requires SaveModifiedCustomer(f, selected, now, username).update.Some?
    ensures SaveModifiedCustomer(f, selected, now, username).update.value.divisionId == selected.divisionId
    ensures SaveModifiedCustomer(f, selected, now, username).update.value.whereId == selected.id
  {
  }

  /** Pressing Save again after any save, with the form unchanged: every
      field accepted the first time is now the stored value and passes, every
      field refused is still compared with the old value and fails again, and
      the customer record does not change any further. */
  lemma SaveAgainIsStable(f: CustomerForm, selected: Customer, now: int, later: int, username: string)
    ensures var first := SaveModifiedCustomer(f, selected, now, username);
            var second := SaveModifiedCustomer(f, first.customer, later, username);
            && second.customer == first.customer
            && second.flags == first.flags
            && (second.update.Some? <==> first.update.Some?)
  {
    var first := SaveModifiedCustomer(f, selected, now, username);
    var second := SaveModifiedCustomer(f, first.customer, later, username);
    assert ModifiedPostalCodeAccepted(f, selected) ==> ModifiedPostalCodeAccepted(f, first.customer);
    assert ModifiedAddressAccepted(f, selected) ==> ModifiedAddressAccepted(f, first.customer);
    assert ModifiedPhoneAccepted(f, selected) ==> ModifiedPhoneAccepted(f, first.customer);
  }

  // ---------------------------------------------------------------------
  // Deleting a customer
  // ---------------------------------------------------------------------

  /** The customer ids of the stored appointments, in appointment order. */
  function AppointmentCustomerIds(appointments: seq<Appointments.Appointment>): (ids: seq<int>)
    ensures |ids| == |appointments|
    ensures forall i :: 0 <= i < |appointments| ==> ids[i] == appointments[i].customerId
  {
    seq(|appointments|, i requires 0 <= i < |appointments| => appointments[i].customerId)
  }

  /** The list built when the customers view opens: each customer id that
      has an appointment, once, in order of first appearance. */
  function CustomerIdsWithAppointments(appointments: seq<Appointments.Appointment>): (ids: seq<int>)
    ensures NoDuplicates(ids)
    ensures forall x :: x in ids <==> exists a :: a in appointments && a.customerId == x
    ensures forall x :: x in ids <==> x in AppointmentCustomerIds(appointments)
    ensures forall i, j :: 0 <= i < j < |ids| ==>
              FirstIndex(AppointmentCustomerIds(appointments), ids[i])
              < FirstIndex(AppointmentCustomerIds(appointments), ids[j])
  {
    var all := AppointmentCustomerIds(appointments);
    assert forall x :: x in all <==> exists a :: a in appointments && a.customerId == x by {
      forall x
        ensures x in all <==> exists a :: a in appointments && a.customerId == x
      {
        if x in all {
          var i :| 0 <= i < |all| && all[i] == x;
          assert appointments[i] in appointments;
        }
      }
    }
    Distinct(all)
  }

  /** The loop that builds the list: an id is appended when it is not there
      yet. */
  method CollectCustomerIds(appointments: seq<Appointments.Appointment>) returns (ids: seq<int>)
    ensures ids == CustomerIdsWithAppointments(appointments)
  {
    ids := [];
    for i := 0 to |appointments|
      invariant ids == Distinct(AppointmentCustomerIds(appointments[..i]))
    {
      var prefix := AppointmentCustomerIds(appointments[..i + 1]);
      assert prefix[..i] == AppointmentCustomerIds(appointments[..i]);
      assert prefix[i] == appointments[i].customerId;
      if appointments[i].customerId !in ids {
        ids := ids + [appointments[i].customerId];
      }
    }
    assert appointments[..|appointments|] == appointments;
  }

  datatype DeleteOutcome = Deleted(customerId: int) | HasAppointments

  /** A customer on the list is refused; any other is deleted by its id. */
  function DeleteCustomer(selected: Customer, idsWithAppointments: seq<int>): (r: DeleteOutcome)
    ensures r.Deleted? <==> selected.id !in idsWithAppointments
    ensures r.Deleted? ==> r.customerId == selected.id
  {
    if selected.id in idsWithAppointments then HasAppointments
    else Deleted(selected.id)
  }

  /** With the list built from the stored appointments, a customer is
      deleted exactly when none of the appointments is theirs. */
  lemma DeleteOnlyWithoutAppointments(selected: Customer, appointments: seq<Appointments.Appointment>)
    ensures DeleteCustomer(selected, CustomerIdsWithAppointments(appointments)).Deleted?
            <==> forall a :: a in appointments ==> a.customerId != selected.id
  {
  }
}
