/**
 * `NewVisitForm`: choosing the company's contacts when the form is built,
 * and checking and normalising the GPS coordinates in `clean`.
 */
module NewVisit {
  import opened Wrappers
  import opened Records
  import Ordering
  import PyInt
  import PyDecimal

  const SelectCompanyFirst := "Select company first"
  const SelectContact := "Select contact"

  datatype ValidationError = LocationNotDetected | InvalidCoordinates {
    function Message(): string {
      match this
      case LocationNotDetected => "Location not detected. Allow location access and wait for the map."
      case InvalidCoordinates => "Invalid coordinates received. Please refresh and try again."
    }
  }

  /** A value in the cleaned-data dictionary: `None`, a Decimal, a string, or a stored record. */
  datatype Value = Null | Num(d: PyDecimal.Decimal) | Text(s: string) | Ref(id: int)

  /** What `clean` does: return the cleaned dictionary, or raise a form-level ValidationError. */
  datatype CleanOutcome = Cleaned(data: map<string, Value>) | Invalid(error: ValidationError)

  /** Python truthiness of a cleaned value. */
  function Truthy(v: Value): (b: bool)
    ensures v.Null? ==> !b
    ensures v.Num? ==> (b <==> PyDecimal.RealValue(v.d) != 0.0)
  {
    match v
    case Null => false
    case Num(d) => PyDecimal.IsTruthy(d)
    case Text(s) => s != []
    case Ref(_) => true
  }

  /** `cleaned.get(key)`. */
  function Lookup(cleaned: map<string, Value>, key: string): Value {
    if key in cleaned then cleaned[key] else Null
  }

  /** What a decimal form field cleans to. */
  predicate IsDecimalOrNull(v: Value) {
    v.Null? || v.Num?
  }

  predicate IntTruthy(x: Option<int>) {
    x.Some? && x.value != 0
  }

  /** `self.data.get("company_name")` is truthy. */
  predicate CompanySubmitted(data: map<string, string>) {
    "company_name" in data && data["company_name"] != ""
  }

  /**
   * The company whose contacts are offered.  A submitted value wins and is
   * read with `int()`, with no fallback when that fails; the stored
   * instance is consulted only when nothing was submitted, and only when
   * it is saved and has a company.
   */
  function ResolveCompany(data: map<string, string>, instance: VisitRecord): (r: Option<int>)
    ensures CompanySubmitted(data) ==> r == PyInt.ParseInt(data["company_name"])
    ensures !CompanySubmitted(data) ==> (r.Some? <==> IntTruthy(instance.pk) && IntTruthy(instance.companyNameId))
    ensures !CompanySubmitted(data) && r.Some? ==> r == instance.companyNameId
  {
    if CompanySubmitted(data) then PyInt.ParseInt(data["company_name"])
    else if IntTruthy(instance.pk) && IntTruthy(instance.companyNameId) then instance.companyNameId
    else None
  }

  /** A submitted company makes the stored instance irrelevant. */
  lemma SubmittedCompanyIgnoresInstance(data: map<string, string>, a: VisitRecord, b: VisitRecord)
    requires CompanySubmitted(data)
    ensures ResolveCompany(data, a) == ResolveCompany(data, b)
  {
  }

  /** `.filter(customer_id=c)`: the contacts of company `c`, in their stored order. */
  function ContactsOfCompany(contacts: seq<Contact>, c: int): (r: seq<Contact>)
    ensures forall x :: multiset(r)[x] == if x.customerId == c then multiset(contacts)[x] else 0
  {
    if contacts == [] then []
    else
      var rest := ContactsOfCompany(contacts[1..], c);
      assert contacts == [contacts[0]] + contacts[1..];
      if contacts[0].customerId == c then [contacts[0]] + rest else rest
  }

  /** `.filter(customer_id=c).order_by("contact_name")`. */
  function ContactChoices(contacts: seq<Contact>, c: int): (r: seq<Contact>)
    ensures Ordering.SortedBy(r, ContactName)
    ensures forall x :: multiset(r)[x] == if x.customerId == c then multiset(contacts)[x] else 0
  {
    Ordering.SortBy(ContactsOfCompany(contacts, c), ContactName)
  }

  class NewVisitForm {
    /** The `company_name` field's queryset. */
    var companyChoices: seq<Customer>
    /** The `contact_person` field's queryset and its empty label. */
    var contactChoices: seq<Contact>
    var contactEmptyLabel: string
    /** `cleaned_data`, as the field-level cleaning leaves it before `clean` runs. */
    var cleanedData: map<string, Value>

    /**
     * `__init__`: customers in name order; contacts only once a company is
     * known (a resolved id of 0 counts as none), filtered to it and in name
     * order.
     */
    constructor (data: map<string, string>, instance: VisitRecord, customers: seq<Customer>, contacts: seq<Contact>)
      ensures Ordering.SortedBy(companyChoices, CompanyName) && multiset(companyChoices) == multiset(customers)
      ensures var company := ResolveCompany(data, instance);
        if IntTruthy(company) then
          contactChoices == ContactChoices(contacts, company.value) && contactEmptyLabel == SelectContact
        else
          contactChoices == [] && contactEmptyLabel == SelectCompanyFirst
      ensures cleanedData == map[]
    {
      companyChoices := Ordering.SortBy(customers, CompanyName);
      contactChoices := [];
      contactEmptyLabel := SelectCompanyFirst;
      var companyId: Option<int> := None;
      if CompanySubmitted(data) {
        // a ValueError from int() leaves the id unset
        companyId := PyInt.ParseInt(data["company_name"]);
      } else if IntTruthy(instance.pk) && IntTruthy(instance.companyNameId) {
        companyId := instance.companyNameId;
      }
      if IntTruthy(companyId) {
        contactChoices := ContactChoices(contacts, companyId.value);
        contactEmptyLabel := SelectContact;
      }
      cleanedData := map[];
    }

    /**
     * `clean`: both coordinates must be truthy; each is then quantized to six
     * places half-up and stored back as its string, latitude first.  When the
     * longitude cannot be quantized the latitude has already been rewritten.
     */
    method Clean() returns (r: CleanOutcome)
      requires IsDecimalOrNull(Lookup(cleanedData, "latitude")) && IsDecimalOrNull(Lookup(cleanedData, "longitude"))
      modifies this`cleanedData
      ensures var lat, lon := Lookup(old(cleanedData), "latitude"), Lookup(old(cleanedData), "longitude");
        r == Invalid(LocationNotDetected) <==> !Truthy(lat) || !Truthy(lon)
      ensures var lat, lon := Lookup(old(cleanedData), "latitude"), Lookup(old(cleanedData), "longitude");
        r == Invalid(InvalidCoordinates) <==>
          Truthy(lat) && Truthy(lon) &&
          (PyDecimal.NormaliseCoordinate(lat.d).None? || PyDecimal.NormaliseCoordinate(lon.d).None?)
      ensures r == Invalid(LocationNotDetected) ==> cleanedData == old(cleanedData)
      ensures var lat := Lookup(old(cleanedData), "latitude");
        r == Invalid(InvalidCoordinates) ==>
          if PyDecimal.NormaliseCoordinate(lat.d).Some? then
            cleanedData == old(cleanedData)["latitude" := Text(PyDecimal.NormaliseCoordinate(lat.d).value)]
          else cleanedData == old(cleanedData)
      ensures var lat, lon := Lookup(old(cleanedData), "latitude"), Lookup(old(cleanedData), "longitude");
        r.Cleaned? ==>
          PyDecimal.NormaliseCoordinate(lat.d).Some? && PyDecimal.NormaliseCoordinate(lon.d).Some? &&
          r.data == cleanedData &&
          cleanedData == old(cleanedData)["latitude" := Text(PyDecimal.NormaliseCoordinate(lat.d).value)]
                                         ["longitude" := Text(PyDecimal.NormaliseCoordinate(lon.d).value)]
    {
      var lat := Lookup(cleanedData, "latitude");
      var lon := Lookup(cleanedData, "longitude");
      if !Truthy(lat) || !Truthy(lon) {
        return Invalid(LocationNotDetected);
      }
      var latText := PyDecimal.NormaliseCoordinate(lat.d);
      if latText.None? {
        return Invalid(InvalidCoordinates);
      }
      cleanedData := cleanedData["latitude" := Text(latText.value)];
      var lonText := PyDecimal.NormaliseCoordinate(lon.d);
      if lonText.None? {
        return Invalid(InvalidCoordinates);
      }
      cleanedData := cleanedData["longitude" := Text(lonText.value)];
      r := Cleaned(cleanedData);
    }
  }
}
