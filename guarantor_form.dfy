/** The guarantor's address (src/components/GuarantorDetailsForm/index.js): eight address
    fields, combined into one comma-separated line that is pushed into the loan's
    `guarantorFullAddress` whenever a field changes. */
module GuarantorDetailsForm {
  import opened Text
  import opened ListView

  /** The form's `fullAddress` state, its keys in insertion order. */
  datatype Address = Address(
    houseNo: string,
    landmark: string,
    street: string,
    addressLine1: string,
    addressLine2: string,
    city: string,
    state: string,
    pinCode: string)

  const EmptyAddress := Address("", "", "", "", "", "", "", "")

  /** `Object.values(fullAddress)`: the values in the order the keys were created. */
  function Parts(a: Address): (r: seq<string>)
    ensures |r| == 8
    ensures r[0] == a.houseNo && r[7] == a.pinCode
  {
    [a.houseNo, a.landmark, a.street, a.addressLine1, a.addressLine2, a.city, a.state, a.pinCode]
  }

  /** `Boolean` on a string: only the empty string is falsy. */
  predicate NonEmpty(s: string) {
    s != ""
  }

  /** `combineAddress()`: the non-empty values, joined by ", ". */
  function CombineAddress(a: Address): string {
    Join(Filter(Parts(a), NonEmpty), ", ")
  }

  /** Dropping empty parts drops no characters. */
  lemma {:induction false} FilterNonEmptyKeepsText(parts: seq<string>)
    ensures TotalLength(Filter(parts, NonEmpty)) == TotalLength(parts)
    decreases |parts|
  {
    if parts != [] {
      FilterNonEmptyKeepsText(parts[1..]);
      if NonEmpty(parts[0]) {
        assert ([parts[0]] + Filter(parts[1..], NonEmpty))[1..] == Filter(parts[1..], NonEmpty);
      }
    }
  }

  /** Filtering a sequence that has one non-empty part leaves just that part. */
  lemma {:induction false} FilterSingleNonEmpty(parts: seq<string>, i: int)
    requires 0 <= i < |parts| && parts[i] != ""
    requires forall j :: 0 <= j < |parts| && j != i ==> parts[j] == ""
    ensures Filter(parts, NonEmpty) == [parts[i]]
    decreases |parts|
  {
    if i == 0 {
      FilterKeepsNone(parts[1..]);
    } else {
      FilterSingleNonEmpty(parts[1..], i - 1);
    }
  }

  lemma {:induction false} FilterKeepsNone(parts: seq<string>)
    requires forall j :: 0 <= j < |parts| ==> parts[j] == ""
    ensures Filter(parts, NonEmpty) == []
    decreases |parts|
  {
    if parts != [] {
      FilterKeepsNone(parts[1..]);
    }
  }

  /** The combined address holds every character of every field, plus one ", " between
      each two non-empty fields; it is empty exactly when every field is. */
  lemma CombineAddressLength(a: Address)
    ensures var k := |Filter(Parts(a), NonEmpty)|;
      k >= 1 ==> |CombineAddress(a)| == TotalLength(Parts(a)) + 2 * (k - 1)
    ensures CombineAddress(a) == "" <==> a == EmptyAddress
  {
    var kept := Filter(Parts(a), NonEmpty);
    FilterNonEmptyKeepsText(Parts(a));
    if |kept| >= 1 {
      JoinLength(kept, ", ");
    }
    if a == EmptyAddress {
      FilterKeepsNone(Parts(a));
    } else {
      var i :=
        if a.houseNo != "" then 0 else if a.landmark != "" then 1
        else if a.street != "" then 2 else if a.addressLine1 != "" then 3
        else if a.addressLine2 != "" then 4 else if a.city != "" then 5
        else if a.state != "" then 6 else 7;
      FilterMembers(Parts(a), NonEmpty, Parts(a)[i]);
      assert |kept| >= 1;
      assert TotalLength(Parts(a)) >= 1 by {
        TotalLengthBound(Parts(a), i);
      }
    }
  }

  lemma {:induction false} TotalLengthBound(parts: seq<string>, i: int)
    requires 0 <= i < |parts|
    ensures TotalLength(parts) >= |parts[i]|
    decreases |parts|
  {
    if i > 0 {
      TotalLengthBound(parts[1..], i - 1);
    }
  }

  /** With a single field filled in, the combined address is that field alone. */
  lemma CombineSingleField(a: Address, i: int)
    requires 0 <= i < 8 && Parts(a)[i] != ""
    requires forall j :: 0 <= j < 8 && j != i ==> Parts(a)[j] == ""
    ensures CombineAddress(a) == Parts(a)[i]
  {
    FilterSingleNonEmpty(Parts(a), i);
  }

  /** A value is one of the combined address's segments exactly when it is a non-empty
      field. */
  lemma CombineSegments(a: Address, x: string)
    ensures x in Filter(Parts(a), NonEmpty) <==> x in Parts(a) && x != ""
  {
    FilterMembers(Parts(a), NonEmpty, x);
  }

  /** The names of the eight address inputs. */
  datatype AddressField =
    HouseNo | Landmark | Street | AddressLine1 | AddressLine2 | City | State | PinCode

  function FieldIndex(f: AddressField): (i: int)
    ensures 0 <= i < 8
  {
    match f
    case HouseNo => 0
    case Landmark => 1
    case Street => 2
    case AddressLine1 => 3
    case AddressLine2 => 4
    case City => 5
    case State => 6
    case PinCode => 7
  }

  /** `{ ...prev, [name]: value }` for one of the address inputs. */
  function SetField(a: Address, f: AddressField, value: string): (r: Address)
    ensures Parts(r)[FieldIndex(f)] == value
    ensures forall j :: 0 <= j < 8 && j != FieldIndex(f) ==> Parts(r)[j] == Parts(a)[j]
  {
    match f
    case HouseNo => a.(houseNo := value)
    case Landmark => a.(landmark := value)
    case Street => a.(street := value)
    case AddressLine1 => a.(addressLine1 := value)
    case AddressLine2 => a.(addressLine2 := value)
    case City => a.(city := value)
    case State => a.(state := value)
    case PinCode => a.(pinCode := value)
  }

  /** Writing a field twice keeps the second value; writing back a field's own value
      changes nothing. */
  lemma SetFieldLastWins(a: Address, f: AddressField, v1: string, v2: string)
    ensures SetField(SetField(a, f, v1), f, v2) == SetField(a, f, v2)
    ensures SetField(a, f, Parts(a)[FieldIndex(f)]) == a
  {
  }

  /** The form's address state and the loan's `guarantorFullAddress`, which the effect
      keeps equal to the combined address. */
  class GuarantorForm {
    var fullAddress: Address
    var guarantorFullAddress: string

    predicate Valid()
      reads this
    {
      guarantorFullAddress == CombineAddress(fullAddress)
    }

    /** Every field empty; the effect's first run pushes the empty address. */
    constructor ()
      ensures fullAddress == EmptyAddress && guarantorFullAddress == ""
      ensures Valid()
    {
      fullAddress := EmptyAddress;
      guarantorFullAddress := "";
      CombineAddressLength(EmptyAddress);
    }

    /** `handleAddressChange`, followed by the effect that pushes the combined address. */
    method HandleAddressChange(f: AddressField, value: string)
      modifies this
      ensures fullAddress == SetField(old(fullAddress), f, value)
      ensures guarantorFullAddress == CombineAddress(fullAddress)
      ensures Valid()
    {
      fullAddress := SetField(fullAddress, f, value);
      guarantorFullAddress := CombineAddress(fullAddress);
    }
  }
}
