/** The checks on a new order: services/order-service/internal/service/service.go. */
module CreateInput {
  import opened Outcomes
  import opened Text

  datatype AddressInput = AddressInput(
    city: string, street: string, house: string, apartment: string, lat: real, lng: real)

  datatype CreateOrderInput = CreateOrderInput(
    customer: string, pickup: AddressInput, dropoff: AddressInput, weight: real, distance: real, serviceLevel: string)

  function NormalizeAddressInput(a: AddressInput): AddressInput {
    a.(city := TrimSpace(a.city), street := TrimSpace(a.street), house := TrimSpace(a.house),
       apartment := TrimSpace(a.apartment))
  }

  predicate ValidAddress(a: AddressInput) {
    a.city != "" && a.street != "" && a.house != "" && -90.0 <= a.lat <= 90.0 && -180.0 <= a.lng <= 180.0
  }

  /** `None` for invalid input. */
  function NormalizeCreateInput(raw: CreateOrderInput): Option<CreateOrderInput> {
    var level := Lower(TrimSpace(raw.serviceLevel));
    var input := raw.(
      customer := TrimSpace(raw.customer),
      pickup := NormalizeAddressInput(raw.pickup),
      dropoff := NormalizeAddressInput(raw.dropoff),
      serviceLevel := if level == "" then "standard" else level);
    if input.customer == "" || !IsUuid(input.customer) then None
    else if !ValidAddress(input.pickup) || !ValidAddress(input.dropoff) then None
    else if input.weight <= 0.0 || input.distance < 0.0 then None
    else if input.serviceLevel != "standard" && input.serviceLevel != "express" then None
    else Some(input)
  }

  predicate AcceptableAddress(a: AddressInput) {
    !Blank(a.city) && !Blank(a.street) && !Blank(a.house) && -90.0 <= a.lat <= 90.0 && -180.0 <= a.lng <= 180.0
  }

  lemma AddressAccepted(a: AddressInput)
    ensures ValidAddress(NormalizeAddressInput(a)) <==> AcceptableAddress(a)
  {
    TrimmedIsBlank(a.city);
    TrimmedIsBlank(a.street);
    TrimmedIsBlank(a.house);
  }

  /** What callers may send: one condition for the fields as they come. */
  lemma AcceptedIff(raw: CreateOrderInput)
    ensures NormalizeCreateInput(raw).Some? <==>
      && IsUuid(TrimSpace(raw.customer))
      && AcceptableAddress(raw.pickup) && AcceptableAddress(raw.dropoff)
      && raw.weight > 0.0 && raw.distance >= 0.0
      && (Blank(raw.serviceLevel) || Lower(TrimSpace(raw.serviceLevel)) in {"standard", "express"})
  {
    AddressAccepted(raw.pickup);
    AddressAccepted(raw.dropoff);
    TrimmedIsBlank(raw.serviceLevel);
    assert Lower(TrimSpace(raw.serviceLevel)) == "" <==> TrimSpace(raw.serviceLevel) == "";
  }

  lemma AddressTwice(a: AddressInput)
    ensures NormalizeAddressInput(NormalizeAddressInput(a)) == NormalizeAddressInput(a)
  {
    TrimTwice(a.city);
    TrimTwice(a.street);
    TrimTwice(a.house);
    TrimTwice(a.apartment);
  }

  lemma LevelIsTrimmed(level: string)
    requires level == "standard" || level == "express"
    ensures Lower(TrimSpace(level)) == level
  {
    TrimBare(level, IsSpace);
    assert Lower(level) == level;
  }

  /** Accepted input passes the checks again unchanged. */
  lemma NormalizeTwice(raw: CreateOrderInput)
    requires NormalizeCreateInput(raw).Some?
    ensures NormalizeCreateInput(NormalizeCreateInput(raw).value) == NormalizeCreateInput(raw)
  {
    TrimTwice(raw.customer);
    AddressTwice(raw.pickup);
    AddressTwice(raw.dropoff);
    LevelIsTrimmed(NormalizeCreateInput(raw).value.serviceLevel);
  }

  predicate TrimsAddress(a: AddressInput, raw: AddressInput) {
    && a.city == TrimSpace(raw.city) && a.street == TrimSpace(raw.street) && a.house == TrimSpace(raw.house)
    && a.apartment == TrimSpace(raw.apartment) && a.lat == raw.lat && a.lng == raw.lng
  }

  /** What normalising does to each field; a blank service level means `standard`. */
  lemma NormalizedFields(raw: CreateOrderInput)
    requires NormalizeCreateInput(raw).Some?
    ensures
      var input := NormalizeCreateInput(raw).value;
      && input.customer == TrimSpace(raw.customer)
      && TrimsAddress(input.pickup, raw.pickup) && TrimsAddress(input.dropoff, raw.dropoff)
      && input.weight == raw.weight && input.distance == raw.distance
      && input.serviceLevel ==
         if Blank(raw.serviceLevel) then "standard" else Lower(TrimSpace(raw.serviceLevel))
  {
    TrimmedIsBlank(raw.serviceLevel);
    assert Lower(TrimSpace(raw.serviceLevel)) == "" <==> TrimSpace(raw.serviceLevel) == "";
  }
}
