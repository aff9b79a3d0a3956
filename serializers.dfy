/**
 * Validation of an order-creation request, field by field: the delivery fields
 * (text fields with length limits), the payment-method choice, the delivery
 * price (a non-negative decimal with at most 10 digits, 2 of them fractional)
 * and the list of requested lines (a product id, an optional size name and a
 * quantity of at least one).
 */
module Serializers {
  import opened Wrappers
  import opened Models

  // ------------------------------------------------------------ raw input

  /** One field of the submitted body: left out, sent as null, or given. */
  datatype Field<T> = Missing | Null | Given(value: T)

  /** A submitted decimal number: coefficient × 10^exponent, as written. */
  datatype Decimal = Decimal(coefficient: int, exponent: int)

  datatype ItemInput = ItemInput(productId: Field<int>, size: Field<string>, quantity: Field<int>)

  datatype OrderInput = OrderInput(
    fullName: Field<string>,
    phone: Field<string>,
    address: Field<string>,
    city: Field<string>,
    region: Field<string>,
    postalCode: Field<string>,
    paymentMethod: Field<string>,
    deliveryPrice: Field<Decimal>,
    note: Field<string>,
    items: Field<seq<ItemInput>>)

  // ------------------------------------------------------ validated output

  /** A validated line: the size name is absent when left out or null, and may be blank. */
  datatype ItemLine = ItemLine(productId: ProductId, size: Option<string>, quantity: int)

  datatype OrderRequest = OrderRequest(
    delivery: Delivery,
    payment: PaymentMethod,
    deliveryPrice: Cents,
    note: string,
    items: seq<ItemLine>)

  /** The fields a rejected request names; Item(i) is the line at index i. */
  datatype FieldName =
    | FullName | Phone | Address | City | Region | PostalCode
    | PaymentMethodField | DeliveryPrice | Note | Items | Item(index: nat)

  /** The outcome of one field: not in the validated data, null, a value, or rejected. */
  datatype Parsed<T> = Absent | NullValue | Value(v: T) | Invalid

  // ------------------------------------------------------------ whitespace

  /** The characters Python's str.strip() removes, by code point. */
  predicate IsSpace(c: char) {
    var n := c as int;
    || 9 <= n <= 13 || 28 <= n <= 32 || n == 0x85 || n == 0xA0 || n == 0x1680
    || 0x2000 <= n <= 0x200A || n == 0x2028 || n == 0x2029 || n == 0x202F || n == 0x205F || n == 0x3000
  }

  /** The number of whitespace characters at the start of s. */
  function LeadingSpaces(s: string): (n: nat)
    ensures n <= |s|
    ensures forall i :: 0 <= i < n ==> IsSpace(s[i])
    ensures n == |s| || !IsSpace(s[n])
  {
    if s != [] && IsSpace(s[0]) then
      var n := 1 + LeadingSpaces(s[1..]);
      assert forall i :: 1 <= i < n ==> s[i] == s[1..][i - 1];
      n
    else 0
  }

  /** Where the text of s[lo..hi] ends once trailing whitespace is dropped. */
  function TextEnd(s: string, lo: nat, hi: nat): (e: nat)
    requires lo <= hi <= |s|
    ensures lo <= e <= hi
    ensures forall i :: e <= i < hi ==> IsSpace(s[i])
    ensures e == lo || !IsSpace(s[e - 1])
    decreases hi
  {
    if hi > lo && IsSpace(s[hi - 1]) then TextEnd(s, lo, hi - 1) else hi
  }

  /**
   * Python's str.strip(): the text between the outer runs of whitespace. It
   * starts and ends with a non-space, everything cut off is whitespace, and it
   * is blank exactly when s holds nothing but whitespace.
   */
  function Trim(s: string): (r: string)
    ensures r == [] || (!IsSpace(r[0]) && !IsSpace(r[|r| - 1]))
    ensures LeadingSpaces(s) + |r| <= |s| && r == s[LeadingSpaces(s)..LeadingSpaces(s) + |r|]
    ensures forall i :: 0 <= i < LeadingSpaces(s) || LeadingSpaces(s) + |r| <= i < |s| ==> IsSpace(s[i])
    ensures r == [] <==> forall i :: 0 <= i < |s| ==> IsSpace(s[i])
  {
    var a := LeadingSpaces(s);
    var e := TextEnd(s, a, |s|);
    s[a..e]
  }

  // ----------------------------------------------------------- field kinds

  /**
   * A text field. Missing: rejected when required, else absent. Null: rejected
   * unless null is allowed. Given: surrounding whitespace is removed; a blank
   * value is rejected unless blanks are allowed, and a non-blank value longer
   * than the maximum length is rejected.
   */
  function CharField(f: Field<string>, required: bool, allowBlank: bool, allowNull: bool,
                     maxLength: Option<nat>): (r: Parsed<string>)
    ensures r.Absent? <==> f.Missing? && !required
    ensures r.NullValue? <==> f.Null? && allowNull
    ensures r.Value? ==> f.Given? && r.v == Trim(f.value)
    ensures r.Value? ==> (r.v == [] ==> allowBlank) && (maxLength.Some? ==> |r.v| <= maxLength.value)
    ensures f.Given? ==> (r.Invalid? <==>
              (Trim(f.value) == [] && !allowBlank) ||
              (Trim(f.value) != [] && maxLength.Some? && |Trim(f.value)| > maxLength.value))
  {
    match f
    case Missing => if required then Invalid else Absent
    case Null => if allowNull then NullValue else Invalid
    case Given(s) =>
      var t := Trim(s);
      if t == [] then (if allowBlank then Value([]) else Invalid)
      else if maxLength.Some? && |t| > maxLength.value then Invalid
      else Value(t)
  }

  /** A required integer field with a lower bound when one is given; null is rejected. */
  function IntegerField(f: Field<int>, minValue: Option<int>): (r: Parsed<int>)
    ensures r.Value? <==> f.Given? && (minValue.Some? ==> f.value >= minValue.value)
    ensures r.Value? ==> r.v == f.value
    ensures !r.Absent? && !r.NullValue?
  {
    match f
    case Given(v) => if minValue.Some? && v < minValue.value then Invalid else Value(v)
    case _ => Invalid
  }

  /** The payment-method choice: "cash" when left out, one of the four codes otherwise. */
  function PaymentMethodChoice(f: Field<string>): (r: Parsed<PaymentMethod>)
    ensures f.Missing? ==> r == Value(DefaultPaymentMethod)
    ensures f.Given? ==> forall m: PaymentMethod :: r == Value(m) <==> m.Code() == f.value
    ensures f.Null? ==> r.Invalid?
    ensures r.Value? || r.Invalid?
  {
    match f
    case Missing => Value(DefaultPaymentMethod)
    case Null => Invalid
    case Given(s) =>
      match PaymentMethodFromCode(s)
      case Some(m) => Value(m)
      case None => Invalid
  }

  // --------------------------------------------------------------- decimals

  function Pow10(n: nat): (r: nat)
    ensures r >= 1
  {
    if n == 0 then 1 else 10 * Pow10(n - 1)
  }

  lemma {:induction false} Pow10Add(a: nat, b: nat)
    ensures Pow10(a + b) == Pow10(a) * Pow10(b)
  {
    if a > 0 {
      Pow10Add(a - 1, b);
      assert Pow10(a + b) == 10 * Pow10(a - 1 + b);
    }
  }

  lemma {:induction false} Pow10Monotone(a: nat, b: nat)
    requires a <= b
    ensures Pow10(a) <= Pow10(b)
  {
    if a < b {
      Pow10Monotone(a, b - 1);
    }
  }

  /** The number of decimal digits of n, counting 0 as one digit. */
  function NumDigits(n: nat): (d: nat)
    ensures d >= 1 && n < Pow10(d)
    ensures d > 1 ==> Pow10(d - 1) <= n
  {
    if n < 10 then 1 else 1 + NumDigits(n / 10)
  }

  function Abs(x: int): nat {
    if x < 0 then -x else x
  }

  /**
   * The digit counts a decimal field checks, taken from the number as written:
   * (total digits, digits before the point, digits after the point).
   */
  function DigitCounts(d: Decimal): (counts: (nat, nat, nat))
    ensures counts.0 == counts.1 + counts.2
    ensures counts.2 == (if d.exponent < 0 then -d.exponent else 0)
    ensures counts.1 == (if NumDigits(Abs(d.coefficient)) + d.exponent > 0 then NumDigits(Abs(d.coefficient)) + d.exponent else 0)
  {
    var digits := NumDigits(Abs(d.coefficient));
    if d.exponent >= 0 then
      (digits + d.exponent, digits + d.exponent, 0)
    else if digits > -d.exponent then
      (digits, digits + d.exponent, -d.exponent)
    else
      (-d.exponent, 0, -d.exponent)
  }

  /** The digit limits of a money field: 10 digits in all, 2 after the point, 8 before it. */
  predicate PrecisionOk(d: Decimal) {
    var counts := DigitCounts(d);
    && counts.0 <= MaxDigits
    && counts.2 <= DecimalPlaces
    && counts.1 <= MaxDigits - DecimalPlaces
  }

  /**
   * The delivery price field: within the digit limits and not negative. An
   * accepted amount is converted to cents without loss and fits a money column.
   */
  function DeliveryPriceCents(d: Decimal): (r: Option<Cents>)
    ensures r.Some? <==> PrecisionOk(d) && d.coefficient >= 0
    ensures r.Some? ==> 0 <= r.value <= MaxCents
    ensures r.Some? && d.exponent <= 0 ==> r.value * Pow10(-d.exponent) == d.coefficient * 100
    ensures r.Some? && d.exponent > 0 ==> r.value == d.coefficient * Pow10(d.exponent) * 100
  {
    if PrecisionOk(d) && d.coefficient >= 0 then
      AcceptedDecimalShape(d);
      CentsBound(d.coefficient, d.exponent);
      CentsExact(d.coefficient, d.exponent);
      Some(d.coefficient * Pow10(d.exponent + 2))
    else
      None
  }

  /** An accepted amount has at most 2 fractional digits and at most 8 whole ones. */
  lemma AcceptedDecimalShape(d: Decimal)
    requires PrecisionOk(d) && d.coefficient >= 0
    ensures -2 <= d.exponent && NumDigits(d.coefficient) + d.exponent <= 8
  {
    assert Abs(d.coefficient) == d.coefficient;
  }

  lemma MulMonotone(a: int, b: int, p: nat)
    requires a <= b
    ensures a * p <= b * p
  {
  }

  lemma Pow10Ten()
    ensures Pow10(10) == MaxCents + 1
  {
    assert Pow10(1) == 10;
    assert Pow10(2) == 100;
    assert Pow10(3) == 1_000;
    assert Pow10(4) == 10_000;
    assert Pow10(5) == 100_000;
    assert Pow10(6) == 1_000_000;
    assert Pow10(7) == 10_000_000;
    assert Pow10(8) == 100_000_000;
    assert Pow10(9) == 1_000_000_000;
  }

  lemma MulBelowPower(c: nat, big: nat, p: nat)
    requires c < big && p >= 1
    ensures 0 <= c * p <= big * p - p
  {
    MulMonotone(c, big - 1, p);
  }

  /** An accepted amount has at most 10 digits in cents. */
  lemma CentsBound(c: nat, e: int)
    requires -2 <= e && NumDigits(c) + e <= 8
    ensures 0 <= c * Pow10(e + 2) <= MaxCents
  {
    var digits := NumDigits(c);
    var p := Pow10(e + 2);
    var big := Pow10(digits);
    MulBelowPower(c, big, p);
    Pow10Add(digits, e + 2);
    Pow10Monotone(digits + e + 2, 10);
    Pow10Ten();
  }

  /** Converting to cents keeps the amount. */
  lemma CentsExact(c: nat, e: int)
    requires -2 <= e
    ensures e <= 0 ==> c * Pow10(e + 2) * Pow10(-e) == c * 100
    ensures e > 0 ==> c * Pow10(e + 2) == c * Pow10(e) * 100
  {
    if e <= 0 {
      Pow10Add(e + 2, -e);
      assert Pow10(2) == 100;
    } else {
      Pow10Add(e, 2);
      assert Pow10(2) == 100;
    }
  }

  /** The delivery price: 0 when left out, null rejected, otherwise as above. */
  function DeliveryPriceField(f: Field<Decimal>): (r: Parsed<Cents>)
    ensures f.Missing? ==> r == Value(0)
    ensures f.Given? ==> (r.Value? <==> DeliveryPriceCents(f.value).Some?)
    ensures f.Given? && r.Value? ==> Some(r.v) == DeliveryPriceCents(f.value)
    ensures f.Null? ==> r.Invalid?
    ensures r.Value? ==> 0 <= r.v <= MaxCents
    ensures r.Value? || r.Invalid?
  {
    match f
    case Missing => Value(0)
    case Null => Invalid
    case Given(d) =>
      match DeliveryPriceCents(d)
      case Some(c) => Value(c)
      case None => Invalid
  }

  // ------------------------------------------------------------------ lines

  /**
   * One requested line: a product id is required, the quantity is required and
   * at least 1, and the size name may be left out, null or blank.
   */
  function ParseItem(it: ItemInput): (r: Option<ItemLine>)
    ensures r.Some? <==> it.productId.Given? && it.quantity.Given? && it.quantity.value >= 1
    ensures r.Some? ==> r.value.productId == it.productId.value && r.value.quantity == it.quantity.value
    ensures r.Some? ==> (r.value.size.Some? <==> it.size.Given?)
    ensures r.Some? && it.size.Given? ==> r.value.size.value == Trim(it.size.value)
  {
    var p := IntegerField(it.productId, None);
    var q := IntegerField(it.quantity, Some(1));
    var s := CharField(it.size, false, true, true, None);
    if p.Invalid? || q.Invalid? then None
    else Some(ItemLine(p.v, if s.Value? then Some(s.v) else None, q.v))
  }

  function ParseItems(items: seq<ItemInput>): (r: seq<ItemLine>)
    requires forall i :: 0 <= i < |items| ==> ParseItem(items[i]).Some?
    ensures |r| == |items|
    ensures forall i :: 0 <= i < |items| ==> Some(r[i]) == ParseItem(items[i])
  {
    if items == [] then []
    else ParseItems(items[..|items| - 1]) + [ParseItem(items[|items| - 1]).value]
  }

  // ---------------------------------------------------------------- request

  function FullNameField(inp: OrderInput): Parsed<string> { CharField(inp.fullName, true, false, false, Some(255)) }
  function PhoneField(inp: OrderInput): Parsed<string> { CharField(inp.phone, true, false, false, Some(20)) }
  function AddressField(inp: OrderInput): Parsed<string> { CharField(inp.address, true, false, false, None) }
  function CityField(inp: OrderInput): Parsed<string> { CharField(inp.city, true, false, false, Some(100)) }
  function RegionField(inp: OrderInput): Parsed<string> { CharField(inp.region, false, true, false, Some(100)) }
  function PostalCodeField(inp: OrderInput): Parsed<string> { CharField(inp.postalCode, false, true, false, Some(20)) }
  function NoteField(inp: OrderInput): Parsed<string> { CharField(inp.note, false, true, false, None) }

  function Flag(bad: bool, name: FieldName): set<FieldName> {
    if bad then {name} else {}
  }

  /** The set of fields a request is rejected for; the request is valid when it is empty. */
  function Errors(inp: OrderInput): set<FieldName> {
    Flag(FullNameField(inp).Invalid?, FullName)
    + Flag(PhoneField(inp).Invalid?, Phone)
    + Flag(AddressField(inp).Invalid?, Address)
    + Flag(CityField(inp).Invalid?, City)
    + Flag(RegionField(inp).Invalid?, Region)
    + Flag(PostalCodeField(inp).Invalid?, PostalCode)
    + Flag(PaymentMethodChoice(inp.paymentMethod).Invalid?, PaymentMethodField)
    + Flag(DeliveryPriceField(inp.deliveryPrice).Invalid?, DeliveryPrice)
    + Flag(NoteField(inp).Invalid?, Note)
    + (match inp.items
       case Given(list) => set i: nat | i < |list| && ParseItem(list[i]).None? :: Item(i)
       case _ => {Items})
  }

  /** With no field rejected, every field holds a value and every line parses. */
  lemma NoErrorsMeansAccepted(inp: OrderInput)
    requires Errors(inp) == {}
    ensures FullNameField(inp).Value? && PhoneField(inp).Value? && AddressField(inp).Value? && CityField(inp).Value?
    ensures !RegionField(inp).Invalid? && !PostalCodeField(inp).Invalid? && !NoteField(inp).Invalid?
    ensures PaymentMethodChoice(inp.paymentMethod).Value? && DeliveryPriceField(inp.deliveryPrice).Value?
    ensures inp.items.Given? && forall i :: 0 <= i < |inp.items.value| ==> ParseItem(inp.items.value[i]).Some?
  {
    assert FullName !in Errors(inp) && Phone !in Errors(inp) && Address !in Errors(inp) && City !in Errors(inp);
    assert Region !in Errors(inp) && PostalCode !in Errors(inp) && Note !in Errors(inp);
    assert PaymentMethodField !in Errors(inp) && DeliveryPrice !in Errors(inp) && Items !in Errors(inp);
    var list := inp.items.value;
    forall i | 0 <= i < |list| ensures ParseItem(list[i]).Some? {
      assert Item(i) !in Errors(inp);
    }
  }

  /** The value an optional text field contributes: blank when left out. */
  function TextOrBlank(p: Parsed<string>): string {
    if p.Value? then p.v else ""
  }

  /** The constraints every validated request meets. */
  predicate RequestWellFormed(req: OrderRequest) {
    && 1 <= |req.delivery.fullName| <= 255
    && 1 <= |req.delivery.phone| <= 20
    && 1 <= |req.delivery.address|
    && 1 <= |req.delivery.city| <= 100
    && |req.delivery.region| <= 100
    && |req.delivery.postalCode| <= 20
    && 0 <= req.deliveryPrice <= MaxCents
    && forall i :: 0 <= i < |req.items| ==> req.items[i].quantity >= 1
  }

  /**
   * Validates a creation request. It is accepted exactly when no field is
   * rejected, and then the result meets every field constraint, takes the
   * defaults for what was left out, and keeps the lines in the order given.
   * An empty list of lines is accepted here.
   */
  function Validate(inp: OrderInput): (r: Result<OrderRequest, set<FieldName>>)
    ensures r.Err? <==> Errors(inp) != {}
    ensures r.Err? ==> r.error == Errors(inp)
    ensures r.Ok? ==> RequestWellFormed(r.value)
    ensures r.Ok? ==> inp.items.Given? && |r.value.items| == |inp.items.value|
    ensures r.Ok? ==> forall i :: 0 <= i < |r.value.items| ==> Some(r.value.items[i]) == ParseItem(inp.items.value[i])
    ensures r.Ok? && inp.paymentMethod.Missing? ==> r.value.payment == Cash
    ensures r.Ok? && inp.deliveryPrice.Missing? ==> r.value.deliveryPrice == 0
    ensures r.Ok? && inp.region.Missing? ==> r.value.delivery.region == ""
    ensures r.Ok? && inp.postalCode.Missing? ==> r.value.delivery.postalCode == ""
    ensures r.Ok? && inp.note.Missing? ==> r.value.note == ""
    ensures r.Ok? ==>
              && r.value.delivery.fullName == Trim(inp.fullName.value)
              && r.value.delivery.phone == Trim(inp.phone.value)
              && r.value.delivery.address == Trim(inp.address.value)
              && r.value.delivery.city == Trim(inp.city.value)
    ensures r.Ok? && inp.region.Given? ==> r.value.delivery.region == Trim(inp.region.value)
    ensures r.Ok? && inp.postalCode.Given? ==> r.value.delivery.postalCode == Trim(inp.postalCode.value)
    ensures r.Ok? && inp.note.Given? ==> r.value.note == Trim(inp.note.value)
    ensures r.Ok? && inp.paymentMethod.Given? ==> r.value.payment.Code() == inp.paymentMethod.value
    ensures r.Ok? && inp.deliveryPrice.Given? ==> Some(r.value.deliveryPrice) == DeliveryPriceCents(inp.deliveryPrice.value)
  {
    if Errors(inp) != {} then Err(Errors(inp))
    else
      NoErrorsMeansAccepted(inp);
      var list := inp.items.value;
      var delivery := Delivery(
        FullNameField(inp).v, PhoneField(inp).v, AddressField(inp).v, CityField(inp).v,
        TextOrBlank(RegionField(inp)), TextOrBlank(PostalCodeField(inp)));
      Ok(OrderRequest(
        delivery,
        PaymentMethodChoice(inp.paymentMethod).v,
        DeliveryPriceField(inp.deliveryPrice).v,
        TextOrBlank(NoteField(inp)),
        ParseItems(list)))
  }
}
