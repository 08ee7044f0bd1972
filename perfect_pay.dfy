/** How the Perfect Pay webhook handler derives the customer's phone key from a
    payment event (index.js:313-324), and when it records the sale under that
    key (index.js:346, 373). */
module PerfectPayPhone {
  import opened Js
  import opened PhoneNormalizer
  import opened WhatsAppExtraction

  /** `v || ''`: a missing or falsy part counts as the empty string. */
  function OrEmpty(v: Value): (r: Value)
    ensures !r.Undefined?
    ensures Truthy(v) ==> r == v
    ensures !Truthy(v) ==> r == Str("")
  {
    Or(v, Str(""))
  }

  /** A part that JavaScript's `+` adds as a number rather than appending as
      text: a truthy number or `true`. */
  predicate AddsNumerically(v: Value) {
    Truthy(v) && (v.Num? || v.Bool?)
  }

  /** The text a part contributes once `|| ''` has been applied. */
  function PartText(v: Value): string {
    ToStr(OrEmpty(v))
  }

  /** The part is the text `t` once `|| ''` has been applied: a non-empty
      string `t`, or a falsy value when `t` is empty. */
  predicate PartIs(v: Value, t: string) {
    OrEmpty(v) == Str(t)
  }

  /** The customer's extension, area code and number read as the given
      texts. */
  predicate TextParts(data: Value, ext: string, area: string, number: string) {
    var c := Get(data, "customer");
    PartIs(Get(c, "phone_extension"), ext) && PartIs(Get(c, "phone_area_code"), area)
    && PartIs(Get(c, "phone_number"), number)
  }

  /** Building the concatenation throws a TypeError (index.js:313-315): one
      of the three parts, once `|| ''` has been applied, is an object with its
      own `toString` field or an array holding one. The handler's `catch`
      (index.js:449-452) then answers with an error and records nothing. */
  predicate ConcatenationThrows(data: Value) {
    var c := Get(data, "customer");
    || ToStrThrows(OrEmpty(Get(c, "phone_extension"))) || ToStrThrows(OrEmpty(Get(c, "phone_area_code")))
    || ToStrThrows(OrEmpty(Get(c, "phone_number")))
  }

  /** `(c?.phone_extension || '') + (c?.phone_area_code || '') +
      (c?.phone_number || '')` for `c = data.customer` (index.js:313-315). */
  function ConcatenatedPhone(data: Value): Value
    requires !ConcatenationThrows(data)
  {
    var c := Get(data, "customer");
    Plus(Plus(OrEmpty(Get(c, "phone_extension")), OrEmpty(Get(c, "phone_area_code"))),
         OrEmpty(Get(c, "phone_number")))
  }

  /** The concatenation is the three parts' text run together, unless both
      the extension and the area code are numbers, in which case `+` adds
      them first: the sum's digits come out ahead of a text number, and a
      numeric number is added to the sum as well. */
  lemma ConcatenationOfParts(data: Value)
    requires !ConcatenationThrows(data)
    ensures var c := Get(data, "customer");
      var ext, area, number := Get(c, "phone_extension"), Get(c, "phone_area_code"), Get(c, "phone_number");
      && (!(AddsNumerically(ext) && AddsNumerically(area)) ==>
            ConcatenatedPhone(data) == Str(PartText(ext) + PartText(area) + PartText(number)))
      && (AddsNumerically(ext) && AddsNumerically(area) && !AddsNumerically(number) ==>
            ConcatenatedPhone(data) == Str(ToStr(Num(ToNumber(ext) + ToNumber(area))) + PartText(number)))
      && (AddsNumerically(ext) && AddsNumerically(area) && AddsNumerically(number) ==>
            ConcatenatedPhone(data) == Num(ToNumber(ext) + ToNumber(area) + ToNumber(number)))
  {
    var c := Get(data, "customer");
    var ext, area, number := Get(c, "phone_extension"), Get(c, "phone_area_code"), Get(c, "phone_number");
    var e, a, n := OrEmpty(ext), OrEmpty(area), OrEmpty(number);
    if !(AddsNumerically(ext) && AddsNumerically(area)) {
      assert e.Str? || e.Arr? || e.Obj? || a.Str? || a.Arr? || a.Obj?;
      assert Plus(e, a) == Str(ToStr(e) + ToStr(a));
    }
  }

  /** Parts sent as strings (or left out) are run together as they are: an
      absent extension, the area code "11" and the number "987654321" give
      "11987654321". */
  lemma StringParts(data: Value, ext: string, area: string, number: string)
    requires TextParts(data, ext, area, number)
    ensures ConcatenatedPhone(data) == Str(ext + area + number)
  {
  }

  /** Parts sent as JSON numbers are added, not appended: extension 55 and
      area code 11 contribute "66" ahead of the number's digits. */
  lemma NumericPartsAdded(data: Value, ext: nat, area: nat, number: string)
    requires var c := Get(data, "customer");
      Get(c, "phone_extension") == Num(ext) && Get(c, "phone_area_code") == Num(area)
      && PartIs(Get(c, "phone_number"), number)
    requires ext > 0 && area > 0
    ensures ConcatenatedPhone(data) == Str(Decimal(ext + area) + number)
  {
    NumericSum(data, ext, area, number);
    NumberThenText(ext + area, number);
  }

  lemma NumericSum(data: Value, ext: nat, area: nat, number: string)
    requires var c := Get(data, "customer");
      Get(c, "phone_extension") == Num(ext) && Get(c, "phone_area_code") == Num(area)
      && PartIs(Get(c, "phone_number"), number)
    requires ext > 0 && area > 0
    ensures ConcatenatedPhone(data) == Plus(Num(ext + area), Str(number))
  {
  }

  /** Parts all sent as JSON numbers are added into one number. */
  lemma AllPartsAdded(data: Value, ext: nat, area: nat, number: nat)
    requires var c := Get(data, "customer");
      && Get(c, "phone_extension") == Num(ext) && Get(c, "phone_area_code") == Num(area)
      && Get(c, "phone_number") == Num(number)
    requires ext > 0 && area > 0 && number > 0
    ensures ConcatenatedPhone(data) == Num(ext + area + number)
  {
  }

  /** Extension 55, area code 11 and number 987654321, all sent as JSON
      numbers, add up to 987654387: a nine-digit key, too short for the gate,
      so the sale is never recorded. */
  lemma NumericPartsRecordNothing(data: Value, storeConnected: bool)
    requires var c := Get(data, "customer");
      && Get(c, "phone_extension") == Num(55) && Get(c, "phone_area_code") == Num(11)
      && Get(c, "phone_number") == Num(987654321)
    ensures CustomerPhone(data) == Some("987654387")
    ensures RecordedPurchase(data, storeConnected).None?
  {
    NumericRawPhone(data);
    NumericInput(987654387);
    SumDigits();
    LeavesUnrecognised("987654387");
    assert NormalizePhone(Num(987654387)) == "987654387";
  }

  lemma NumericRawPhone(data: Value)
    requires var c := Get(data, "customer");
      && Get(c, "phone_extension") == Num(55) && Get(c, "phone_area_code") == Num(11)
      && Get(c, "phone_number") == Num(987654321)
    ensures !PhoneThrows(data) && RawCustomerPhone(data) == Num(987654387)
  {
    AllPartsAdded(data, 55, 11, 987654321);
    RawPhoneChoice(data);
  }

  lemma SumDigits()
    ensures Decimal(987654387) == "987654387"
  {
    assert Decimal(98) == "98";
    assert Decimal(98765) == "98765";
  }

  /** A number followed by text is written out in decimal. */
  lemma NumberThenText(n: nat, s: string)
    ensures Plus(Num(n), Str(s)) == Str(Decimal(n) + s)
  {
  }

  /** `phoneOptions.concatenated || phoneOptions.direct_phone ||
      phoneOptions.root_phone` (index.js:312-323). */
  function RawCustomerPhone(data: Value): Value
    requires !ConcatenationThrows(data)
  {
    Or(Or(ConcatenatedPhone(data), Get(Get(data, "customer"), "phone")), Get(data, "phone"))
  }

  /** The concatenation wins whenever it is non-empty (or a non-zero sum);
      otherwise `customer.phone` when it is truthy; otherwise the root
      `phone`, whatever it is. */
  lemma RawPhoneChoice(data: Value)
    requires !ConcatenationThrows(data)
    ensures Truthy(ConcatenatedPhone(data)) ==> RawCustomerPhone(data) == ConcatenatedPhone(data)
    ensures !Truthy(ConcatenatedPhone(data)) && Truthy(Get(Get(data, "customer"), "phone")) ==>
      RawCustomerPhone(data) == Get(Get(data, "customer"), "phone")
    ensures !Truthy(ConcatenatedPhone(data)) && !Truthy(Get(Get(data, "customer"), "phone")) ==>
      RawCustomerPhone(data) == Get(data, "phone")
    ensures Truthy(RawCustomerPhone(data)) <==>
      Truthy(ConcatenatedPhone(data)) || Truthy(Get(Get(data, "customer"), "phone")) || Truthy(Get(data, "phone"))
  {
  }

  /** A customer without extension, area code or number falls back to the
      other two fields. */
  lemma NoPartsFallsBack(data: Value)
    requires var c := Get(data, "customer");
      !Truthy(Get(c, "phone_extension")) && !Truthy(Get(c, "phone_area_code")) && !Truthy(Get(c, "phone_number"))
    ensures RawCustomerPhone(data) == Or(Get(Get(data, "customer"), "phone"), Get(data, "phone"))
  {
    ConcatenationOfParts(data);
  }

  /** Computing the customer's key throws (index.js:313-324): the
      concatenation throws, or the chosen raw phone is an object with its own
      `toString` field or an array holding one, which `normalizePhone` (a
      truthy value, so it reaches `toString()`) cannot convert. */
  predicate PhoneThrows(data: Value) {
    ConcatenationThrows(data) || ToStrThrows(RawCustomerPhone(data))
  }

  /** `normalizePhone(rawCustomerPhone)` (index.js:324), or None when
      computing it throws. */
  function CustomerPhone(data: Value): (r: Option<string>)
    ensures r.None? <==> PhoneThrows(data)
    ensures r.Some? ==> AllDigits(r.value)
    ensures r.Some? ==>
      (r.value == "" <==> !Truthy(RawCustomerPhone(data)) || DigitsOnly(ToStr(RawCustomerPhone(data))) == "")
  {
    if PhoneThrows(data) then None
    else
      EmptyKey(RawCustomerPhone(data));
      Some(NormalizePhone(RawCustomerPhone(data)))
  }

  /** A sale stored under a phone key, with the status it was stored for. */
  datatype Purchase = Purchase(phone: string, status: string)

  /** `data.sale_status_enum_key` */
  function Status(data: Value): Value {
    Get(data, "sale_status_enum_key")
  }

  /** `data.code` */
  function OrderCode(data: Value): Value {
    Get(data, "code")
  }

  /** The log text built after the key and before the gate,
      `'Webhook - Pedido: ' + orderCode + ' | Status: ' + status + ...`
      (index.js:331, and `orderCode` again at 338 and 370), throws a TypeError:
      the order code or the status is an object with its own `toString` field
      or an array holding one. */
  predicate LogTextThrows(data: Value) {
    ToStrThrows(OrderCode(data)) || ToStrThrows(Status(data))
  }

  /** The sale record the handler writes (index.js:313-388): for an approved
      or pending sale, only when nothing before the gate throws, the
      normalised phone is non-empty and has at least ten digits and the store
      is connected. */
  function RecordedPurchase(data: Value, storeConnected: bool): (r: Option<Purchase>)
    ensures r.Some? <==>
      !PhoneThrows(data) && !LogTextThrows(data) && (Status(data) == Str("approved") || Status(data) == Str("pending"))
      && |CustomerPhone(data).value| >= 10 && storeConnected
    ensures r.Some? ==> r.value.phone == CustomerPhone(data).value && Status(data) == Str(r.value.status)
  {
    match CustomerPhone(data)
    case None => None
    case Some(phone) =>
      if LogTextThrows(data) then None else
      var status := Status(data);
      if status == Str("approved") || status == Str("pending") then
        if phone != "" && |phone| >= 10 && storeConnected then Some(Purchase(phone, status.s)) else None
      else None
  }

  /** A customer part that is an object with its own `toString` field makes
      the handler throw before it reaches the gate, so nothing is recorded
      whatever the status and the other fields: `{"toString": 1}` as the
      extension with area code "11" and number "987654321" records nothing. */
  lemma ToStringFieldRecordsNothing(data: Value, storeConnected: bool)
    requires var part := Get(Get(data, "customer"), "phone_extension");
      part.Obj? && "toString" in part.fields
    ensures CustomerPhone(data).None?
    ensures RecordedPurchase(data, storeConnected).None?
  {
  }

  /** An order code that is an object with its own `toString` field makes
      the log text throw before the gate, so nothing is recorded even for an
      approved sale with a valid phone. */
  lemma ToStringCodeRecordsNothing(data: Value, storeConnected: bool)
    requires OrderCode(data).Obj? && "toString" in OrderCode(data).fields
    ensures LogTextThrows(data)
    ensures RecordedPurchase(data, storeConnected).None?
  {
  }

  /** The ten-digit gate judged on the raw field: a sale is recorded exactly
      when nothing throws before it and the chosen raw phone is truthy and
      carries at least ten digits;
      the recorded key is already normalised, so normalising it again (as the
      WhatsApp handler does with the sender's phone) finds it unchanged. */
  lemma PurchaseGate(data: Value, storeConnected: bool)
    ensures RecordedPurchase(data, storeConnected).Some? <==>
      !PhoneThrows(data) && !LogTextThrows(data) && (Status(data) == Str("approved") || Status(data) == Str("pending"))
      && storeConnected
      && Truthy(RawCustomerPhone(data)) && |DigitsOnly(ToStr(RawCustomerPhone(data)))| >= 10
    ensures RecordedPurchase(data, storeConnected).Some? ==>
      var key := RecordedPurchase(data, storeConnected).value.phone;
      NormalizePhone(Str(key)) == key
  {
    if !PhoneThrows(data) {
      TenDigitsPreserved(RawCustomerPhone(data));
      NormalizeIdempotent(RawCustomerPhone(data));
    }
  }

  /** An event whose parts are all digits is keyed by the normalised
      digits of extension, area code and number run together. */
  lemma CheckoutDigits(data: Value, ext: string, ddd: string, number: string)
    requires TextParts(data, ext, ddd, number)
    requires ddd != "" && AllDigits(ext + ddd + number)
    ensures CustomerPhone(data) == Some(NormalizeDigits(ext + ddd + number))
  {
    StringParts(data, ext, ddd, number);
  }

  /** Without an extension, a mobile line (with its 9) after a listed area
      code is keyed "55" + area code + "9" + line: the area code "11" and the
      number "987654321" give "5511987654321". */
  lemma MobileWithoutExtension(data: Value, ddd: string, line: string)
    requires IsDdd(ddd) && |line| == 8 && AllDigits(line)
    requires TextParts(data, "", ddd, "9" + line)
    ensures CustomerPhone(data) == Some("55" + ddd + "9" + line)
  {
    DddShape(ddd);
    var eleven := ddd + ("9" + line);
    assert "" + ddd + ("9" + line) == eleven;
    AllDigitsConcat(ddd, "9" + line);
    assert eleven[..2] == ddd;
    CheckoutDigits(data, "", ddd, "9" + line);
    AddsCountryCode(eleven);
    assert "55" + eleven == "55" + ddd + "9" + line;
  }

  /** Without an extension, an old eight-digit line gets the mobile 9 and
      the same key. */
  lemma OldLineWithoutExtension(data: Value, ddd: string, line: string)
    requires IsDdd(ddd) && |line| == 8 && AllDigits(line)
    requires TextParts(data, "", ddd, line)
    ensures CustomerPhone(data) == Some("55" + ddd + "9" + line)
  {
    DddShape(ddd);
    SameSubscriberSameKey(ddd, line);
    assert "" + ddd + line == ddd + line;
    AllDigitsConcat(ddd, line);
    CheckoutDigits(data, "", ddd, line);
  }

  /** With the extension "55", a mobile line is already canonical. */
  lemma MobileWithExtension(data: Value, ddd: string, line: string)
    requires IsDdd(ddd) && |line| == 8 && AllDigits(line)
    requires TextParts(data, "55", ddd, "9" + line)
    ensures CustomerPhone(data) == Some("55" + ddd + "9" + line)
  {
    CanonicalMobile(ddd, line);
    CheckoutDigits(data, "55", ddd, "9" + line);
  }

  lemma CanonicalMobile(ddd: string, line: string)
    requires IsDdd(ddd) && |line| == 8 && AllDigits(line)
    ensures AllDigits("55" + ddd + ("9" + line))
    ensures NormalizeDigits("55" + ddd + ("9" + line)) == "55" + ddd + "9" + line
  {
    DddShape(ddd);
    var key := "55" + ddd + ("9" + line);
    AllDigitsConcat("55", ddd);
    AllDigitsConcat("55" + ddd, "9" + line);
    assert key[..2] == "55";
    KeepsCanonical(key);
    assert key == "55" + ddd + "9" + line;
  }

  /** With the extension "55", an old eight-digit line gives twelve digits,
      which no rule rewrites: the mobile 9 is never inserted, so the key
      differs from the one the same line gets in every other form. */
  lemma OldLineWithExtension(data: Value, ddd: string, line: string)
    requires IsDdd(ddd) && |line| == 8 && AllDigits(line)
    requires TextParts(data, "55", ddd, line)
    ensures CustomerPhone(data) == Some("55" + ddd + line)
    ensures CustomerPhone(data) != Some("55" + ddd + "9" + line)
  {
    DddShape(ddd);
    var twelve := "55" + ddd + line;
    AllDigitsConcat("55", ddd);
    AllDigitsConcat("55" + ddd, line);
    CheckoutDigits(data, "55", ddd, line);
    assert twelve[..2] == "55" && |twelve| == 12;
    LeavesUnrecognised(twelve);
  }

  /** `@s.whatsapp.net` carries no digits. */
  lemma WhatsAppSuffixHasNoDigits()
    ensures DigitsOnly(WhatsAppSuffix) == ""
  {
    DigitsOnlyNoDigits(WhatsAppSuffix);
  }

  /** The WhatsApp sender address of a canonical number is keyed by that
      number. */
  lemma WhatsAppKey(key: string)
    requires IsCanonical(key)
    ensures NormalizePhone(Str(StripSuffixes(key + WhatsAppSuffix))) == key
  {
    WhatsAppSuffixHasNoDigits();
    DigitsOnlyConcat(key, WhatsAppSuffix);
    KeyFromDigits(key + WhatsAppSuffix, key);
    SuffixesDoNotMatter(key + WhatsAppSuffix);
  }

  /** A buyer who later writes from WhatsApp is found under the key the sale
      was recorded with: the sender address "55" + area code + "9" + line +
      "@s.whatsapp.net" normalises to the customer's key whenever the
      checkout reported the line in a form that gets the mobile 9. */
  lemma CheckoutMatchesWhatsApp(data: Value, ddd: string, line: string)
    requires IsDdd(ddd) && |line| == 8 && AllDigits(line)
    requires || TextParts(data, "", ddd, "9" + line) || TextParts(data, "", ddd, line)
             || TextParts(data, "55", ddd, "9" + line)
    ensures Some(NormalizePhone(Str(StripSuffixes("55" + ddd + "9" + line + WhatsAppSuffix)))) == CustomerPhone(data)
  {
    SameSubscriberSameKey(ddd, line);
    WhatsAppKey("55" + ddd + "9" + line);
    if TextParts(data, "", ddd, "9" + line) {
      MobileWithoutExtension(data, ddd, line);
    } else if TextParts(data, "", ddd, line) {
      OldLineWithoutExtension(data, ddd, line);
    } else {
      MobileWithExtension(data, ddd, line);
    }
  }
}
