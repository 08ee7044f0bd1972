# Lead-tracking webhook relay: phone keys and message extraction

The relay (`index.js`) receives two kinds of webhook. A Perfect Pay payment
event names a customer and a sale status. A WhatsApp event carries a message
from a lead. Both handlers reduce whatever phone field they find to one key
with `normalizePhone`. The purchase recorded by the first handler can then be
found again by the second. This model covers that key logic:

- `phone.dfy`, module `PhoneNormalizer`: `normalizePhone` (index.js:35-103).
  It covers the falsy check, `toString()`, removal of every non-digit, the
  list of Brazilian area codes (DDD) copied code by code, and the four
  ordered rewriting rules, where the first rule that applies wins:
  - a miscoded country code 57 becomes 55;
  - a thirteen-digit number starting with 55 is kept as it is;
  - an eleven-digit number gets 55 in front;
  - a ten-digit number gets the mobile 9 and 55.

  Any other digit string is returned unchanged.
- `whatsapp.dfy`, module `WhatsAppExtraction`: the two first-match searches of
  the WhatsApp handler (index.js:146-197). The sender phone is the first
  candidate that is a string containing `@`, with its suffixes removed. The
  message is the first string candidate that is not blank, trimmed. Each
  search is a recursive specification function plus the handler's loop as
  a method, and the method is proved to return what the function does.
- `perfect_pay.dfy`, module `PerfectPayPhone`: the Perfect Pay raw phone
  (index.js:313-324). It is the concatenated extension, area code and number,
  else `customer.phone`, else the root `phone`. The module also covers the
  ten-digit gate under which a sale is recorded (index.js:346, 373).
- `js.dfy`, module `Js`: the JavaScript values a JSON body parses into, and
  the built-ins the code above applies to them. These are truthiness,
  `String()`/`toString()`, `||`, binary `+`, optional property reads, `?.[0]`,
  `includes`, `replace` with a string pattern, and `trim()`.

Notable consequences of the code as written, each proved:

- The zero-drop inside the 57 rule (index.js:66-68) can never fire. That
  branch needs a `0` right after the 57, but no listed area code starts with
  `0` (`DddShape`). So the 57 rule always returns `"55"` followed by
  everything after the `57`.
- A twelve-digit number starting with 55 is not rewritten. A checkout that
  sends the extension "55" with an eight-digit line therefore keeps a key
  without the mobile 9 (`OldLineWithExtension`).
- JavaScript's `+` adds the extension and area code as numbers when both
  arrive as non-zero JSON numbers. When the number is text, the sum's digits
  then start the raw phone (`NumericPartsAdded`). When the number is a JSON
  number too, all three are added into one number (`AllPartsAdded`): 55, 11
  and 987654321 give 987654387, a nine-digit key, so the sale is never
  recorded (`NumericPartsRecordNothing`).
- A customer part that is an object with its own `toString` field (or an
  array holding one) makes `+` throw a TypeError, and so does such an object
  chosen as the raw phone when `normalizePhone` calls `toString()`. The
  handler's `catch` (index.js:449-452) then records nothing
  (`ToStringFieldRecordsNothing`). The same holds for an order code or status
  of that kind: the log text built from them at index.js:331, before the
  gate, throws (`ToStringCodeRecordsNothing`).
- The PIX expiry timer (index.js:409-424) stores no handle. An approval
  therefore does not cancel a pending expiry, and nothing here models "one
  timer per order".

## Model

| member | source | states |
|---|---|---|
| Js.Or | index.js:323 | the short-circuit "or" of `a` and `b` is `a` when `a` is truthy and `b` otherwise; it is truthy exactly when one operand is |
| Js.Truthy | index.js:36 | as a definition: `undefined`, `null`, `false`, `0` and `''` are falsy and every other value is truthy, the test behind index.js:36, 161, 181, 196, 323 and 346 |
| Js.Get | index.js:151-158 | `v?.name` is the object's field when present and `undefined` for a missing field or any base that is not an object |
| Js.First | index.js:153 | as a definition: `v?.[0]` (index.js:153 and 173-174) is the first element of an array, the first character of a string, the field "0" of an object and `undefined` otherwise |
| Js.Plus | index.js:313-315 | `+` concatenates the operands' text as soon as one of them is a string, array or object; otherwise it is the numeric sum of the operands; it is not defined for an operand whose conversion throws |
| Js.ToStrThrows | index.js:313-316 | as a definition: converting the value to text throws a TypeError, because it is an object with its own `toString` field or an array holding one at any depth |
| Js.ToStr | index.js:38 | as a definition: the text `toString()` and `+` give a JSON value (index.js:38 and 314-316): decimal digits for a number, `[object Object]` for an object, the elements joined by commas for an array |
| Js.ToPrimitive | index.js:313-315 | an object or array operand of `+` becomes the string of its text; any other value comes back unchanged |
| Js.IndexOf | index.js:161 | the result is the first index at which the pattern occurs, and None exactly when it occurs nowhere |
| Js.Includes | index.js:161 | as a definition: `s.includes(p)` holds exactly when `IndexOf` finds an occurrence |
| Js.Decimal | index.js:38 | `toString()` of a whole number is decimal digits whose value is the number, with no leading zero |
| Js.RemoveFirst | index.js:162 | `replace` with a string pattern cuts out only the first occurrence, and leaves the text unchanged when there is none |
| Js.TrimStart | index.js:181-182 | the result is a suffix, everything removed is white space, and it does not start with white space |
| Js.TrimEnd | index.js:181-182 | the result is a prefix, everything removed is white space, and it does not end with white space |
| Js.Trim | index.js:181-182 | as a definition: `trim()` removes leading then trailing white space; `TrimSpec` states what that gives |
| Js.TrimCut | index.js:181-182 | `trim()` returns a slice of its input with only white space cut off on either side |
| Js.TrimSpec | index.js:181-182 | `trim()` cuts the string at two points with only white space outside them; the result neither starts nor ends with white space; it is empty exactly when the string is all white space |
| PhoneNormalizer.DigitsOnly | index.js:38 | only decimal digits remain, never more characters than the input had, and a digit string is kept whole |
| PhoneNormalizer.DigitsOnlyConcat | index.js:38 | the digits of a concatenation are the digits of each piece, in order |
| PhoneNormalizer.DddShape | index.js:45-57 | every listed area code is two digits and none starts with `0` |
| PhoneNormalizer.IsDddCode | index.js:45-57 | as a definition: the listed area codes, code by code |
| PhoneNormalizer.IsDdd | index.js:62 | as a definition: `ddds_brasileiros.includes(s)` (index.js:62, 84, 93) holds exactly for a two-digit string whose value is a listed code |
| PhoneNormalizer.ListedCodes | index.js:45-57 | 11, 55 and 99 are listed; 20, 23, 25, 26, 29, 36, 39, 52, 57, 72, 76 and 78 are not |
| PhoneNormalizer.NormalizeDigits | index.js:59-102 | no digit string is shortened, digits stay digits, and any rewrite yields a number of twelve or more digits starting with 55 |
| PhoneNormalizer.NormalizePhone | index.js:35-38 | a falsy input gives `''`; any other input gives only digits, at least as many as its text had; an input whose `toString()` throws is outside it |
| PhoneNormalizer.CorrectsMiscodedCountryCode | index.js:59-74 | 57 + listed DDD with twelve or more digits gives "55" + the digits after 57, same length, canonical when thirteen digits |
| PhoneNormalizer.KeepsCanonical | index.js:77-80 | a thirteen-digit number starting with 55 is returned unchanged |
| PhoneNormalizer.AddsCountryCode | index.js:82-89 | eleven digits starting with a listed DDD give "55" + the digits, a canonical number |
| PhoneNormalizer.InsertsMobileNine | index.js:91-99 | ten digits starting with a listed DDD give "55" + DDD + "9" + the last eight digits, a canonical number |
| PhoneNormalizer.LeavesUnrecognised | index.js:101-102 | when no rule applies the digits come back unchanged: fewer than ten digits, eleven with an unlisted DDD, twelve without 57 + DDD |
| PhoneNormalizer.FixedPoints | index.js:59-102 | a digit string is returned unchanged exactly when it is canonical or no rule applies to it |
| PhoneNormalizer.NormalizeDigitsIdempotent | index.js:59-102 | applying the rules to their own output changes nothing |
| PhoneNormalizer.NormalizeIdempotent | index.js:35-103 | `normalizePhone(normalizePhone(x)) == normalizePhone(x)` for every input |
| PhoneNormalizer.TenDigitsPreserved | index.js:35-103 | the key has at least ten digits exactly when the input is truthy and its text has at least ten digits |
| PhoneNormalizer.EmptyKey | index.js:36-38 | the key is empty exactly when the input is falsy or its text has no digit |
| PhoneNormalizer.SameDigitsSameKey | index.js:35-103 | two texts with the same digits get the same key |
| PhoneNormalizer.KeyFromDigits | index.js:38-80 | a text whose digits are a canonical number is keyed by that number |
| PhoneNormalizer.SameSubscriberSameKey | index.js:59-99 | the same DDD and line reach the same canonical key with 55 and the 9, without 55, without the 9, or behind 57 |
| PhoneNormalizer.DigitsOnlyStep | index.js:38 | punctuation before a run of digits is dropped and the digits are kept in order |
| PhoneNormalizer.InternationalFormatDigits | index.js:38 | the digits of "+55 (DDD) 9XXXX-XXXX" are 55, the DDD, 9 and the eight digits |
| PhoneNormalizer.LocalFormatDigits | index.js:38 | the digits of "(DDD) XXXX-XXXX" are the DDD and the eight digits |
| PhoneNormalizer.FormattedNumber | index.js:38-80 | "+55 (DDD) 9XXXX-XXXX" gives the bare thirteen-digit key |
| PhoneNormalizer.FormattedOldLine | index.js:38-99 | "(DDD) XXXX-XXXX" gives "55" + DDD + "9" + the eight digits |
| PhoneNormalizer.NumericInput | index.js:36-38 | a phone sent as a JSON number is keyed by its decimal digits, and a minus sign is ignored |
| WhatsAppExtraction.StripSuffixes | index.js:162 | removing the WhatsApp suffixes never lengthens the text and never changes its digits |
| WhatsAppExtraction.RemoveFirstKeepsDigits | index.js:162 | cutting out one occurrence of a text without digits leaves the digits unchanged |
| WhatsAppExtraction.PhoneAttempts | index.js:150-158 | the seven reads of index.js:151-157 in order, as a definition |
| WhatsAppExtraction.IsPhoneCandidate | index.js:161 | as a definition: a truthy string that contains `@` |
| WhatsAppExtraction.FirstPhone | index.js:160-167 | as a definition: the first qualifying candidate with its suffixes removed, None when there is none; `FirstPhoneFound` and `FirstPhoneNone` state its meaning |
| WhatsAppExtraction.FirstPhoneFound | index.js:160-167 | when candidate i is the first string containing `@`, the phone is that candidate with its suffixes removed |
| WhatsAppExtraction.FirstPhoneNone | index.js:160-167 | the phone stays null exactly when no candidate is a string containing `@` |
| WhatsAppExtraction.FirstPhoneIgnoresLater | index.js:160-167 | after a match, candidates added later never change the phone |
| WhatsAppExtraction.FindPhone | index.js:160-167 | the loop with `break` returns exactly the first-match phone |
| WhatsAppExtraction.MessageAttempts | index.js:170-178 | the seven reads of index.js:171-177 in order, as a definition |
| WhatsAppExtraction.IsMessageCandidate | index.js:181 | as a definition: a truthy string that is not blank after `trim()` |
| WhatsAppExtraction.FirstMessage | index.js:180-187 | as a definition: the first qualifying candidate trimmed, None when there is none; `FirstMessageFound` and `FirstMessageNone` state its meaning |
| WhatsAppExtraction.FirstMessageFound | index.js:180-187 | when candidate i is the first string that is not blank, the message is that candidate trimmed |
| WhatsAppExtraction.FirstMessageNone | index.js:180-187 | the message stays null exactly when every candidate is missing, not a string, or blank |
| WhatsAppExtraction.FirstMessageTrimmed | index.js:180-187 | a found message is non-empty and neither starts nor ends with white space |
| WhatsAppExtraction.FindMessage | index.js:180-187 | the loop with `break` returns exactly the first-match message |
| WhatsAppExtraction.ReplyOf | index.js:196-197 | a reply is handled exactly when a non-empty phone and a message were found; it is keyed by the phone's normalised digits and carries the found message, which is non-empty |
| WhatsAppExtraction.ReplyOfFound | index.js:196-197 | once both searches succeed, an empty phone gives no reply and any other phone a reply keyed by its normalised digits |
| WhatsAppExtraction.ExtractReply | index.js:146-197 | the handler's two loops and its `phone && message` test give the specified phone, message and reply |
| WhatsAppExtraction.SuffixesDoNotMatter | index.js:162 | the key of the stripped phone equals the key of the raw field |
| WhatsAppExtraction.JidAndConversation | index.js:150-197 | `key.remoteJid` plus `message.conversation` gives a reply keyed by the address's digits with the trimmed text, unless stripping empties the address |
| PerfectPayPhone.OrEmpty | index.js:313-315 | a part defaulted to the empty string is never undefined: a truthy part is kept, a falsy one becomes `''` |
| PerfectPayPhone.ConcatenationThrows | index.js:313-316 | as a definition: one of the three parts, once defaulted to `''`, cannot be converted to text, so the `+` throws |
| PerfectPayPhone.ConcatenatedPhone | index.js:313-316 | as a definition: extension, area code and number, each defaulted to `''`, joined by the left-associative `+`; `ConcatenationOfParts` states every case |
| PerfectPayPhone.ConcatenationOfParts | index.js:313-315 | the concatenation is the parts' text run together, unless extension and area code are both numbers: then their sum's digits precede a text number, and a numeric number is added to the sum too |
| PerfectPayPhone.StringParts | index.js:313-315 | string parts are run together in the order extension, area code, number |
| PerfectPayPhone.NumericPartsAdded | index.js:313-315 | numeric extension and area code are added, and the sum's decimal digits precede the number |
| PerfectPayPhone.AllPartsAdded | index.js:313-315 | extension, area code and number all sent as non-zero JSON numbers are added into one number |
| PerfectPayPhone.NumericPartsRecordNothing | index.js:313-383 | the numbers 55, 11 and 987654321 give the nine-digit key 987654387, and no sale is recorded |
| PerfectPayPhone.RawPhoneChoice | index.js:312-323 | a truthy concatenation wins; otherwise a truthy `customer.phone`; otherwise the root `phone` |
| PerfectPayPhone.NoPartsFallsBack | index.js:313-323 | with no extension, area code or number the choice falls to `customer.phone`, then the root `phone` |
| PerfectPayPhone.RawCustomerPhone | index.js:323 | as a definition: the concatenation, else `customer.phone`, else the root `phone`, by short-circuit "or"; `RawPhoneChoice` states every case |
| PerfectPayPhone.PhoneThrows | index.js:313-324 | as a definition: the concatenation throws, or the chosen raw phone cannot be converted by the `toString()` inside `normalizePhone` |
| PerfectPayPhone.CustomerPhone | index.js:313-324 | there is no key exactly when building the raw phone or calling `toString()` on it throws; otherwise the key is made of digits, and is empty exactly when the chosen raw phone is falsy or has no digit |
| PerfectPayPhone.LogTextThrows | index.js:331 | as a definition: the log text built from the order code and the status before the gate throws, because one of them cannot be converted to text |
| PerfectPayPhone.RecordedPurchase | index.js:313-383 | a sale is recorded exactly when neither computing the key nor building the log text from the order code and status throws, the status is approved or pending, the key has ten or more digits and the store is connected; it is stored under that key with that status |
| PerfectPayPhone.ToStringFieldRecordsNothing | index.js:313-324 | an extension that is an object with its own `toString` field leaves no key and no recorded sale, whatever the other fields |
| PerfectPayPhone.ToStringCodeRecordsNothing | index.js:331-346 | an order code that is an object with its own `toString` field makes the log text throw, so no sale is recorded whatever the phone and status |
| PerfectPayPhone.PurchaseGate | index.js:331-346 | the ten-digit gate holds exactly when neither the key nor the log text throws and the raw phone is truthy with ten or more digits, and the recorded key is already normalised |
| PerfectPayPhone.CheckoutDigits | index.js:313-324 | digit-only fields are keyed by the rules applied to extension + area code + number |
| PerfectPayPhone.MobileWithoutExtension | index.js:313-324 | no extension, a listed area code and "9" + line give "55" + DDD + "9" + line (area "11", number "987654321" give "5511987654321") |
| PerfectPayPhone.OldLineWithoutExtension | index.js:313-324 | no extension, a listed area code and an eight-digit line give the same key with the 9 inserted |
| PerfectPayPhone.MobileWithExtension | index.js:313-324 | extension "55", a listed area code and "9" + line give the canonical key |
| PerfectPayPhone.OldLineWithExtension | index.js:313-324 | extension "55" with an eight-digit line gives twelve digits no rule rewrites, so the key lacks the 9 and differs from the other forms |
| PerfectPayPhone.WhatsAppKey | index.js:160-197 | the WhatsApp address of a canonical number is keyed by that number |
| PerfectPayPhone.CheckoutMatchesWhatsApp | index.js:313-324 | the key of a recorded sale equals the key of a later WhatsApp message from the same line, in every checkout form that gets the 9 |

## Left out

- Express routing, HTTP status codes and response bodies, the dashboard page and its script: these are transport and UI.
- `sendToN8N` and every `axios.post` call: these are network I/O.
- Every `redis.*` call is out: the anti-loop duplicate check, the pending-PIX, lead-purchase and lead-response records, and system logs. `redis-manager` is not part of this model. Whether the store is connected is a parameter of `RecordedPurchase`.
- The WhatsApp handler's duplicate key `'wh_dup_' + requestId` (index.js:128-129) is out with the store check it feeds. It is built whether or not the store is connected, and it throws a TypeError when `key.id` is an object with its own `toString` field or an array holding one; the handler then answers 500 and handles no reply. `WhatsAppExtraction.ReplyOf` does not model that throw.
- The PIX `setTimeout` and what it sends when it fires are out: this is timer behaviour. The handle is never stored, so approval cannot cancel it.
- `console.log`, `addLog`, `Date.now()`, signal handlers and server start-up: these are logging, clock and process I/O.
- Js.ToStr: gives a text for every value; for a value whose conversion throws (`ToStrThrows`) that text is never used, since `NormalizePhone`, `Plus` and `ToPrimitive` require the conversion not to throw.
- The 500 response the handler's `catch` sends is transport; the model only records that nothing is stored.
- JSON numbers are exact integers here. Fractions, exponent notation, `NaN` and precision beyond 2^53 are not modelled, and neither is `toString()` of such numbers.
- Strings are sequences of characters. UTF-16 surrogate pairs are not modelled, and they do not affect digits, `@` or white space.
- Js.Get: reads only own data properties. Prototype members such as `constructor` or `length` are not modelled, and none of the property names the handlers read is one of them.
- Js.Plus: requires operands that are not `undefined`, which would give `NaN`; the handlers only add values of the form `x || ''`, which are never `undefined`. It also requires operands whose conversion does not throw: the Perfect Pay model checks `ConcatenationThrows` first and then records nothing, as the handler's `catch` does.
- The root payload is any JSON value. The body parser gives an object or an array, and reading a property of either yields the field or `undefined`, which is what `Get` returns.
- WhatsAppExtraction.ReplyOf: stops at the decision to process the reply. What the handler then does with the key (lookups in the store, the outbound call) is store and network I/O.
