# Paystack payment wrapper — verified model

This project models the logic of a Spring Boot wrapper around the Paystack payment
gateway:

- **Environment selection.** `PaystackProperties` holds two credential bundles. A
  selector string chooses the live bundle when it equals "production" ignoring case,
  and the test bundle otherwise.
- **Gateway calls.** `PaystackService` builds four gateway calls:
  - initialize a transaction;
  - verify a transaction;
  - create a transfer recipient;
  - initiate a transfer.

  It fills in the request defaults, the `TXN_` reference, the amount in kobo (the
  naira's minor unit), the URL and the bearer header. It then classifies the
  gateway's reply. Every failure inside the call is re-wrapped into a
  `PaystackException`.
- **Webhook signatures.** The service checks a webhook signature by hex-encoding an
  HMAC-SHA512 and comparing the result to the received text.
- **Error responses.** `GlobalExceptionHandler` maps each exception kind to an HTTP
  status and a JSON error body.

The gateway's reply is an input to each operation: a response whose body may be null,
or a thrown exception. The 16 bytes drawn by `UUID.randomUUID()` are an input to the
reference generator. The HMAC function is a function-valued input.

Java's `null` is modelled with `Option`, and Java's `+` turns `null` into the text
"null". `byte` is the signed `Int8` newtype. `BigDecimal` is an unscaled integer with a
scale, and its exact value is a `real`.

Modules, one concern each:

- `Wrappers`: `Option` and `Result`.
- `JavaText`: nullable strings, case mapping, `equalsIgnoreCase`, bytes and UTF-8.
- `Hex`: `bytesToHex` and a decoder that inverts it.
- `PaystackProperties`.
- `Decimals`: the part of `BigDecimal` the service uses.
- `References`: `generateReference`.
- `Exceptions`.
- `PaystackService`: the four operations.
- `Webhook`.
- `ExceptionHandler`.
- `ServiceErrors`: how the controller's catch-all answers the service's failures, and why
  the handler never sees them.

Behaviour of the code worth knowing:

- **Amounts.** `convertToKobo` has no check on sign or zero. The amount it sends is the
  `BigDecimal` product, which keeps its scale (49.99 becomes 4999.00), not an integer.
- **Signature comparison.** The signature is compared with `String.equals`, not in
  constant time.
- **Null `data`.** `verifyTransaction` logs `getData().getStatus()` before returning.
  A non-null body with a null `data` therefore fails with a wrapped
  `NullPointerException` instead of being returned. `createTransferRecipient` does the
  same with `getData().getRecipientCode()` when the status is true.
- **Null `message`.** A rejected body with a null `message` gives the text "null", not
  "Unknown error". "Unknown error" appears only when the body itself is null.
- **Null dereferences outside the `try`.**
  - A null `amount` throws `NullPointerException` before the `try`. So does an unset
    active bundle, which fails when the URL is built.
  - These exceptions are not wrapped.
- **Gateway outages.** Every exception raised inside the `try` is re-wrapped into a
  `PaystackException`. This includes an upstream 5xx and an unreachable gateway.
- **Who answers a failure.** The five controller endpoints that call the four
  operations (initialize, verify, recipient, transfer and the payment callback) call
  them inside `catch (Exception e)` and answer 500 with "Failed to <x>: " and the
  exception's message. No exception from the four operations reaches `GlobalExceptionHandler`.
  An outage the handler alone would answer 503 reaches the client as 500, with the
  service's "Error <action>: " message nested inside the controller's.

## Model

| member | source | states |
|---|---|---|
| JavaText.ToUpperCase | src/main/java/com/payment/paystack/service/PaystackService.java:261 | `toUpperCase` keeps the length and upper-cases each character in place |
| JavaText.MatchesAsciiLetter | src/main/java/com/payment/paystack/config/PaystackProperties.java:27 | under Java's ignore-case rule, a lower-case ASCII letter matches exactly itself and its capital; for 'i' also 'ı' and 'İ', for 's' also 'ſ', for 'k' also the Kelvin sign |
| JavaText.Unsigned | src/main/java/com/payment/paystack/service/PaystackService.java:283 | a signed byte read as 0..255, congruent to the byte modulo 256 |
| JavaText.ByteOf | src/main/java/com/payment/paystack/service/PaystackService.java:283 | the byte whose unsigned reading is the given 0..255 value |
| JavaText.Utf8 | src/main/java/com/payment/paystack/service/PaystackService.java:272 | UTF-8 encoding takes one to four bytes per character, so the key bytes are empty exactly when the key is |
| Hex.HexDigit | src/main/java/com/payment/paystack/service/PaystackService.java:283 | every nibble becomes a character of 0-9, a-f |
| Hex.DigitValue | src/main/java/com/payment/paystack/service/PaystackService.java:283 | a character has a nibble value exactly when it is 0-9 or a-f, and that value spells the character back |
| Hex.HexOf | src/main/java/com/payment/paystack/service/PaystackService.java:280-286 | the hex text of n bytes has exactly 2·n characters |
| Hex.BytesToHex | src/main/java/com/payment/paystack/service/PaystackService.java:280-286 | the `StringBuilder` loop returns exactly HexOf of the bytes, 2·n characters |
| Hex.HexOfAt | src/main/java/com/payment/paystack/service/PaystackService.java:282-284 | characters 2i and 2i+1 are the high and low nibble of byte i, read unsigned |
| Hex.HexOfAlphabet | src/main/java/com/payment/paystack/service/PaystackService.java:283 | every output character is in 0-9 or a-f |
| Hex.HexOfConcat | src/main/java/com/payment/paystack/service/PaystackService.java:282-284 | the encoding of a concatenation is the concatenation of the encodings |
| Hex.ByteHexDecodes | src/main/java/com/payment/paystack/service/PaystackService.java:283 | the two digits `%02x` gives for a byte decode back to that byte |
| Hex.PairByteSound | src/main/java/com/payment/paystack/service/PaystackService.java:283 | any two digits that decode to a byte are that byte's `%02x` digits |
| Hex.HexOfSnoc | src/main/java/com/payment/paystack/service/PaystackService.java:282-284 | encoding one more byte appends its two digits |
| Hex.HexRoundTrip | src/main/java/com/payment/paystack/service/PaystackService.java:280-286 | decoding the encoder's output gives back the original bytes |
| Hex.HexDecodeSound | src/main/java/com/payment/paystack/service/PaystackService.java:280-286 | whatever the decoder accepts is the encoding of the bytes it returns |
| Hex.HexOfInjective | src/main/java/com/payment/paystack/service/PaystackService.java:280-286 | different byte arrays never give the same hex text |
| Hex.UpperCaseHexIsNoOutput | src/main/java/com/payment/paystack/service/PaystackService.java:283 | a string containing an upper-case hex letter is the output of no byte array |
| PaystackProperties.GetActiveConfig | src/main/java/com/payment/paystack/config/PaystackProperties.java:26-32 | returns the production bundle exactly when `isProduction()` holds and the test bundle otherwise, so the two methods agree |
| PaystackProperties.IsProduction | src/main/java/com/payment/paystack/config/PaystackProperties.java:30-32 | the selector equals "production" under Java's ignore-case rule: it is then non-null and ten characters long, and "production" itself qualifies; characterised exactly by IsProductionIffSpelled |
| PaystackProperties.IsProductionIffSpelled | src/main/java/com/payment/paystack/config/PaystackProperties.java:30-32 | `isProduction()` holds iff the selector is non-null, ten characters long, and each character is the letter of "production" in either case (plus 'ı' and 'İ' for the 'i') |
| PaystackProperties.NullSelectorIsTest | src/main/java/com/payment/paystack/config/PaystackProperties.java:26-32 | a null selector picks the test bundle, and `isProduction()` is false |
| PaystackProperties.CapitalisedSelectorIsProduction | src/main/java/com/payment/paystack/config/PaystackProperties.java:26-32 | "PRODUCTION" and "Production" pick the production bundle |
| PaystackProperties.NearMissSelectorIsTest | src/main/java/com/payment/paystack/config/PaystackProperties.java:26-32 | "prod", " production", "production ", "live" and "" pick the test bundle |
| PaystackProperties.DottedISelectorIsProduction | src/main/java/com/payment/paystack/config/PaystackProperties.java:30-32 | "PRODUCTİON", with the Turkish dotted capital I, counts as production under Java's case rule |
| Decimals.ScalePositive | src/main/java/com/payment/paystack/service/PaystackService.java:264-266 | the factor 10^(-scale) is positive for every scale |
| Decimals.NegativeScale | src/main/java/com/payment/paystack/service/PaystackService.java:264-266 | a negative scale -n multiplies by the whole number 10^n |
| Decimals.ScaleFactorAdd | src/main/java/com/payment/paystack/service/PaystackService.java:265 | the factors of two scales multiply to the factor of their sum |
| Decimals.ValueSign | src/main/java/com/payment/paystack/service/PaystackService.java:264-266 | a decimal is positive (zero) exactly when its unscaled value is |
| Decimals.ProductValue | src/main/java/com/payment/paystack/service/PaystackService.java:265 | multiplying the unscaled values and adding the scales gives the exact product of the values |
| Decimals.Multiply | src/main/java/com/payment/paystack/service/PaystackService.java:265 | `multiply` is the exact product of the values, and its scale is the sum of the scales |
| References.RandomUuid | src/main/java/com/payment/paystack/service/PaystackService.java:261 | `randomUUID` sets the version nibble of byte 6 to 4 and the variant bits of byte 8 to binary 10, keeping the low bits; the other 14 bytes are the random ones |
| References.UuidToString | src/main/java/com/payment/paystack/service/PaystackService.java:261 | the UUID text is 36 characters |
| References.RemoveDashes | src/main/java/com/payment/paystack/service/PaystackService.java:261 | `replace("-", "")` never lengthens the text |
| References.RemoveDashesConcat | src/main/java/com/payment/paystack/service/PaystackService.java:261 | removing dashes distributes over concatenation |
| References.DashFree | src/main/java/com/payment/paystack/service/PaystackService.java:261 | removing dashes leaves hex text unchanged |
| References.StrippedUuid | src/main/java/com/payment/paystack/service/PaystackService.java:261 | the UUID text without dashes is the hex of its 16 bytes |
| References.FirstSixteenDigits | src/main/java/com/payment/paystack/service/PaystackService.java:261 | `substring(0, 16)` of the dash-free text is the hex of the UUID's first 8 bytes |
| References.UpperHexOf | src/main/java/com/payment/paystack/service/PaystackService.java:261 | the upper-cased hex of n bytes has 2·n characters, all in 0-9 or A-F |
| References.VersionDigit | src/main/java/com/payment/paystack/service/PaystackService.java:261 | the version nibble appears as the digit '4' at index 12 of the sixteen digits |
| References.GenerateReference | src/main/java/com/payment/paystack/service/PaystackService.java:260-262 | the reference is "TXN_" plus the upper-cased hex of the UUID's first 8 bytes: 20 characters, the prefix, then 16 characters of 0-9 and A-F, with '4' at index 16 |
| References.UpperCaseHexInjective | src/main/java/com/payment/paystack/service/PaystackService.java:261 | upper-casing is one-to-one on lower-case hex text |
| References.ReferenceDeterminesUuidPrefix | src/main/java/com/payment/paystack/service/PaystackService.java:260-262 | equal references come from UUIDs with equal first 8 bytes |
| References.UuidPrefixBits | src/main/java/com/payment/paystack/service/PaystackService.java:261 | two draws give the same first 8 UUID bytes iff they agree on bytes 0-5, the low nibble of byte 6 and byte 7 |
| References.ReferenceEntropy | src/main/java/com/payment/paystack/service/PaystackService.java:260-262 | two draws give the same reference iff they agree on those 60 bits, both directions |
| PaystackService.ConvertToKobo | src/main/java/com/payment/paystack/service/PaystackService.java:264-266 | the result's value is exactly the amount times 100, and the scale is kept |
| PaystackService.CreateHeaders | src/main/java/com/payment/paystack/service/PaystackService.java:253-258 | content type `application/json`; authorization is "Bearer " followed by the active bundle's secret key, or "Bearer null" when the key is null |
| PaystackService.BuildInitializeCall | src/main/java/com/payment/paystack/service/PaystackService.java:46-71 | the call is built iff the amount is non-null and the active bundle is set, and otherwise it fails with a NullPointerException. A built call is a POST to the base URL + `/transaction/initialize` with the active headers. Its body holds the email, the kobo amount (the amount times 100, keeping its scale), the currency or "NGN", the reference generated in the same call, the configured callback URL, and the channels or ["mobile_money", "card", "bank"] |
| PaystackService.InitializeTransaction | src/main/java/com/payment/paystack/service/PaystackService.java:40-85 | NullPointerException before the call. Otherwise it succeeds iff the body is non-null with status true, and then returns that body. A thrown exception e becomes "Error initializing transaction: " + e's message. A rejected reply becomes that prefix + "Failed to initialize transaction: " + (message, or "Unknown error" for a null body) |
| PaystackService.BuildVerifyCall | src/main/java/com/payment/paystack/service/PaystackService.java:91-105 | the call is built iff the active bundle is set. It is a GET with no body to the base URL + `/transaction/verify/` + reference, with the active headers |
| PaystackService.VerifyTransaction | src/main/java/com/payment/paystack/service/PaystackService.java:90-120 | NullPointerException before the call. Otherwise it succeeds iff the body is non-null with non-null `data`, whatever its status, and returns that body. A null body fails with the wrapped "Failed to verify transaction: No response body". Null `data` fails with a wrapped NullPointerException |
| PaystackService.BuildRecipientCall | src/main/java/com/payment/paystack/service/PaystackService.java:132-154 | the call is built iff the active bundle is set. It is a POST to the base URL + `/transferrecipient` with the caller's fields and the currency or "NGN" |
| PaystackService.CreateTransferRecipient | src/main/java/com/payment/paystack/service/PaystackService.java:125-169 | NullPointerException before the call. Otherwise it succeeds iff the body is non-null with status true and non-null `data`. A rejection is wrapped as "Error creating transfer recipient: Failed to create recipient: …". Null `data` on success fails with a wrapped NullPointerException |
| PaystackService.BuildTransferCall | src/main/java/com/payment/paystack/service/PaystackService.java:180-205 | the call is built iff the amount is non-null and the active bundle is set. It is a POST to the base URL + `/transfer`. Its body holds source "balance", the kobo amount (the amount times 100, keeping its scale), the recipient, the reason, the currency or "NGN", and the reference generated in the same call |
| PaystackService.InitiateTransfer | src/main/java/com/payment/paystack/service/PaystackService.java:174-219 | NullPointerException before the call. Otherwise it succeeds iff the body is non-null with status true. Failures are wrapped with "Error initiating transfer: " and "Failed to initiate transfer: " |
| PaystackService.KoboKeepsSign | src/main/java/com/payment/paystack/service/PaystackService.java:264-266 | no sign or zero check: the kobo amount is positive (zero) exactly when the naira amount is |
| PaystackService.WholeKobo | src/main/java/com/payment/paystack/service/PaystackService.java:264-266 | an amount with at most two decimal places (scale ≤ 2) becomes exactly unscaled × 10^(2−scale) kobo |
| PaystackService.KoboExamples | src/main/java/com/payment/paystack/service/PaystackService.java:264-266 | 49.99 becomes 4999.00 (unscaled 499900, scale 2) and 100.00 becomes 10000 |
| PaystackService.Wrap | src/main/java/com/payment/paystack/service/PaystackService.java:81-84 | every catch block re-throws a PaystackException whose message is "Error " + action + ": " followed by the cause's message ("null" for a null one); the same wrapping at lines 116-119, 165-168 and 215-218 |
| PaystackService.Rejection | src/main/java/com/payment/paystack/service/PaystackService.java:77-78 | the exception thrown inside the `try` when the reply is not accepted: "Failed to " + goal + ": " followed by "Unknown error" for a null body and the body's message otherwise; the same at lines 161-162 and 211-212 |
| PaystackService.ClassifyOnStatus | src/main/java/com/payment/paystack/service/PaystackService.java:73-84 | success exactly when the body is non-null with status true, returning that body; a thrown exception or a rejection is wrapped; the same test at lines 156-168 and 207-218 |
| PaystackService.WrappedMessage | src/main/java/com/payment/paystack/service/PaystackService.java:81-84 | every wrapped failure is a PaystackException whose message starts with "Error " + action + ": " |
| PaystackService.InactiveBundleUnusedInitialize | src/main/java/com/payment/paystack/service/PaystackService.java:46-60 | replacing the inactive bundle changes nothing in the initialize call |
| PaystackService.InactiveBundleUnusedVerify | src/main/java/com/payment/paystack/service/PaystackService.java:91-95 | replacing the inactive bundle changes nothing in the verify call |
| PaystackService.InactiveBundleUnusedRecipient | src/main/java/com/payment/paystack/service/PaystackService.java:132-144 | replacing the inactive bundle changes nothing in the recipient call |
| PaystackService.InactiveBundleUnusedTransfer | src/main/java/com/payment/paystack/service/PaystackService.java:180-195 | replacing the inactive bundle changes nothing in the transfer call |
| PaystackService.TestCallsUseTestCredentials | src/main/java/com/payment/paystack/service/PaystackService.java:91-95 | outside production, the verify call carries the test bundle's base URL and "Bearer " + its secret key |
| Webhook.ComputeHmacSha512 | src/main/java/com/payment/paystack/service/PaystackService.java:268-278 | the result is ExpectedSignature:<br>• a null key → NullPointerException<br>• an empty key → "Empty key"<br>• null data → NullPointerException<br>• otherwise the lower-case hex of the MAC of the UTF-8 bytes, all of whose characters are 0-9 or a-f |
| Webhook.VerifyWebhookSignature | src/main/java/com/payment/paystack/service/PaystackService.java:224-235 | never throws: true iff hashing succeeds and the computed text equals the received signature exactly. True implies a non-empty secret and a non-null payload and signature |
| Webhook.GenuineSignatureAccepted | src/main/java/com/payment/paystack/service/PaystackService.java:224-230 | with a non-empty secret, the hex MAC of the payload is accepted |
| Webhook.MissingSecretRejectsAll | src/main/java/com/payment/paystack/service/PaystackService.java:225-234 | a null or empty secret makes hashing throw, so every signature is rejected |
| Webhook.UpperCaseSignatureRejected | src/main/java/com/payment/paystack/service/PaystackService.java:230 | a signature containing an upper-case hex letter is rejected |
| Webhook.AcceptedSignatureShape | src/main/java/com/payment/paystack/service/PaystackService.java:268-278 | with a 64-byte MAC, every accepted signature is 128 characters of 0-9 and a-f |
| Webhook.OnlyOneSignatureAccepted | src/main/java/com/payment/paystack/service/PaystackService.java:230 | for a given payload and secret, at most one signature text is accepted |
| ExceptionHandler.HandleException | src/main/java/com/payment/paystack/exception/GlobalExceptionHandler.java:18-78 | fields per exception kind:<br>• every body: `success` = false; `status_code` is present only for HTTP client and server errors<br>• PaystackException → 400, PAYSTACK_ERROR, the exception's message<br>• HTTP client error → its own code, HTTP_CLIENT_ERROR, the code, "Payment service error: " + message<br>• HTTP server error → 503 whatever the upstream code, HTTP_SERVER_ERROR, the upstream code, a fixed message<br>• resource access → 503, CONNECTION_ERROR, a fixed message<br>• anything else → 500, INTERNAL_ERROR, a fixed message |
| ExceptionHandler.RemediationClasses | src/main/java/com/payment/paystack/exception/GlobalExceptionHandler.java:18-78 | 4xx gateway errors and PaystackException answer 4xx; 503 is answered exactly for server errors and unreachable gateways; every other kind answers 500 |
| ServiceErrors.CatchAll | src/main/java/com/payment/paystack/controller/PaystackController.java:52-60 | the controller's catch-all answer: 500, only `success` = false and `message` = the endpoint's prefix followed by the exception's message |
| ServiceErrors.CatchAllIsNotHandler | src/main/java/com/payment/paystack/controller/PaystackController.java:52-60 | the catch-all answer has no `error_type`, so it differs from every answer of `GlobalExceptionHandler` |
| ServiceErrors.WrappedIsBadRequest | src/main/java/com/payment/paystack/exception/GlobalExceptionHandler.java:18-28 | were a wrapped failure to reach the handler it would be 400, and a NullPointerException 500 |
| ServiceErrors.WrappedAnswer | src/main/java/com/payment/paystack/controller/PaystackController.java:57 | the controller's message for a wrapped failure is its prefix, then "Error <action>: ", then the cause's message |
| ServiceErrors.InitializeFailureAnswer | src/main/java/com/payment/paystack/controller/PaystackController.java:40-60 | a failed initializeTransaction reaches the client as 500 "Failed to initialize payment: Error initializing transaction: " and the cause's message |
| ServiceErrors.VerifyFailureAnswer | src/main/java/com/payment/paystack/controller/PaystackController.java:69-88 | a failed verifyTransaction, from the verify endpoint or the callback, is answered 500; a thrown gateway error or a null body shows through the nested message |
| ServiceErrors.RecipientFailureAnswer | src/main/java/com/payment/paystack/controller/PaystackController.java:105-125 | a failed createTransferRecipient is answered 500; a thrown or rejected call shows "Failed to create recipient: Error creating transfer recipient: " and the cause's message |
| ServiceErrors.TransferFailureAnswer | src/main/java/com/payment/paystack/controller/PaystackController.java:141-161 | a failed initiateTransfer is answered 500 with "Failed to initiate transfer: Error initiating transfer: " and the cause's message |
| ServiceErrors.GatewayOutageAnsweredByController | src/main/java/com/payment/paystack/controller/PaystackController.java:40-60 | an upstream 5xx or unreachable gateway, which the handler alone would answer 503, reaches the client as the controller's 500 with the nested message |

## Left out

- **Gateway I/O.** The HTTP exchange itself is left out: `RestTemplate`, serialisation to JSON, and the connect and read timeouts of `PaystackConfig`. The reply is an input.
- **HMAC computation.** HMAC-SHA512 (RFC 2104 over the SHA-512 of FIPS 180-4) is a function-valued input. `Mac.getInstance` failing for an unknown algorithm is not modelled.
- **UUID randomness.** The 16 random bytes are an input. Nothing is claimed about uniqueness across calls.
- **Logging and Lombok.** Logging is left out, except where a log argument dereferences `data`. The Lombok getters, setters and builders are left out too.
- **Delegating methods.** The service's `getCurrentEnvironment` and `isProduction` only delegate to `PaystackProperties`, so they have no members of their own.
- **Controller.** Of `PaystackController`, only the `catch (Exception e)` blocks of the five endpoints that call the four operations are modelled (`ServiceErrors.CatchAll`); their success bodies are left out. The webhook endpoint's catch block, which answers 500 with the fixed text "Error processing webhook", is left out: `verifyWebhookSignature` never throws (`Webhook.VerifyWebhookSignature`), so only the logging it guards could reach it. `getEnvironment` has no `try`. So are its untyped map parsing, the callback rule (`reference` is preferred over `trxref`, with 400 when both are null) and the 401 on an invalid signature.
- **DTO fields.** Only the fields the service reads or writes are modelled. The `metadata` of the requests is left out, and so is the content of the `data` payloads, which is a type parameter.
- JavaText.UpperCase: the case mapping covers the ASCII letters and the four non-ASCII characters whose Java mapping lands on an ASCII letter (ı, ſ, İ and the Kelvin sign). Every other character maps to itself. This is exact for the comparison against "production" and for upper-casing hex digits, but not in general. JavaText.ToUpperCase inherits this: Java's `String.toUpperCase()` follows the default locale and full case mapping ("ß" becomes "SS", changing the length), so its "keeps the length" holds only because its input is lower-case hex.
- **Helpful NullPointerException text.** The detail message of a `NullPointerException` is modelled as null, so a wrapped one reads "… : null".
- **Null channel elements.** The channels array is a sequence of non-null strings. Null elements inside it are not modelled.
- **Lone surrogates.** Strings are sequences of Unicode scalar values. The replacement of lone UTF-16 surrogates by `getBytes` is not modelled.
- **Build members and operations.** The call a `Build…` member describes is the call the matching operation sends. The operations restate the builder's null-dereference condition (amount, active bundle) instead of calling it.
