/**
 * `PaystackService`: builds the four gateway calls from the caller's input and
 * the active credential bundle, and classifies the gateway's reply. The
 * outbound HTTP exchange is not modelled; its outcome is the input `reply`,
 * and the bytes `UUID.randomUUID()` draws are the input `random`.
 */
module PaystackService {
  import opened Wrappers
  import opened JavaText
  import opened PaystackProperties
  import opened Decimals
  import opened References
  import opened Exceptions

  const DefaultCurrency: string := "NGN"
  const DefaultChannels: seq<string> := ["mobile_money", "card", "bank"]
  const TransferSource: string := "balance"
  const JsonContentType: string := "application/json"
  const BearerPrefix: string := "Bearer "

  // The action each operation's catch block names, and the goal its rejection names.
  const InitializeAction: string := "initializing transaction"
  const InitializeGoal: string := "initialize transaction"
  const VerifyAction: string := "verifying transaction"
  const RecipientAction: string := "creating transfer recipient"
  const RecipientGoal: string := "create recipient"
  const TransferAction: string := "initiating transfer"
  const TransferGoal: string := "initiate transfer"
  const NoResponseBody: string := "Failed to verify transaction: No response body"

  const InitializePath: string := "/transaction/initialize"
  const VerifyPath: string := "/transaction/verify/"
  const RecipientPath: string := "/transferrecipient"
  const TransferPath: string := "/transfer"

  datatype HttpMethod = Get | Post

  /** The headers `createHeaders()` sets: a content type and a bearer authorization. */
  datatype Headers = Headers(contentType: string, authorization: string)

  datatype InitializeTransactionRequest = InitializeTransactionRequest(
    email: JString, amount: BigDecimal, currency: string, reference: string,
    callbackUrl: JString, channels: seq<string>)

  datatype CreateRecipientRequest = CreateRecipientRequest(
    recipientType: JString, name: JString, accountNumber: JString, bankCode: JString, currency: string)

  datatype TransferRequest = TransferRequest(
    source: string, amount: BigDecimal, recipient: JString, reason: JString, currency: string, reference: string)

  /** One `RestTemplate.exchange` call: method, URL, headers and the request body, if any. */
  datatype Call<B> = Call(httpMethod: HttpMethod, url: string, headers: Headers, body: Option<B>)

  /** The gateway's reply envelope; `D` is the operation's `data` payload. */
  datatype Envelope<D> = Envelope(status: bool, message: JString, data: Option<D>)

  /** What `exchange` did: returned a response whose body may be null, or threw. */
  datatype Reply<D> = Replied(body: Option<Envelope<D>>) | Threw(thrown: Exception)

  /** `convertToKobo`: `amount.multiply(new BigDecimal("100"))`. */
  function ConvertToKobo(amount: BigDecimal): (kobo: BigDecimal)
    ensures Value(kobo) == Value(amount) * 100.0
    ensures kobo.scale == amount.scale
  {
    Multiply(amount, Hundred)
  }

  /** `createHeaders()`, given the active bundle: JSON content, bearer token the bundle's secret key. */
  function CreateHeaders(config: EnvironmentConfig): (h: Headers)
    ensures h.contentType == JsonContentType
    ensures |h.authorization| >= |BearerPrefix| && h.authorization[..|BearerPrefix|] == BearerPrefix
    ensures config.secretKey.Some? ==> h.authorization[|BearerPrefix|..] == config.secretKey.value
    ensures config.secretKey.None? ==> h.authorization == BearerPrefix + "null"
  {
    Headers(JsonContentType, BearerPrefix + Text(config.secretKey))
  }

  /** `currency != null ? currency : "NGN"`. */
  function CurrencyOrDefault(currency: JString): string
  {
    if currency.Some? then currency.value else DefaultCurrency
  }

  /** A call reaches the gateway only when the active bundle is set; otherwise dereferencing it throws. */
  predicate HasActiveConfig(p: Properties)
  {
    GetActiveConfig(p).Some?
  }

  /** The URL of an operation: the active bundle's base URL (text "null" when unset) and the path. */
  function OperationUrl(p: Properties, path: string): string
    requires HasActiveConfig(p)
  {
    Text(GetActiveConfig(p).value.baseUrl) + path
  }

  /** The wrapping of the `catch` blocks: `new PaystackException("Error <action>: " + e.getMessage(), e)`. */
  function Wrap(action: string, e: Exception): (r: Exception)
    ensures r.PaystackException? && r.message.Some?
    ensures var prefix := "Error " + action + ": ";
      && |r.message.value| == |prefix| + |Text(Message(e))|
      && r.message.value[..|prefix|] == prefix
      && r.message.value[|prefix|..] == Text(Message(e))
  {
    PaystackException(Some("Error " + action + ": " + Text(Message(e))))
  }

  /** The exception thrown inside the `try` when the body is null or its status false. */
  function Rejection<D>(goal: string, body: Option<Envelope<D>>): (r: Exception)
    ensures r.PaystackException? && r.message.Some?
    ensures var prefix := "Failed to " + goal + ": ";
      && |r.message.value| >= |prefix|
      && r.message.value[..|prefix|] == prefix
      && (body.None? ==> r.message.value[|prefix|..] == "Unknown error")
      && (body.Some? ==> r.message.value[|prefix|..] == Text(body.value.message))
  {
    PaystackException(Some("Failed to " + goal + ": " + (if body.None? then "Unknown error" else Text(body.value.message))))
  }

  /** `response.getBody() != null && response.getBody().isStatus()`. */
  predicate Accepted<D>(reply: Reply<D>)
  {
    reply.Replied? && reply.body.Some? && reply.body.value.status
  }

  /** The `try` block shared by initializeTransaction and initiateTransfer. */
  function ClassifyOnStatus<D>(action: string, goal: string, reply: Reply<D>): (r: Result<Envelope<D>, Exception>)
    ensures r.Success? <==> Accepted(reply)
    ensures r.Success? ==> r.value == reply.body.value
    ensures r.Failure? ==> r.error.PaystackException?
    ensures reply.Threw? ==> r == Failure(Wrap(action, reply.thrown))
    ensures reply.Replied? && !Accepted(reply) ==> r == Failure(Wrap(action, Rejection(goal, reply.body)))
  {
    match reply
    case Threw(e) => Failure(Wrap(action, e))
    case Replied(body) =>
      if body.Some? && body.value.status then Success(body.value)
      else Failure(Wrap(action, Rejection(goal, body)))
  }

  // ---------------------------------------------------------------- initializeTransaction

  /** The request and call `initializeTransaction` sends; a null amount or active bundle throws first. */
  function BuildInitializeCall(
    p: Properties, random: seq<Int8>, email: JString, amount: Option<BigDecimal>,
    currency: JString, channels: Option<seq<string>>): (r: Result<Call<InitializeTransactionRequest>, Exception>)
    requires |random| == 16
    ensures r.Success? <==> amount.Some? && HasActiveConfig(p)
    ensures r.Failure? ==> r.error == NullPointer
    ensures r.Success? ==>
      && r.value.httpMethod == Post
      && r.value.url == OperationUrl(p, InitializePath)
      && r.value.headers == CreateHeaders(GetActiveConfig(p).value)
      && r.value.body.Some?
      && var req := r.value.body.value;
      && req.email == email
      && req.amount == ConvertToKobo(amount.value)
      && Value(req.amount) == Value(amount.value) * 100.0
      && req.amount.scale == amount.value.scale
      && req.currency == (if currency.Some? then currency.value else "NGN")
      && req.reference == GenerateReference(random)
      && req.callbackUrl == p.callbackUrl
      && req.channels == (if channels.Some? then channels.value else ["mobile_money", "card", "bank"])
  {
    var reference := GenerateReference(random);
    if amount.None? then Failure(NullPointer)
    else
      var request := InitializeTransactionRequest(
        email, ConvertToKobo(amount.value), CurrencyOrDefault(currency), reference,
        p.callbackUrl, if channels.Some? then channels.value else DefaultChannels);
      match GetActiveConfig(p)
      case None => Failure(NullPointer)
      case Some(config) =>
        Success(Call(Post, Text(config.baseUrl) + InitializePath, CreateHeaders(config), Some(request)))
  }

  /** `initializeTransaction`: the reply's body when it is non-null with status true; otherwise a wrapped error. */
  function InitializeTransaction<D>(
    p: Properties, email: JString, amount: Option<BigDecimal>,
    currency: JString, channels: Option<seq<string>>, reply: Reply<D>): (r: Result<Envelope<D>, Exception>)
    ensures !(amount.Some? && HasActiveConfig(p)) ==> r == Failure(NullPointer)
    ensures amount.Some? && HasActiveConfig(p) ==>
      && (r.Success? <==> Accepted(reply))
      && (r.Success? ==> r.value == reply.body.value)
      && (reply.Threw? ==> r == Failure(Wrap(InitializeAction, reply.thrown)))
      && (reply.Replied? && !Accepted(reply) ==> r == Failure(Wrap(InitializeAction, Rejection(InitializeGoal, reply.body))))
  {
    if amount.None? || !HasActiveConfig(p) then Failure(NullPointer)
    else ClassifyOnStatus(InitializeAction, InitializeGoal, reply)
  }

  // ---------------------------------------------------------------- verifyTransaction

  /** The call `verifyTransaction` sends: a GET with no body to the verify path and the reference. */
  function BuildVerifyCall<B>(p: Properties, reference: JString): (r: Result<Call<B>, Exception>)
    ensures r.Success? <==> HasActiveConfig(p)
    ensures r.Failure? ==> r.error == NullPointer
    ensures r.Success? ==>
      && r.value.httpMethod == Get
      && r.value.url == OperationUrl(p, VerifyPath) + Text(reference)
      && r.value.headers == CreateHeaders(GetActiveConfig(p).value)
      && r.value.body.None?
  {
    match GetActiveConfig(p)
    case None => Failure(NullPointer)
    case Some(config) =>
      Success(Call(Get, Text(config.baseUrl) + VerifyPath + Text(reference), CreateHeaders(config), None))
  }

  /**
   * `verifyTransaction`: any non-null body, whatever its status, provided its
   * `data` is non-null (the success log reads `getData().getStatus()`).
   */
  function VerifyTransaction<D>(p: Properties, reference: JString, reply: Reply<D>): (r: Result<Envelope<D>, Exception>)
    ensures !HasActiveConfig(p) ==> r == Failure(NullPointer)
    ensures HasActiveConfig(p) ==>
      && (r.Success? <==> reply.Replied? && reply.body.Some? && reply.body.value.data.Some?)
      && (r.Success? ==> r.value == reply.body.value)
      && (reply.Threw? ==> r == Failure(Wrap(VerifyAction, reply.thrown)))
      && (reply == Replied(None) ==> r == Failure(Wrap(VerifyAction, PaystackException(Some(NoResponseBody)))))
      && (reply.Replied? && reply.body.Some? && reply.body.value.data.None? ==> r == Failure(Wrap(VerifyAction, NullPointer)))
  {
    if !HasActiveConfig(p) then Failure(NullPointer)
    else
      match reply
      case Threw(e) => Failure(Wrap(VerifyAction, e))
      case Replied(None) => Failure(Wrap(VerifyAction, PaystackException(Some(NoResponseBody))))
      case Replied(Some(body)) =>
        if body.data.None? then Failure(Wrap(VerifyAction, NullPointer)) else Success(body)
  }

  // ---------------------------------------------------------------- createTransferRecipient

  /** The request and call `createTransferRecipient` sends. */
  function BuildRecipientCall(
    p: Properties, recipientType: JString, name: JString, accountNumber: JString,
    bankCode: JString, currency: JString): (r: Result<Call<CreateRecipientRequest>, Exception>)
    ensures r.Success? <==> HasActiveConfig(p)
    ensures r.Failure? ==> r.error == NullPointer
    ensures r.Success? ==>
      && r.value.httpMethod == Post
      && r.value.url == OperationUrl(p, RecipientPath)
      && r.value.headers == CreateHeaders(GetActiveConfig(p).value)
      && r.value.body == Some(CreateRecipientRequest(recipientType, name, accountNumber, bankCode,
                                 if currency.Some? then currency.value else "NGN"))
  {
    var request := CreateRecipientRequest(recipientType, name, accountNumber, bankCode, CurrencyOrDefault(currency));
    match GetActiveConfig(p)
    case None => Failure(NullPointer)
    case Some(config) =>
      Success(Call(Post, Text(config.baseUrl) + RecipientPath, CreateHeaders(config), Some(request)))
  }

  /**
   * `createTransferRecipient`: the body when non-null with status true and
   * non-null `data` (the success log reads `getData().getRecipientCode()`).
   */
  function CreateTransferRecipient<D>(
    p: Properties, recipientType: JString, name: JString, accountNumber: JString,
    bankCode: JString, currency: JString, reply: Reply<D>): (r: Result<Envelope<D>, Exception>)
    ensures !HasActiveConfig(p) ==> r == Failure(NullPointer)
    ensures HasActiveConfig(p) ==>
      && (r.Success? <==> Accepted(reply) && reply.body.value.data.Some?)
      && (r.Success? ==> r.value == reply.body.value)
      && (reply.Threw? ==> r == Failure(Wrap(RecipientAction, reply.thrown)))
      && (reply.Replied? && !Accepted(reply) ==> r == Failure(Wrap(RecipientAction, Rejection(RecipientGoal, reply.body))))
      && (Accepted(reply) && reply.body.value.data.None? ==> r == Failure(Wrap(RecipientAction, NullPointer)))
  {
    if !HasActiveConfig(p) then Failure(NullPointer)
    else
      match ClassifyOnStatus(RecipientAction, RecipientGoal, reply)
      case Failure(e) => Failure(e)
      case Success(body) => if body.data.None? then Failure(Wrap(RecipientAction, NullPointer)) else Success(body)
  }

  // ---------------------------------------------------------------- initiateTransfer

  /** The request and call `initiateTransfer` sends; a null amount or active bundle throws first. */
  function BuildTransferCall(
    p: Properties, random: seq<Int8>, recipientCode: JString, amount: Option<BigDecimal>,
    reason: JString, currency: JString): (r: Result<Call<TransferRequest>, Exception>)
    requires |random| == 16
    ensures r.Success? <==> amount.Some? && HasActiveConfig(p)
    ensures r.Failure? ==> r.error == NullPointer
    ensures r.Success? ==>
      && r.value.httpMethod == Post
      && r.value.url == OperationUrl(p, TransferPath)
      && r.value.headers == CreateHeaders(GetActiveConfig(p).value)
      && r.value.body.Some?
      && var req := r.value.body.value;
      && req.source == "balance"
      && req.amount == ConvertToKobo(amount.value)
      && Value(req.amount) == Value(amount.value) * 100.0
      && req.amount.scale == amount.value.scale
      && req.recipient == recipientCode
      && req.reason == reason
      && req.currency == (if currency.Some? then currency.value else "NGN")
      && req.reference == GenerateReference(random)
  {
    var reference := GenerateReference(random);
    if amount.None? then Failure(NullPointer)
    else
      var request := TransferRequest(
        TransferSource, ConvertToKobo(amount.value), recipientCode, reason, CurrencyOrDefault(currency), reference);
      match GetActiveConfig(p)
      case None => Failure(NullPointer)
      case Some(config) =>
        Success(Call(Post, Text(config.baseUrl) + TransferPath, CreateHeaders(config), Some(request)))
  }

  /** `initiateTransfer`: the reply's body when it is non-null with status true; otherwise a wrapped error. */
  function InitiateTransfer<D>(
    p: Properties, recipientCode: JString, amount: Option<BigDecimal>,
    reason: JString, currency: JString, reply: Reply<D>): (r: Result<Envelope<D>, Exception>)
    ensures !(amount.Some? && HasActiveConfig(p)) ==> r == Failure(NullPointer)
    ensures amount.Some? && HasActiveConfig(p) ==>
      && (r.Success? <==> Accepted(reply))
      && (r.Success? ==> r.value == reply.body.value)
      && (reply.Threw? ==> r == Failure(Wrap(TransferAction, reply.thrown)))
      && (reply.Replied? && !Accepted(reply) ==> r == Failure(Wrap(TransferAction, Rejection(TransferGoal, reply.body))))
  {
    if amount.None? || !HasActiveConfig(p) then Failure(NullPointer)
    else ClassifyOnStatus(TransferAction, TransferGoal, reply)
  }

  // ---------------------------------------------------------------- properties

  /** convertToKobo checks neither sign nor zero: the kobo amount has the sign of the naira amount. */
  lemma KoboKeepsSign(amount: BigDecimal)
    ensures Value(ConvertToKobo(amount)) > 0.0 <==> amount.unscaled > 0
    ensures Value(ConvertToKobo(amount)) == 0.0 <==> amount.unscaled == 0
  {
    ValueSign(amount);
  }

  /** An amount with at most two decimal places becomes a whole number of kobo, exactly. */
  lemma WholeKobo(amount: BigDecimal)
    requires amount.scale <= 2
    ensures Value(ConvertToKobo(amount)) == (amount.unscaled * Pow10(2 - amount.scale)) as real
  {
    var u, s := amount.unscaled, amount.scale;
    ScaleFactorAdd(s, -2);
    NegativeScale(2);
    assert ScaleFactor(-2) == 100.0;
    NegativeScale(2 - s);
    RealOfProduct(u, 100);
    RealOfProduct(u, Pow10(2 - s));
    Hundredfold(u as real, ScaleFactor(s), ScaleFactor(s - 2), (u * 100) as real);
  }

  /** Moving a factor of one hundred from one side of a product to the other; stated over plain reals. */
  lemma Hundredfold(x: real, f: real, g: real, xh: real)
    requires xh == x * 100.0 && g == f * 100.0
    ensures xh * f == x * g
  {
  }

  /** 49.99 naira is 4999 kobo and 100.00 naira is 10000 kobo, with the scale kept. */
  lemma KoboExamples()
    ensures ConvertToKobo(BigDecimal(4999, 2)) == BigDecimal(499900, 2)
    ensures Value(ConvertToKobo(BigDecimal(4999, 2))) == 4999.0
    ensures Value(ConvertToKobo(BigDecimal(10000, 2))) == 10000.0
  {
    WholeKobo(BigDecimal(4999, 2));
    WholeKobo(BigDecimal(10000, 2));
  }

  /** Every wrapped failure's message is "Error <action>: " followed by the cause's message. */
  lemma WrappedMessage(action: string, e: Exception)
    ensures Wrap(action, e).PaystackException?
    ensures var m := Wrap(action, e).message;
      && m.Some?
      && |m.value| >= |"Error " + action + ": "|
      && m.value[..|"Error " + action + ": "|] == "Error " + action + ": "
  {
  }

  /** The bundle selection leaves unused: the production one outside production, the test one in it. */
  function WithInactiveBundle(p: Properties, other: Option<EnvironmentConfig>): Properties
  {
    if IsProduction(p) then p.(test := other) else p.(production := other)
  }

  /**
   * The inactive bundle never reaches a request: in the test environment the
   * production bundle can be anything without changing any call, and the
   * other way round.
   */
  lemma InactiveBundleUnusedInitialize(
    p: Properties, other: Option<EnvironmentConfig>, random: seq<Int8>, email: JString,
    amount: Option<BigDecimal>, currency: JString, channels: Option<seq<string>>)
    requires |random| == 16
    ensures BuildInitializeCall(p, random, email, amount, currency, channels)
         == BuildInitializeCall(WithInactiveBundle(p, other), random, email, amount, currency, channels)
  {
    assert GetActiveConfig(WithInactiveBundle(p, other)) == GetActiveConfig(p);
  }

  lemma InactiveBundleUnusedVerify(p: Properties, other: Option<EnvironmentConfig>, reference: JString)
    ensures BuildVerifyCall<()>(p, reference) == BuildVerifyCall<()>(WithInactiveBundle(p, other), reference)
  {
    assert GetActiveConfig(WithInactiveBundle(p, other)) == GetActiveConfig(p);
  }

  lemma InactiveBundleUnusedRecipient(
    p: Properties, other: Option<EnvironmentConfig>, recipientType: JString, name: JString,
    accountNumber: JString, bankCode: JString, currency: JString)
    ensures BuildRecipientCall(p, recipientType, name, accountNumber, bankCode, currency)
         == BuildRecipientCall(WithInactiveBundle(p, other), recipientType, name, accountNumber, bankCode, currency)
  {
    assert GetActiveConfig(WithInactiveBundle(p, other)) == GetActiveConfig(p);
  }

  lemma InactiveBundleUnusedTransfer(
    p: Properties, other: Option<EnvironmentConfig>, random: seq<Int8>, recipientCode: JString,
    amount: Option<BigDecimal>, reason: JString, currency: JString)
    requires |random| == 16
    ensures BuildTransferCall(p, random, recipientCode, amount, reason, currency)
         == BuildTransferCall(WithInactiveBundle(p, other), random, recipientCode, amount, reason, currency)
  {
    assert GetActiveConfig(WithInactiveBundle(p, other)) == GetActiveConfig(p);
  }

  /** Outside production every call carries the test bundle's base URL and secret key. */
  lemma TestCallsUseTestCredentials(p: Properties, config: EnvironmentConfig, key: string, reference: JString)
    requires !IsProduction(p) && p.test == Some(config) && config.secretKey == Some(key)
    ensures var c := BuildVerifyCall<()>(p, reference);
      && c.Success?
      && c.value.headers.authorization == "Bearer " + key
      && c.value.url == Text(config.baseUrl) + "/transaction/verify/" + Text(reference)
  {
  }
}
