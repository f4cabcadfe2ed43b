/**
 * How `PaystackController` answers the service's failures. The five endpoints
 * that call the four operations (initialize, verify, recipient, transfer and the
 * payment callback) each call it inside `catch (Exception e)`, which answers 500
 * with its own body, "Failed to <x>: " followed by the exception's message. So
 * no exception the four operations throw reaches `GlobalExceptionHandler`:
 * whatever the handler would make of it, the client sees the controller's 500.
 */
module ServiceErrors {
  import opened Wrappers
  import opened JavaText
  import opened PaystackProperties
  import opened Decimals
  import opened Exceptions
  import opened PaystackService
  import opened ExceptionHandler

  const InitializeFailure: string := "Failed to initialize payment: "
  const VerifyFailure: string := "Failed to verify payment: "
  const CallbackFailure: string := "Failed to process callback: "
  const RecipientFailure: string := "Failed to create recipient: "
  const TransferFailure: string := "Failed to initiate transfer: "

  /** The controller's `catch (Exception e)` block, with the endpoint's message prefix. */
  function CatchAll(prefix: string, e: Exception): (r: ErrorResponse)
    ensures r.status == InternalServerError
    ensures r.body.Keys == {"success", "message"}
    ensures r.body["success"] == JBool(false)
    ensures r.body["message"] == JText(prefix + Text(Message(e)))
  {
    ErrorResponse(InternalServerError,
      map["success" := JBool(false), "message" := JText(prefix + Text(Message(e)))])
  }

  /** The controller's answer is never one the handler gives: it has no `error_type`. */
  lemma CatchAllIsNotHandler(prefix: string, e: Exception, f: Exception)
    ensures "error_type" !in CatchAll(prefix, e).body
    ensures CatchAll(prefix, e) != HandleException(f)
  {
    assert "error_type" in HandleException(f).body;
  }

  /** Were a wrapped failure to reach the handler, it would be 400; a NullPointerException, 500. */
  lemma WrappedIsBadRequest(action: string, e: Exception)
    ensures HandleException(Wrap(action, e)).status == 400
    ensures HandleException(NullPointer).status == 500
  {
  }

  /** The controller's message for a wrapped failure nests the service's message in its own. */
  lemma WrappedAnswer(prefix: string, action: string, e: Exception)
    ensures CatchAll(prefix, Wrap(action, e)).body["message"] == JText(prefix + "Error " + action + ": " + Text(Message(e)))
  {
    assert prefix + ("Error " + action + ": " + Text(Message(e))) == prefix + "Error " + action + ": " + Text(Message(e));
  }

  /** The exception a built call is wrapped around: the gateway's, or the status-false rejection. */
  function Cause<D>(goal: string, reply: Reply<D>): Exception
  {
    if reply.Threw? then reply.thrown else Rejection(goal, reply.body)
  }

  /** A failed initializeTransaction reaches the client as the controller's 500, with the nested message. */
  lemma InitializeFailureAnswer<D>(
    p: Properties, email: JString, amount: Option<BigDecimal>,
    currency: JString, channels: Option<seq<string>>, reply: Reply<D>)
    ensures var r := InitializeTransaction(p, email, amount, currency, channels, reply);
      r.Failure? ==>
        var a := CatchAll(InitializeFailure, r.error);
        && a.status == InternalServerError
        && (amount.Some? && HasActiveConfig(p) ==>
              a.body["message"] == JText(InitializeFailure + "Error " + InitializeAction + ": "
                                         + Text(Message(Cause(InitializeGoal, reply)))))
  {
    var r := InitializeTransaction(p, email, amount, currency, channels, reply);
    if r.Failure? && amount.Some? && HasActiveConfig(p) {
      assert r.error == Wrap(InitializeAction, Cause(InitializeGoal, reply));
      WrappedAnswer(InitializeFailure, InitializeAction, Cause(InitializeGoal, reply));
    }
  }

  /**
   * A failed verifyTransaction reaches the client as the controller's 500,
   * from the verify endpoint or from the payment callback.
   */
  lemma VerifyFailureAnswer<D>(p: Properties, reference: JString, reply: Reply<D>, prefix: string)
    requires prefix == VerifyFailure || prefix == CallbackFailure
    ensures var r := VerifyTransaction(p, reference, reply);
      r.Failure? ==>
        var a := CatchAll(prefix, r.error);
        && a.status == InternalServerError
        && (HasActiveConfig(p) && reply.Threw? ==>
              a.body["message"] == JText(prefix + "Error " + VerifyAction + ": " + Text(Message(reply.thrown))))
        && (HasActiveConfig(p) && reply == Replied(None) ==>
              a.body["message"] == JText(prefix + "Error " + VerifyAction + ": " + NoResponseBody))
  {
    var r := VerifyTransaction(p, reference, reply);
    if r.Failure? && HasActiveConfig(p) {
      if reply.Threw? {
        WrappedAnswer(prefix, VerifyAction, reply.thrown);
      } else if reply == Replied(None) {
        WrappedAnswer(prefix, VerifyAction, PaystackException(Some(NoResponseBody)));
      }
    }
  }

  /** A failed createTransferRecipient reaches the client as the controller's 500. */
  lemma RecipientFailureAnswer<D>(
    p: Properties, recipientType: JString, name: JString, accountNumber: JString,
    bankCode: JString, currency: JString, reply: Reply<D>)
    ensures var r := CreateTransferRecipient(p, recipientType, name, accountNumber, bankCode, currency, reply);
      r.Failure? ==>
        var a := CatchAll(RecipientFailure, r.error);
        && a.status == InternalServerError
        && (HasActiveConfig(p) && !Accepted(reply) ==>
              a.body["message"] == JText(RecipientFailure + "Error " + RecipientAction + ": "
                                         + Text(Message(Cause(RecipientGoal, reply)))))
  {
    var r := CreateTransferRecipient(p, recipientType, name, accountNumber, bankCode, currency, reply);
    if r.Failure? && HasActiveConfig(p) && !Accepted(reply) {
      assert r.error == Wrap(RecipientAction, Cause(RecipientGoal, reply));
      WrappedAnswer(RecipientFailure, RecipientAction, Cause(RecipientGoal, reply));
    }
  }

  /** A failed initiateTransfer reaches the client as the controller's 500, with the nested message. */
  lemma TransferFailureAnswer<D>(
    p: Properties, recipientCode: JString, amount: Option<BigDecimal>,
    reason: JString, currency: JString, reply: Reply<D>)
    ensures var r := InitiateTransfer(p, recipientCode, amount, reason, currency, reply);
      r.Failure? ==>
        var a := CatchAll(TransferFailure, r.error);
        && a.status == InternalServerError
        && (amount.Some? && HasActiveConfig(p) ==>
              a.body["message"] == JText(TransferFailure + "Error " + TransferAction + ": "
                                         + Text(Message(Cause(TransferGoal, reply)))))
  {
    var r := InitiateTransfer(p, recipientCode, amount, reason, currency, reply);
    if r.Failure? && amount.Some? && HasActiveConfig(p) {
      assert r.error == Wrap(TransferAction, Cause(TransferGoal, reply));
      WrappedAnswer(TransferFailure, TransferAction, Cause(TransferGoal, reply));
    }
  }

  /**
   * A gateway outage (a 5xx reply or a connection failure) that the handler
   * alone would answer 503 is re-wrapped by the service and caught by the
   * controller, so the client gets 500 with the doubly prefixed message.
   */
  lemma GatewayOutageAnsweredByController<D>(
    p: Properties, email: JString, amount: BigDecimal,
    currency: JString, channels: Option<seq<string>>, outage: Exception)
    requires HasActiveConfig(p)
    requires outage.HttpServerError? || outage.ResourceAccess?
    ensures var r := InitializeTransaction<D>(p, email, Some(amount), currency, channels, Threw(outage));
      && r.Failure?
      && HandleException(outage).status == ServiceUnavailable
      && CatchAll(InitializeFailure, r.error).status == InternalServerError
      && CatchAll(InitializeFailure, r.error).body["message"]
         == JText(InitializeFailure + "Error " + InitializeAction + ": " + Text(outage.message))
  {
    WrappedAnswer(InitializeFailure, InitializeAction, outage);
  }
}
