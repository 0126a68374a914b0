/**
  The simulated payment form (components/PaymentSheet.tsx). Pressing pay moves the form to
  `Processing`; when the simulated call completes, the card number alone decides the outcome.
  The two timers are modelled as the explicit step `Complete`.
 */
module Payment {
  import opened Text

  datatype Status = Idle | Processing | Succeeded | Failed

  /** The three outcomes of the simulated card check. */
  datatype CardOutcome = Approved | Declined | Invalid

  const SUCCESS_CARD := "4242424242424242"
  const DECLINED_CARD := "4000000000000002"
  const DECLINED_MESSAGE := "Your card was declined."
  const INVALID_MESSAGE := "Invalid card number. Try 4242 4242 4242 4242 for success."

  /** Compares the card number, with all white space removed, against the two test numbers. */
  function Classify(cardNumber: string): (o: CardOutcome)
    ensures o == Approved <==> StripWhitespace(cardNumber) == SUCCESS_CARD
    ensures o == Declined <==> StripWhitespace(cardNumber) == DECLINED_CARD
  {
    var clean := StripWhitespace(cardNumber);
    if clean == SUCCESS_CARD then Approved
    else if clean == DECLINED_CARD then Declined
    else Invalid
  }

  /** White space typed anywhere in the card number never changes the outcome. */
  lemma ClassifyIgnoresWhitespace(before: string, spaces: string, after: string)
    requires AllWhitespace(spaces)
    ensures Classify(before + spaces + after) == Classify(before + after)
  {
    StripIgnoresInsertedWhitespace(before, spaces, after);
  }

  class PaymentSheet {
    var cardNumber: string
    var expiry: string
    var cvc: string
    var status: Status
    var errorMessage: string
    /** Whether `onSuccess` has been scheduled. */
    var successScheduled: bool

    constructor ()
      ensures cardNumber == [] && expiry == [] && cvc == []
      ensures status == Idle && errorMessage == [] && !successScheduled
    {
      cardNumber, expiry, cvc := [], [], [];
      status, errorMessage := Idle, [];
      successScheduled := false;
    }

    /** The pay button is disabled while a payment is being processed. */
    function PayDisabled(): (disabled: bool)
      reads this
      ensures disabled <==> status == Processing
    {
      status == Processing
    }

    /** `handlePay`'s first step: the form shows `Processing` before any outcome is known. */
    method Pay()
      modifies this
      ensures status == Processing && PayDisabled()
      ensures cardNumber == old(cardNumber) && expiry == old(expiry) && cvc == old(cvc)
      ensures errorMessage == old(errorMessage) && successScheduled == old(successScheduled)
    {
      status := Processing;
    }

    /**
      The simulated call completes: the approved card succeeds and schedules `onSuccess`, the
      declined card and every other number fail with their messages. Expiry and CVC are not read.
     */
    method Complete()
      modifies this`status, this`errorMessage, this`successScheduled
      ensures var outcome := Classify(cardNumber);
        && (outcome == Approved ==> status == Succeeded && successScheduled && errorMessage == old(errorMessage))
        && (outcome == Declined ==> status == Failed && errorMessage == DECLINED_MESSAGE && successScheduled == old(successScheduled))
        && (outcome == Invalid ==> status == Failed && errorMessage == INVALID_MESSAGE && successScheduled == old(successScheduled))
      ensures !PayDisabled()
    {
      var clean := StripWhitespace(cardNumber);
      if clean == SUCCESS_CARD {
        status := Succeeded;
        successScheduled := true;
      } else if clean == DECLINED_CARD {
        status := Failed;
        errorMessage := DECLINED_MESSAGE;
      } else {
        status := Failed;
        errorMessage := INVALID_MESSAGE;
      }
    }
  }
}
