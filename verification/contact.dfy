/**
 * The contact form (src/components/Contact.jsx).
 *
 * Submitting the form moves it from idle to sending and posts the three
 * fields. A reply whose `status` is "success" shows the success overlay,
 * clears the form and schedules a return to idle; any other reply, and any
 * failure of the request or of decoding its body, returns to idle and raises
 * an error toast. The request itself is not modelled: its outcome is a
 * parameter of `Settle`.
 */
module Contact {

  import opened Optional
  import Toasts

  /** The `formState` of the component. */
  datatype FormState = Idle | Sending | Success

  /** How the request ended: a decoded reply with its `status` field, or a thrown error. */
  datatype Outcome = Replied(status: string) | Thrown

  /** The three required inputs of the form. */
  datatype Fields = Fields(fullName: string, email: string, message: string)

  /** What `e.target.reset()` leaves in the inputs. */
  const EmptyFields: Fields := Fields("", "", "")

  /** The toast raised by a reply that is not a success. */
  const ReplyErrorMessage: string := "Something went wrong"

  /** The toast raised when the request or the decoding of its reply throws. */
  const ThrownErrorMessage: string := "Failed to send message"

  /** The `type` of both error toasts. */
  const ErrorKind: string := "error"

  /**
   * The browser's check of the `required` attributes: no input may be empty.
   * In particular the inputs a successful submission resets cannot be sent
   * again without typing.
   */
  predicate RequiredFilled(f: Fields)
    ensures RequiredFilled(f) ==> f != EmptyFields
  {
    f.fullName != "" && f.email != "" && f.message != ""
  }

  /** The state an outcome leads to, and the message of the error toast it raises, if any. */
  datatype Effect = Effect(next: FormState, toast: Option<string>)

  /**
   * The reaction to an outcome. Only a reply with status "success" reaches
   * the success state, and exactly that outcome raises no toast; every
   * outcome leaves the sending state.
   */
  function OutcomeEffect(outcome: Outcome): (e: Effect)
    ensures e.next != Sending
    ensures e.next == Success <==> outcome == Replied("success")
    ensures e.toast == None <==> e.next == Success
    ensures outcome.Thrown? ==> e.toast == Some(ThrownErrorMessage)
    ensures outcome.Replied? && outcome.status != "success" ==> e.toast == Some(ReplyErrorMessage)
  {
    match outcome
    case Replied(status) =>
      if status == "success" then Effect(Success, None) else Effect(Idle, Some(ReplyErrorMessage))
    case Thrown => Effect(Idle, Some(ThrownErrorMessage))
  }

  /** The mounted contact form. */
  class ContactForm {
    var formState: FormState
    var fields: Fields
    /** Return-to-idle timers scheduled by successful replies and not yet fired. */
    var pendingResets: nat
    /** Submitted requests that have not settled yet. */
    var inFlight: nat

    /**
     * The form is sending only while a request is in flight, and the success
     * overlay is always dismissed by a timer still to come.
     */
    ghost predicate Valid()
      reads this
    {
      && (formState == Sending ==> inFlight > 0)
      && (formState == Success ==> pendingResets > 0)
    }

    /**
     * The submit button is disabled (and shows a spinner); in a valid state
     * that happens only while a request is in flight, and never under the
     * success overlay.
     */
    predicate ButtonDisabled()
      reads this
      ensures Valid() && ButtonDisabled() ==> inFlight > 0
      ensures ButtonDisabled() ==> !ShowsOverlay()
    {
      formState == Sending
    }

    /**
     * The "Message Sent!" overlay covers the form; in a valid state a
     * return-to-idle timer is always pending to remove it.
     */
    predicate ShowsOverlay()
      reads this
      ensures Valid() && ShowsOverlay() ==> pendingResets > 0
    {
      formState == Success
    }

    constructor ()
      ensures formState == Idle && fields == EmptyFields && pendingResets == 0 && inFlight == 0
      ensures Valid() && !ButtonDisabled() && !ShowsOverlay()
    {
      formState := Idle;
      fields := EmptyFields;
      pendingResets := 0;
      inFlight := 0;
    }

    /** The visitor types into the inputs. */
    method Edit(f: Fields)
      requires Valid()
      modifies this
      ensures Valid()
      ensures fields == f
      ensures formState == old(formState) && pendingResets == old(pendingResets) && inFlight == old(inFlight)
    {
      fields := f;
    }

    /**
     * A submit attempt. The browser lets it through only when the button is
     * enabled and every required input is filled; the handler then moves to
     * sending before any reply is seen.
     */
    method Submit() returns (sent: bool)
      requires Valid()
      modifies this
      ensures Valid()
      ensures sent <==> !old(ButtonDisabled()) && RequiredFilled(old(fields))
      ensures sent ==> formState == Sending && ButtonDisabled() && !ShowsOverlay()
      ensures sent ==> inFlight == old(inFlight) + 1
      ensures !sent ==> formState == old(formState) && inFlight == old(inFlight)
      ensures fields == old(fields) && pendingResets == old(pendingResets)
    {
      sent := formState != Sending && RequiredFilled(fields);
      if sent {
        formState := Sending;
        inFlight := inFlight + 1;
      }
    }

    /**
     * A submitted request settles with `outcome`; `toastId` is the clock
     * reading that an error toast takes as its id. Every toast it raises is
     * drawn in the error colour.
     */
    method Settle(outcome: Outcome, toastId: int, center: Toasts.ToastCenter)
      requires Valid() && center.Valid() && inFlight > 0
      modifies this, center
      ensures Valid() && center.Valid()
      ensures inFlight == old(inFlight) - 1
      ensures formState == OutcomeEffect(outcome).next && !ButtonDisabled()
      ensures ShowsOverlay() <==> outcome == Replied("success")
      ensures ShowsOverlay() ==> fields == EmptyFields && pendingResets == old(pendingResets) + 1
      ensures !ShowsOverlay() ==> fields == old(fields) && pendingResets == old(pendingResets)
      ensures OutcomeEffect(outcome).toast == None ==>
                center.toasts == old(center.toasts) && center.pending == old(center.pending)
      ensures OutcomeEffect(outcome).toast.Some? ==>
                && center.toasts == old(center.toasts) + [Toasts.Toast(toastId, OutcomeEffect(outcome).toast.value, ErrorKind)]
                && center.pending == old(center.pending) + [Toasts.Timer(toastId, Toasts.DefaultDuration)]
      ensures forall i :: |old(center.toasts)| <= i < |center.toasts| ==>
                Toasts.StyleOf(center.toasts[i].kind) == Toasts.ErrorStyle
    {
      inFlight := inFlight - 1;
      match outcome {
        case Replied(status) =>
          if status == "success" {
            formState := Success;
            fields := EmptyFields;
            pendingResets := pendingResets + 1;
          } else {
            formState := Idle;
            center.ShowToast(toastId, ReplyErrorMessage, ErrorKind);
          }
        case Thrown =>
          formState := Idle;
          center.ShowToast(toastId, ThrownErrorMessage, ErrorKind);
      }
    }

    /** A return-to-idle timer fires, whatever the state is by then. */
    method ResetTimerFires()
      requires Valid() && pendingResets > 0
      modifies this
      ensures Valid()
      ensures formState == Idle && !ShowsOverlay() && !ButtonDisabled()
      ensures pendingResets == old(pendingResets) - 1 && fields == old(fields) && inFlight == old(inFlight)
    {
      formState := Idle;
      pendingResets := pendingResets - 1;
    }
  }
}
