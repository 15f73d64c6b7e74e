/** The payment-password modal shown before a transfer is committed. It owns
    the password buffer, an error line and a loading flag. Submitting hands
    the buffer to the page's `onSubmit` callback and awaits its boolean; the
    model splits the handler at that await into `BeginSubmit` (before) and
    `FinishSubmit` (after), so that the loading flag is observable while the
    callback runs. */
module PaymentPasswordModal {
  import PadBuffer

  datatype ModalError = NoError | WrongPassword

  class PaymentPasswordModal {
    var paymentPassword: string
    var error: ModalError
    var isLoading: bool
    /** Whether `onClose` has been called. */
    var closed: bool

    constructor ()
      ensures paymentPassword == "" && error == NoError && !isLoading && !closed
    {
      paymentPassword := "";
      error := NoError;
      isLoading := false;
      closed := false;
    }

    /** `onNumberPadClick`: appends only while the buffer is shorter than six,
        and clears the error only when it appends. */
    method NumberPadClick(value: string)
      modifies this
      ensures paymentPassword == PadBuffer.Append(old(paymentPassword), value)
      ensures error == if |old(paymentPassword)| < PadBuffer.MaxLength then NoError else old(error)
      ensures isLoading == old(isLoading) && closed == old(closed)
    {
      if |paymentPassword| < PadBuffer.MaxLength {
        paymentPassword := paymentPassword + value;
        error := NoError;
      }
    }

    /** `onNumberPadDelete`. */
    method NumberPadDelete()
      modifies this
      ensures paymentPassword == PadBuffer.DeleteLast(old(paymentPassword))
      ensures error == NoError
      ensures isLoading == old(isLoading) && closed == old(closed)
    {
      paymentPassword := PadBuffer.DeleteLast(paymentPassword);
      error := NoError;
    }

    /** `onNumberPadClear`. */
    method NumberPadClear()
      modifies this
      ensures paymentPassword == "" && error == NoError
      ensures isLoading == old(isLoading) && closed == old(closed)
    {
      paymentPassword := "";
      error := NoError;
    }

    /** `handleSubmit` up to `await onSubmit(paymentPassword)`: the error is
        cleared, loading is set, and the buffer is what the callback gets. */
    method BeginSubmit() returns (password: string)
      modifies this
      ensures password == paymentPassword == old(paymentPassword)
      ensures error == NoError && isLoading && closed == old(closed)
    {
      error := NoError;
      isLoading := true;
      password := paymentPassword;
    }

    /** `handleSubmit` after the callback answered `isValid`: loading ends; a
        false answer sets the wrong-password error and keeps the modal open,
        a true answer calls `onClose`. */
    method FinishSubmit(isValid: bool)
      modifies this
      ensures !isLoading && paymentPassword == old(paymentPassword)
      ensures error == if isValid then old(error) else WrongPassword
      ensures closed == (old(closed) || isValid)
    {
      isLoading := false;
      if !isValid {
        error := WrongPassword;
        return;
      }
      closed := true;
    }
  }
}
