/** The first-login modal that creates the user's profile: a display name and
    a six-digit payment password typed on the keypad. Submitting validates the
    form, then awaits `addDoc(users, profile)`; the model splits the handler
    at that await into `Submit` and `WriteFinished`. */
module UpdateUserInfoModal {
  import opened Common
  import opened Ledger
  import PadBuffer

  datatype InfoError = NoError | NotSixDigits | SaveFailed

  /** What the synchronous part of `onSubmit` decides. */
  datatype Decision = Ignored | Invalid | Write(profile: Profile)

  /** `onSubmit` before the await: a submit while loading, without a user, or
      with either field empty does nothing; a password other than six decimal
      digits is refused; otherwise this profile is written, its two
      timestamps being two separate `Date.now()` readings. */
  function Decide(isLoading: bool, user: Option<AuthUser>, username: string,
                  paymentPassword: string, createdAt: int, updatedAt: int): (d: Decision)
    ensures d.Ignored? <==> isLoading || user.None? || username == "" || paymentPassword == ""
    ensures d.Invalid? <==> !d.Ignored? && !PadBuffer.IsSixDigits(paymentPassword)
    ensures d.Write? ==>
              && PadBuffer.IsSixDigits(paymentPassword)
              && d.profile == Profile(user.value.uid, username, paymentPassword, createdAt, updatedAt, None)
  {
    if isLoading || user.None? || username == "" || paymentPassword == "" then Ignored
    else if !PadBuffer.IsSixDigits(paymentPassword) then Invalid
    else Write(Profile(user.value.uid, username, paymentPassword, createdAt, updatedAt, None))
  }

  class UpdateUserInfoModal {
    const db: Db
    const user: Option<AuthUser>
    var username: string
    var paymentPassword: string
    var error: InfoError
    var isLoading: bool
    /** Whether `onClose` has been called. */
    var closed: bool
    /** The profile whose `addDoc` is in flight, if any. */
    var pending: Option<Profile>

    constructor (db: Db, user: Option<AuthUser>)
      ensures this.db == db && this.user == user
      ensures username == "" && paymentPassword == "" && error == NoError
      ensures !isLoading && !closed && pending == None
    {
      this.db := db;
      this.user := user;
      username := "";
      paymentPassword := "";
      error := NoError;
      isLoading := false;
      closed := false;
      pending := None;
    }

    /** `onChange` on the name field. */
    method ChangeUsername(value: string)
      modifies this
      ensures username == value && paymentPassword == old(paymentPassword)
      ensures error == old(error) && isLoading == old(isLoading) && closed == old(closed) && pending == old(pending)
    {
      username := value;
    }

    /** `onNumberPadClick`. */
    method NumberPadClick(value: string)
      modifies this
      ensures paymentPassword == PadBuffer.Append(old(paymentPassword), value)
      ensures username == old(username) && error == old(error)
      ensures isLoading == old(isLoading) && closed == old(closed) && pending == old(pending)
    {
      if |paymentPassword| < PadBuffer.MaxLength {
        paymentPassword := paymentPassword + value;
      }
    }

    /** `onNumberPadDelete`. */
    method NumberPadDelete()
      modifies this
      ensures paymentPassword == PadBuffer.DeleteLast(old(paymentPassword))
      ensures username == old(username) && error == old(error)
      ensures isLoading == old(isLoading) && closed == old(closed) && pending == old(pending)
    {
      paymentPassword := PadBuffer.DeleteLast(paymentPassword);
    }

    /** `onNumberPadClear`. */
    method NumberPadClear()
      modifies this
      ensures paymentPassword == ""
      ensures username == old(username) && error == old(error)
      ensures isLoading == old(isLoading) && closed == old(closed) && pending == old(pending)
    {
      paymentPassword := "";
    }

    /** `onSubmit` up to the await. The error is cleared first, whatever
        follows. Nothing is written here. */
    method Submit(createdAt: int, updatedAt: int) returns (started: bool)
      modifies this
      ensures var d := Decide(old(isLoading), user, old(username), old(paymentPassword), createdAt, updatedAt);
              && started == d.Write?
              && error == (if d.Invalid? then NotSixDigits else NoError)
              && isLoading == (old(isLoading) || d.Write?)
              && pending == (if d.Write? then Some(d.profile) else old(pending))
      ensures username == old(username) && paymentPassword == old(paymentPassword) && closed == old(closed)
    {
      error := NoError;
      var d := Decide(isLoading, user, username, paymentPassword, createdAt, updatedAt);
      started := false;
      if d.Ignored? {
        return;
      }
      if d.Invalid? {
        error := NotSixDigits;
        return;
      }
      isLoading := true;
      pending := Some(d.profile);
      started := true;
    }

    /** The `addDoc` answered. On success the one profile is stored, at the
        position `pos` its random id gives it, and the modal closes; on failure the error is set and the modal stays open.
        Loading ends either way. */
    method WriteFinished(ok: bool, pos: nat)
      requires pending.Some? && pos <= |db.users|
      modifies this, db
      ensures db.accounts == old(db.accounts) && db.transactions == old(db.transactions)
      ensures db.users == if ok then InsertAt(old(db.users), pos, old(pending).value) else old(db.users)
      ensures closed == (old(closed) || ok)
      ensures error == if ok then old(error) else SaveFailed
      ensures !isLoading && pending == None
      ensures username == old(username) && paymentPassword == old(paymentPassword)
    {
      if ok {
        db.users := InsertAt(db.users, pos, pending.value);
        closed := true;
      } else {
        error := SaveFailed;
      }
      isLoading := false;
      pending := None;
    }
  }
}
