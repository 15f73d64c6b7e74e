/** The transfer page. The form holds a receiver number, an amount and a memo.
    Submitting checks, in this order: the form, the self-transfer, the
    balance, then whether the receiver exists; only then does the
    payment-password modal open. The modal's password is checked against the
    sender's stored profile, and a match commits one write batch: the sender
    is debited from the page's snapshot of its balance, the receiver is
    credited from a fresh read of its balance, and one transaction record is
    added. */
module Transfer {
  import opened Common
  import opened Ledger
  import PaymentPasswordModal
  import UpdateUserInfoModal

  datatype TransferError =
    | NoError
    | SameAccount
    | InsufficientFunds(valance: int)
    | ReceiverNotFound
    | LookupFailed
    | PaymentCheckFailed
    | TransferFailed

  /** The receiver shown in the modal; the name is the account document's,
      null included. It starts as two empty strings. */
  datatype ReceiverInfo = ReceiverInfo(accountNumber: string, name: Option<string>)

  /** What the synchronous part of `onSubmit` decides. */
  datatype Outcome = Ignored | Rejected(error: TransferError) | Lookup

  /** The amount field as `+amount` reads it: the empty text is 0. */
  function AmountValue(amount: Option<int>): int {
    if amount.None? then 0 else amount.value
  }

  /** `onSubmit` before the lookup. A submit while loading or with an empty
      receiver or amount is ignored; then the self-transfer and then the
      balance are checked. An amount of zero or below passes both checks. */
  function SubmitGuard(isLoading: bool, receiver: string, amount: Option<int>, account: AccountDoc): (o: Outcome)
    ensures o.Ignored? <==> isLoading || receiver == "" || amount.None?
    ensures o == Rejected(SameAccount) <==> !o.Ignored? && receiver == account.number
    ensures o == Rejected(InsufficientFunds(account.valance)) <==>
              !o.Ignored? && receiver != account.number && amount.value > account.valance
    ensures o.Rejected? ==> o.error == SameAccount || o.error == InsufficientFunds(account.valance)
    ensures o.Lookup? <==> !o.Ignored? && receiver != account.number && amount.value <= account.valance
  {
    if isLoading || receiver == "" || amount.None? then Ignored
    else if receiver == account.number then Rejected(SameAccount)
    else if amount.value > account.valance then Rejected(InsufficientFunds(account.valance))
    else Lookup
  }

  /** The self-transfer check comes first: a transfer to the own account is
      refused as such even when the amount also exceeds the balance. */
  lemma SelfTransferCheckedFirst(receiver: string, amount: int, account: AccountDoc)
    requires receiver != "" && receiver == account.number
    ensures SubmitGuard(false, receiver, Some(amount), account) == Rejected(SameAccount)
  {
  }

  /** No positivity check: any amount up to the balance, zero or negative
      included, goes on to the lookup. */
  lemma NonPositiveAmountAccepted(receiver: string, amount: int, account: AccountDoc)
    requires receiver != "" && receiver != account.number && amount <= 0 <= account.valance
    ensures SubmitGuard(false, receiver, Some(amount), account) == Lookup
  {
  }

  /** What the receiver lookup leads to. */
  datatype LookupResult = LookupError(error: TransferError) | Found(info: ReceiverInfo)

  /** `onSubmit` after the lookup (`ok` false: the query threw). */
  function LookupOutcome(ok: bool, accounts: seq<AccountDoc>, receiver: string): (r: LookupResult)
    ensures r == LookupError(LookupFailed) <==> !ok
    ensures r == LookupError(ReceiverNotFound) <==> ok && FindAccountByNumber(accounts, receiver).None?
    ensures r.Found? <==> ok && FindAccountByNumber(accounts, receiver).Some?
    ensures r.Found? ==> r.info == ReceiverInfo(receiver, FindAccountByNumber(accounts, receiver).value.username)
  {
    if !ok then LookupError(LookupFailed)
    else
      match FindAccountByNumber(accounts, receiver)
      case None => LookupError(ReceiverNotFound)
      case Some(d) => Found(ReceiverInfo(receiver, d.username))
  }

  /** The password modal opens only when every check passed: the form was
      filled, the receiver is another account, the amount is within the
      balance, and an account with the receiver's number exists, whose
      holder's name is then shown. */
  lemma ModalOpensOnlyAfterChecks(isLoading: bool, receiver: string, amount: Option<int>,
                                  account: AccountDoc, ok: bool, accounts: seq<AccountDoc>)
    requires SubmitGuard(isLoading, receiver, amount, account).Lookup?
    requires LookupOutcome(ok, accounts, receiver).Found?
    ensures !isLoading && receiver != "" && amount.Some?
    ensures receiver != account.number && amount.value <= account.valance
    ensures exists i :: 0 <= i < |accounts| && accounts[i].number == receiver &&
              LookupOutcome(ok, accounts, receiver).info.name == accounts[i].username &&
              forall j :: 0 <= j < i ==> accounts[j].number != receiver
    ensures LookupOutcome(ok, accounts, receiver).info.accountNumber == receiver
  {
    var d := FindAccountByNumber(accounts, receiver).value;
    var i :| 0 <= i < |accounts| && accounts[i] == d && d.number == receiver &&
             forall j :: 0 <= j < i ==> accounts[j].number != receiver;
    assert accounts[i].username == LookupOutcome(ok, accounts, receiver).info.name;
  }

  /** `validatePaymentPassword` (`ok` false: the query threw): true exactly
      when the first profile of the user holds this very password. */
  function CheckPassword(users: seq<Profile>, userId: string, password: string, ok: bool): (valid: bool)
    ensures valid ==> ok && (exists i :: 0 <= i < |users| && users[i].userId == userId &&
                               users[i].paymentPassword == password &&
                               forall j :: 0 <= j < i ==> users[j].userId != userId)
    ensures !valid ==> !ok || FindProfile(users, userId).None? || FindProfile(users, userId).value.paymentPassword != password
  {
    ok && match FindProfile(users, userId)
          case None => false
          case Some(p) => p.paymentPassword == password
  }

  /** The payment password a user chose in the profile modal unlocks their
      transfers, and no other password does. The profile's random id puts it
      at position `k` of the collection: for a user who already has a
      profile it takes over exactly when it lands at or before the first
      one, and otherwise the first one keeps deciding. */
  lemma ProfileUnlocksTransfers(users: seq<Profile>, k: nat, user: AuthUser, username: string,
                                chosen: string, createdAt: int, updatedAt: int, typed: string)
    requires UpdateUserInfoModal.Decide(false, Some(user), username, chosen, createdAt, updatedAt).Write?
    requires k <= |users|
    ensures var p := UpdateUserInfoModal.Decide(false, Some(user), username, chosen, createdAt, updatedAt).profile;
            FindProfile(users, user.uid).None? ==>
              (CheckPassword(InsertAt(users, k, p), user.uid, typed, true) <==> typed == chosen)
    ensures var p := UpdateUserInfoModal.Decide(false, Some(user), username, chosen, createdAt, updatedAt).profile;
            FindProfile(users, user.uid).Some? ==>
              CheckPassword(InsertAt(users, k, p), user.uid, typed, true) ==
                if k <= ProfileIndex(users, user.uid) then typed == chosen
                else CheckPassword(users, user.uid, typed, true)
  {
    var p := UpdateUserInfoModal.Decide(false, Some(user), username, chosen, createdAt, updatedAt).profile;
    FindProfileInsert(users, k, p, user.uid);
  }

  /** The transaction document the batch adds. */
  function TransferRecord(sender: AccountDoc, receiverDoc: AccountDoc, receiverNumber: string,
                          amount: int, memo: string, newId: string, now: int): (t: TxRecord)
    ensures t.senderName == sender.username && t.senderNumber == sender.number
    ensures t.receiverName == receiverDoc.username && t.receiverNumber == receiverNumber
    ensures t.amount == amount && t.memo == memo && t.id == newId
    ensures t.createdAt == now && t.updatedAt == now && t.deletedAt.None?
  {
    TxRecord(newId, sender.username, sender.number, receiverDoc.username, receiverNumber,
             amount, memo, now, now, None)
  }

  /** The two collections after a batch. */
  datatype Batch = Batch(accounts: seq<AccountDoc>, transactions: seq<TxRecord>)

  /** `updateTransaction`'s batch on a store that answers: the receiver is
      re-read by number (none found makes `receiverDoc.id` throw, so nothing
      is written), the sender is updated by its snapshot's id (an update of a
      missing document fails the whole batch), and the writes apply in order. */
  function Commit(accounts: seq<AccountDoc>, transactions: seq<TxRecord>, sender: AccountDoc,
                  receiverNumber: string, amount: int, memo: string, newId: string, now: int, pos: nat): (r: Option<Batch>)
    requires pos <= |transactions|
    ensures r.None? <==> FindAccountByNumber(accounts, receiverNumber).None? || !HasId(accounts, sender.id)
    ensures r.Some? ==>
              var rd := FindAccountByNumber(accounts, receiverNumber).value;
              && r.value.transactions == InsertAt(transactions, pos, TransferRecord(sender, rd, receiverNumber, amount, memo, newId, now))
              && |r.value.accounts| == |accounts|
  {
    match FindAccountByNumber(accounts, receiverNumber)
    case None => None
    case Some(rd) =>
      if !HasId(accounts, sender.id) then None
      else
        var debited := SetValance(accounts, sender.id, sender.valance - amount);
        var credited := SetValance(debited, rd.id, rd.valance + amount);
        Some(Batch(credited, InsertAt(transactions, pos, TransferRecord(sender, rd, receiverNumber, amount, memo, newId, now))))
  }

  /** What the batch does to the accounts: the receiver document gets its
      re-read balance plus the amount, the sender document its snapshot
      balance minus the amount (the later write wins if they are the same
      document), and every other account is unchanged. */
  lemma CommitBalances(accounts: seq<AccountDoc>, transactions: seq<TxRecord>, sender: AccountDoc,
                       receiverNumber: string, amount: int, memo: string, newId: string, now: int, pos: nat)
    requires pos <= |transactions|
    requires Commit(accounts, transactions, sender, receiverNumber, amount, memo, newId, now, pos).Some?
    ensures var r := Commit(accounts, transactions, sender, receiverNumber, amount, memo, newId, now, pos).value;
            var rd := FindAccountByNumber(accounts, receiverNumber).value;
            forall i :: 0 <= i < |accounts| ==>
              r.accounts[i] ==
                if accounts[i].id == rd.id then accounts[i].(valance := rd.valance + amount)
                else if accounts[i].id == sender.id then accounts[i].(valance := sender.valance - amount)
                else accounts[i]
  {
  }

  /** The sum of all balances after a batch moves by exactly how far the
      page's snapshot of the sender's balance is from the stored one: with a
      current snapshot the batch conserves the total, and a snapshot that went
      stale (another transfer in between) creates or destroys that much. */
  lemma CommitTotal(accounts: seq<AccountDoc>, transactions: seq<TxRecord>, sender: AccountDoc,
                    receiverNumber: string, amount: int, memo: string, newId: string, now: int, pos: nat, k: nat)
    requires pos <= |transactions|
    requires UniqueIds(accounts) && k < |accounts| && accounts[k].id == sender.id
    requires FindAccountByNumber(accounts, receiverNumber).Some?
    requires FindAccountByNumber(accounts, receiverNumber).value.id != sender.id
    ensures var c := Commit(accounts, transactions, sender, receiverNumber, amount, memo, newId, now, pos);
            && c.Some?
            && TotalValance(c.value.accounts) == TotalValance(accounts) + sender.valance - accounts[k].valance
            && (accounts[k].valance == sender.valance ==> TotalValance(c.value.accounts) == TotalValance(accounts))
  {
    var rd := FindAccountByNumber(accounts, receiverNumber).value;
    var m := FindAccountIndex(accounts, receiverNumber);
    CommitAccounts(accounts, transactions, sender, receiverNumber, amount, memo, newId, now, pos, k);
    DebitCreditTotal(accounts, k, m, sender.id, sender.valance - amount, rd.id, rd.valance + amount);
  }

  /** With both documents present, the batch's accounts are the two updates
      in order. */
  lemma CommitAccounts(accounts: seq<AccountDoc>, transactions: seq<TxRecord>, sender: AccountDoc,
                       receiverNumber: string, amount: int, memo: string, newId: string, now: int, pos: nat, k: nat)
    requires pos <= |transactions|
    requires k < |accounts| && accounts[k].id == sender.id
    requires FindAccountByNumber(accounts, receiverNumber).Some?
    ensures var c := Commit(accounts, transactions, sender, receiverNumber, amount, memo, newId, now, pos);
            var rd := FindAccountByNumber(accounts, receiverNumber).value;
            && c.Some?
            && c.value.accounts == SetValance(SetValance(accounts, sender.id, sender.valance - amount), rd.id, rd.valance + amount)
  {
    assert HasId(accounts, sender.id);
  }

  /** Where the first account with a number sits. */
  lemma FindAccountIndex(accounts: seq<AccountDoc>, n: string) returns (m: nat)
    requires FindAccountByNumber(accounts, n).Some?
    ensures m < |accounts| && accounts[m] == FindAccountByNumber(accounts, n).value
  {
    m :| 0 <= m < |accounts| && accounts[m] == FindAccountByNumber(accounts, n).value &&
         accounts[m].number == n && forall j :: 0 <= j < m ==> accounts[j].number != n;
  }

  /** Two balance updates on two distinct documents change the total by
      the two differences. */
  lemma DebitCreditTotal(accounts: seq<AccountDoc>, k: nat, m: nat, a: string, sv: int, b: string, rv: int)
    requires UniqueIds(accounts) && k < |accounts| && m < |accounts| && k != m
    requires accounts[k].id == a && accounts[m].id == b
    ensures TotalValance(SetValance(SetValance(accounts, a, sv), b, rv))
            == TotalValance(accounts) - accounts[k].valance + sv - accounts[m].valance + rv
  {
    var debited := SetValance(accounts, a, sv);
    SetValanceTotal(accounts, k, sv);
    SetValanceKeepsIds(accounts, a, sv);
    assert debited[m] == accounts[m];
    SetValanceTotal(debited, m, rv);
  }

  // ---------------------------------------------------------------------
  // The page's state

  class TransferPage {
    const db: Db
    /** The sender's account as the previous page handed it over; it is not
        re-read before the debit. */
    const account: AccountDoc
    var receiver: string
    /** None while the amount field is empty. */
    var amount: Option<int>
    var memo: string
    var isLoading: bool
    var showPasswordModal: bool
    var receiverInfo: ReceiverInfo
    var error: TransferError
    /** Whether the page navigated to the completion page. */
    var completed: bool
    /** The receiver number whose lookup is in flight, if any. */
    var lookupPending: Option<string>

    /** The form starts with the receiver handed over (or empty) and no
        amount or memo. */
    constructor (db: Db, account: AccountDoc, receiver: string)
      ensures this.db == db && this.account == account && this.receiver == receiver
      ensures amount.None? && memo == "" && !isLoading && !showPasswordModal
      ensures receiverInfo == ReceiverInfo("", Some("")) && error == NoError && !completed && lookupPending.None?
    {
      this.db := db;
      this.account := account;
      this.receiver := receiver;
      amount := None;
      memo := "";
      isLoading := false;
      showPasswordModal := false;
      receiverInfo := ReceiverInfo("", Some(""));
      error := NoError;
      completed := false;
      lookupPending := None;
    }

    /** `onChange` on the receiver field. */
    method ChangeReceiver(value: string)
      modifies this
      ensures receiver == value && amount == old(amount) && memo == old(memo)
      ensures isLoading == old(isLoading) && showPasswordModal == old(showPasswordModal)
      ensures receiverInfo == old(receiverInfo) && error == old(error)
      ensures completed == old(completed) && lookupPending == old(lookupPending)
    {
      receiver := value;
    }

    /** `onChange` on the amount field. */
    method ChangeAmount(value: Option<int>)
      modifies this
      ensures amount == value && receiver == old(receiver) && memo == old(memo)
      ensures isLoading == old(isLoading) && showPasswordModal == old(showPasswordModal)
      ensures receiverInfo == old(receiverInfo) && error == old(error)
      ensures completed == old(completed) && lookupPending == old(lookupPending)
    {
      amount := value;
    }

    /** `onChange` on the memo field. */
    method ChangeMemo(value: string)
      modifies this
      ensures memo == value && receiver == old(receiver) && amount == old(amount)
      ensures isLoading == old(isLoading) && showPasswordModal == old(showPasswordModal)
      ensures receiverInfo == old(receiverInfo) && error == old(error)
      ensures completed == old(completed) && lookupPending == old(lookupPending)
    {
      memo := value;
    }

    /** `onSubmit` up to the lookup's await. The error is cleared first;
        a refused submit sets its error; an accepted one starts loading and
        the lookup of the typed receiver. The modal stays as it was and the
        store is not touched. */
    method Submit() returns (started: bool)
      modifies this
      ensures var o := SubmitGuard(old(isLoading), old(receiver), old(amount), account);
              && started == o.Lookup?
              && error == (if o.Rejected? then o.error else NoError)
              && isLoading == (old(isLoading) || o.Lookup?)
              && lookupPending == (if o.Lookup? then Some(old(receiver)) else old(lookupPending))
      ensures showPasswordModal == old(showPasswordModal) && receiverInfo == old(receiverInfo)
      ensures receiver == old(receiver) && amount == old(amount) && memo == old(memo) && completed == old(completed)
    {
      error := NoError;
      var o := SubmitGuard(isLoading, receiver, amount, account);
      started := false;
      match o {
        case Ignored =>
        case Rejected(e) =>
          error := e;
        case Lookup =>
          isLoading := true;
          lookupPending := Some(receiver);
          started := true;
      }
    }

    /** The lookup answered (`ok` false: it threw). A found receiver is shown
        and the password modal opens; otherwise the matching error is set and
        the modal stays closed. Loading ends either way. */
    method LookupReturned(ok: bool)
      requires lookupPending.Some?
      modifies this
      ensures var r := LookupOutcome(ok, db.accounts, old(lookupPending).value);
              && (r.Found? ==> receiverInfo == r.info && showPasswordModal && error == old(error))
              && (r.LookupError? ==> receiverInfo == old(receiverInfo) &&
                                     showPasswordModal == old(showPasswordModal) && error == r.error)
      ensures !isLoading && lookupPending.None?
      ensures receiver == old(receiver) && amount == old(amount) && memo == old(memo) && completed == old(completed)
    {
      var r := LookupOutcome(ok, db.accounts, lookupPending.value);
      match r {
        case LookupError(e) =>
          error := e;
        case Found(info) =>
          receiverInfo := info;
          showPasswordModal := true;
      }
      isLoading := false;
      lookupPending := None;
    }

    /** `validatePaymentPassword`: reads the store only; a failing query sets
        the error and answers false. */
    method ValidatePaymentPassword(password: string, ok: bool) returns (valid: bool)
      modifies this
      ensures valid == CheckPassword(db.users, account.userId, password, ok)
      ensures error == if ok then old(error) else PaymentCheckFailed
      ensures receiver == old(receiver) && amount == old(amount) && memo == old(memo)
      ensures isLoading == old(isLoading) && showPasswordModal == old(showPasswordModal)
      ensures receiverInfo == old(receiverInfo) && completed == old(completed) && lookupPending == old(lookupPending)
    {
      if !ok {
        error := PaymentCheckFailed;
        valid := false;
        return;
      }
      match FindProfile(db.users, account.userId)
      case None =>
        valid := false;
      case Some(p) =>
        valid := p.paymentPassword == password;
    }

    /** `updateTransaction` (`ok` false: a store call threw). When the batch
        goes through, the two balances and the one new record are written and
        the page moves on; otherwise nothing is written and the error is set.
        Profiles are never written. Loading ends either way. */
    method UpdateTransaction(ok: bool, newId: string, now: int, pos: nat)
      requires pos <= |db.transactions|
      modifies this, db
      ensures var c := Commit(old(db.accounts), old(db.transactions), account, old(receiver),
                              AmountValue(old(amount)), old(memo), newId, now, pos);
              if ok && c.Some? then
                db.accounts == c.value.accounts && db.transactions == c.value.transactions &&
                completed && error == old(error)
              else
                db.accounts == old(db.accounts) && db.transactions == old(db.transactions) &&
                completed == old(completed) && error == TransferFailed
      ensures db.users == old(db.users) && !isLoading
      ensures receiver == old(receiver) && amount == old(amount) && memo == old(memo)
      ensures showPasswordModal == old(showPasswordModal) && receiverInfo == old(receiverInfo)
      ensures lookupPending == old(lookupPending)
    {
      isLoading := true;
      var c := Commit(db.accounts, db.transactions, account, receiver, AmountValue(amount), memo, newId, now, pos);
      if ok && c.Some? {
        db.accounts := c.value.accounts;
        db.transactions := c.value.transactions;
        completed := true;
      } else {
        error := TransferFailed;
      }
      isLoading := false;
    }

    /** `handlePasswordSubmit`: the batch runs only after a successful check,
        and the answer is the check's, whatever the batch does. */
    method HandlePasswordSubmit(password: string, checkOk: bool, writeOk: bool, newId: string, now: int, pos: nat)
      returns (isValid: bool)
      requires pos <= |db.transactions|
      modifies this, db
      ensures isValid == CheckPassword(old(db.users), account.userId, password, checkOk)
      ensures db.users == old(db.users)
      ensures !isValid ==> db.accounts == old(db.accounts) && db.transactions == old(db.transactions) &&
                           completed == old(completed)
      ensures isValid ==>
                var c := Commit(old(db.accounts), old(db.transactions), account, old(receiver),
                                AmountValue(old(amount)), old(memo), newId, now, pos);
                if writeOk && c.Some? then
                  db.accounts == c.value.accounts && db.transactions == c.value.transactions && completed
                else
                  db.accounts == old(db.accounts) && db.transactions == old(db.transactions) &&
                  error == TransferFailed
      ensures receiver == old(receiver) && amount == old(amount) && memo == old(memo)
      ensures showPasswordModal == old(showPasswordModal)
    {
      isValid := ValidatePaymentPassword(password, checkOk);
      if isValid {
        UpdateTransaction(writeOk, newId, now, pos);
      }
    }
  }

  /** The modal's submit wired to the page: the modal hands its buffer to
      `handlePasswordSubmit` and, on a true answer, calls `onClose`, which
      hides the modal on the page. A wrong password leaves both open and the
      store as it was. */
  method ConfirmInModal(page: TransferPage, modal: PaymentPasswordModal.PaymentPasswordModal,
                        checkOk: bool, writeOk: bool, newId: string, now: int, pos: nat)
    requires page.showPasswordModal && !modal.closed
    requires pos <= |page.db.transactions|
    modifies page, page.db, modal
    ensures var valid := CheckPassword(old(page.db.users), page.account.userId, old(modal.paymentPassword), checkOk);
            && modal.closed == valid
            && page.showPasswordModal == !valid
            && modal.error == (if valid then PaymentPasswordModal.NoError else PaymentPasswordModal.WrongPassword)
            && (!valid ==> page.db.accounts == old(page.db.accounts) && page.db.transactions == old(page.db.transactions))
    ensures !modal.isLoading && page.db.users == old(page.db.users)
  {
    var password := modal.BeginSubmit();
    var isValid := page.HandlePasswordSubmit(password, checkOk, writeOk, newId, now, pos);
    modal.FinishSubmit(isValid);
    if modal.closed {
      page.showPasswordModal := false;
    }
  }
}
