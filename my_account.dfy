/** Account provisioning, the "open account" button of the account card
    (`onOpenAccountBtnClick`): when the signed-in user has no account yet,
    one account document is added with a generated number and a random
    opening balance. The twelve digit draws, the balance draw r in [0, 1),
    the new document id and the two clock readings are inputs. */
module MyAccount {
  import opened Common
  import opened Ledger
  import AccountNumber

  const MinValance: int := 1000000
  const MaxValance: int := 100000000

  /** `Math.floor(r * (maxValance - minValance) + minValance)` on exact reals. */
  function InitialValance(r: real): (v: int)
    requires 0.0 <= r < 1.0
    ensures MinValance <= v < MaxValance
    ensures v as real <= r * (MaxValance - MinValance) as real + MinValance as real < v as real + 1.0
  {
    (r * (MaxValance - MinValance) as real + MinValance as real).Floor
  }

  /** The record `addDoc` receives, or None when the guard
      `if (account || !user) return` stops the handler. The card's only
      caller, the home page, passes no account, so in the program `account`
      is always None: the guard stops only a signed-out click, the open button
      is always shown, and every click adds one more account with a new
      number. The `account.Some?` case models the component on its own.
      `createdAt` and `updatedAt` are two separate `Date.now()` readings,
      which need not be equal; the holder name is the display name as it is,
      null included. */
  function OpenAccountRecord(account: Option<AccountDoc>, user: Option<AuthUser>,
                             draws: seq<int>, r: real, newId: string, createdAt: int, updatedAt: int): (rec: Option<AccountDoc>)
    requires AccountNumber.ValidDraws(draws) && 0.0 <= r < 1.0
    ensures rec.Some? <==> account.None? && user.Some?
    ensures rec.Some? ==>
              && rec.value.id == newId
              && rec.value.number == AccountNumber.Generate(draws)
              && AccountNumber.IsAccountNumber(rec.value.number)
              && MinValance <= rec.value.valance <= MaxValance - 1
              && rec.value.username == user.value.displayName
              && rec.value.userId == user.value.uid
              && rec.value.createdAt == createdAt && rec.value.updatedAt == updatedAt
              && rec.value.deletedAt == None
  {
    if account.Some? || user.None? then None
    else
      AccountNumber.GenerateFormat(draws);
      Some(AccountDoc(newId, AccountNumber.Generate(draws), user.value.displayName, user.value.uid,
                      InitialValance(r), createdAt, updatedAt, None))
  }

  /** The click handler against the store. The new document's random id
      puts it at position `pos` of the collection. A failed `addDoc` is only
      logged, so the store is then unchanged. Nothing but the one account is
      written. */
  method OpenAccount(db: Db, account: Option<AccountDoc>, user: Option<AuthUser>,
                     draws: seq<int>, r: real, newId: string, createdAt: int, updatedAt: int,
                     pos: nat, writeOk: bool)
    requires AccountNumber.ValidDraws(draws) && 0.0 <= r < 1.0
    requires pos <= |db.accounts|
    modifies db
    ensures db.users == old(db.users) && db.transactions == old(db.transactions)
    ensures var rec := OpenAccountRecord(account, user, draws, r, newId, createdAt, updatedAt);
            db.accounts == if rec.Some? && writeOk then InsertAt(old(db.accounts), pos, rec.value) else old(db.accounts)
  {
    var rec := OpenAccountRecord(account, user, draws, r, newId, createdAt, updatedAt);
    if rec.Some? && writeOk {
      db.accounts := InsertAt(db.accounts, pos, rec.value);
    }
  }

  /** Wherever its random id puts the new account, a first-match lookup by
      its number finds it when no other account already has that number
      (uniqueness is not enforced). */
  lemma {:induction false} ProvisionedIsFound(accounts: seq<AccountDoc>, pos: nat, rec: AccountDoc)
    requires pos <= |accounts|
    requires forall i :: 0 <= i < |accounts| ==> accounts[i].number != rec.number
    ensures FindAccountByNumber(InsertAt(accounts, pos, rec), rec.number) == Some(rec)
  {
    var r := InsertAt(accounts, pos, rec);
    if pos > 0 {
      assert r[0] == accounts[0];
      assert r[1..] == InsertAt(accounts[1..], pos - 1, rec);
      ProvisionedIsFound(accounts[1..], pos - 1, rec);
    }
  }
}
