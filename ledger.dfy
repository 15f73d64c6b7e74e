/** The record shapes kept in the document store's three collections
    (`accounts`, `users`, `transactions`), the store itself as an object with
    one sequence per collection, and the first-match lookups every caller uses
    (`snapshot.docs[0]` of an equality query). */
module Ledger {
  import opened Common

  /** An `accounts` document. The balance field is spelled `valance` in the
      store, and so it is here. Timestamps are integer clock readings. The
      holder's name is copied from the auth profile's display name, which is
      null (None) for a user who signed up with email and password. */
  datatype AccountDoc = AccountDoc(
    id: string,
    number: string,
    username: Option<string>,
    userId: string,
    valance: int,
    createdAt: int,
    updatedAt: int,
    deletedAt: Option<int>)

  /** A `users` document: the profile holding the plaintext payment password. */
  datatype Profile = Profile(
    userId: string,
    username: string,
    paymentPassword: string,
    createdAt: int,
    updatedAt: int,
    deletedAt: Option<int>)

  /** A `transactions` document: a denormalised snapshot of both parties;
      the names are the account documents' possibly null names. The two
      times are the server timestamps' whole seconds (`Timestamp.seconds`),
      the resolution at which the history page compares them. */
  datatype TxRecord = TxRecord(
    id: string,
    senderName: Option<string>,
    senderNumber: string,
    receiverName: Option<string>,
    receiverNumber: string,
    amount: int,
    memo: string,
    createdAt: int,
    updatedAt: int,
    deletedAt: Option<int>)

  /** The signed-in identity as the auth provider exposes it. The display
      name is None unless a profile update set it; the sign-up form never
      does. */
  datatype AuthUser = AuthUser(uid: string, displayName: Option<string>)

  /** The document store. Each collection is kept in the order the store
      returns an unordered query's documents, which is document-id order.
      A new document (`addDoc`, or `set` on `doc(collection(...))`) gets a
      random id, so it lands at a position the model takes as an input
      (`InsertAt`). */
  class Db {
    var accounts: seq<AccountDoc>
    var users: seq<Profile>
    var transactions: seq<TxRecord>

    constructor (accounts: seq<AccountDoc>, users: seq<Profile>, transactions: seq<TxRecord>)
      ensures this.accounts == accounts && this.users == users && this.transactions == transactions
    {
      this.accounts := accounts;
      this.users := users;
      this.transactions := transactions;
    }
  }

  /** `query(accounts, where('number', '==', n))` followed by `docs[0]`. */
  function FindAccountByNumber(accounts: seq<AccountDoc>, n: string): (r: Option<AccountDoc>)
    ensures r.None? <==> forall i :: 0 <= i < |accounts| ==> accounts[i].number != n
    ensures r.Some? ==> exists i :: 0 <= i < |accounts| && accounts[i] == r.value &&
                          r.value.number == n &&
                          forall j :: 0 <= j < i ==> accounts[j].number != n
  {
    if |accounts| == 0 then None
    else if accounts[0].number == n then Some(accounts[0])
    else
      var r := FindAccountByNumber(accounts[1..], n);
      assert r.Some? ==> exists i :: 0 <= i < |accounts| && accounts[i] == r.value &&
                           r.value.number == n &&
                           forall j :: 0 <= j < i ==> accounts[j].number != n by {
        if r.Some? {
          var k :| 0 <= k < |accounts[1..]| && accounts[1..][k] == r.value &&
                   r.value.number == n &&
                   forall j :: 0 <= j < k ==> accounts[1..][j].number != n;
          assert accounts[k + 1] == r.value;
        }
      }
      r
  }

  /** `query(users, where('userId', '==', uid))` followed by `docs[0]`. */
  function FindProfile(users: seq<Profile>, uid: string): (r: Option<Profile>)
    ensures r.None? <==> forall i :: 0 <= i < |users| ==> users[i].userId != uid
    ensures r.Some? ==> exists i :: 0 <= i < |users| && users[i] == r.value &&
                          r.value.userId == uid &&
                          forall j :: 0 <= j < i ==> users[j].userId != uid
  {
    if |users| == 0 then None
    else if users[0].userId == uid then Some(users[0])
    else
      var r := FindProfile(users[1..], uid);
      assert r.Some? ==> exists i :: 0 <= i < |users| && users[i] == r.value &&
                           r.value.userId == uid &&
                           forall j :: 0 <= j < i ==> users[j].userId != uid by {
        if r.Some? {
          var k :| 0 <= k < |users[1..]| && users[1..][k] == r.value &&
                   r.value.userId == uid &&
                   forall j :: 0 <= j < k ==> users[1..][j].userId != uid;
          assert users[k + 1] == r.value;
        }
      }
      r
  }

  /** A document with a fresh random id added to a collection: in id order
      it lands at position `k`, before the documents from `k` on. */
  function InsertAt<T>(s: seq<T>, k: nat, x: T): (r: seq<T>)
    requires k <= |s|
    ensures |r| == |s| + 1 && r[k] == x
    ensures forall i :: 0 <= i < k ==> r[i] == s[i]
    ensures forall i :: k < i < |r| ==> r[i] == s[i - 1]
    ensures multiset(r) == multiset(s) + multiset{x}
  {
    assert s == s[..k] + s[k..];
    s[..k] + [x] + s[k..]
  }

  /** Where the profile `FindProfile` answers sits: the position of the
      user's first profile, or `|users|` when there is none. */
  function ProfileIndex(users: seq<Profile>, uid: string): (i: nat)
    ensures i <= |users|
    ensures forall j :: 0 <= j < i ==> users[j].userId != uid
    ensures i < |users| ==> users[i].userId == uid
    ensures FindProfile(users, uid) == if i < |users| then Some(users[i]) else None
  {
    if |users| == 0 || users[0].userId == uid then 0
    else 1 + ProfileIndex(users[1..], uid)
  }

  /** Adding a profile at position `k`: the lookup finds the new profile
      exactly when it belongs to the user and lands at or before the user's
      first existing profile (always, for a user with none); otherwise the
      lookup finds what it found before. */
  lemma {:induction false} FindProfileInsert(users: seq<Profile>, k: nat, p: Profile, uid: string)
    requires k <= |users|
    ensures FindProfile(InsertAt(users, k, p), uid) ==
            if p.userId == uid && k <= ProfileIndex(users, uid) then Some(p) else FindProfile(users, uid)
  {
    var r := InsertAt(users, k, p);
    if k == 0 {
      assert r[1..] == users;
    } else {
      assert r[0] == users[0];
      assert r[1..] == InsertAt(users[1..], k - 1, p);
      if users[0].userId != uid {
        FindProfileInsert(users[1..], k - 1, p, uid);
      }
    }
  }

  /** Every account document has its own id (the store assigns them). */
  predicate UniqueIds(accounts: seq<AccountDoc>) {
    forall i, j :: 0 <= i < j < |accounts| ==> accounts[i].id != accounts[j].id
  }

  predicate HasId(accounts: seq<AccountDoc>, id: string) {
    exists i :: 0 <= i < |accounts| && accounts[i].id == id
  }

  /** `batch.update(doc(accounts, id), { valance: v })`: every document with
      that id gets the new balance; nothing else changes. */
  function SetValance(accounts: seq<AccountDoc>, id: string, v: int): seq<AccountDoc> {
    seq(|accounts|, i requires 0 <= i < |accounts| =>
          if accounts[i].id == id then accounts[i].(valance := v) else accounts[i])
  }

  /** The sum of all balances in the store. */
  function TotalValance(accounts: seq<AccountDoc>): int {
    if |accounts| == 0 then 0 else accounts[0].valance + TotalValance(accounts[1..])
  }

  /** Replacing the balance of the one document with id `id` at index `k`
      changes the total by exactly the difference. */
  lemma {:induction false} SetValanceTotal(accounts: seq<AccountDoc>, k: nat, v: int)
    requires UniqueIds(accounts) && k < |accounts|
    ensures TotalValance(SetValance(accounts, accounts[k].id, v))
            == TotalValance(accounts) - accounts[k].valance + v
  {
    var id := accounts[k].id;
    var r := SetValance(accounts, id, v);
    if k == 0 {
      assert forall i :: 0 <= i < |accounts[1..]| ==> accounts[1..][i].id != id;
      UntouchedTotal(accounts[1..], id, v);
      assert r[1..] == SetValance(accounts[1..], id, v);
    } else {
      assert accounts[0].id != id;
      SetValanceTotal(accounts[1..], k - 1, v);
      assert r[1..] == SetValance(accounts[1..], id, v);
    }
  }

  /** When no document has the id, the update changes nothing. */
  lemma {:induction false} UntouchedTotal(accounts: seq<AccountDoc>, id: string, v: int)
    requires forall i :: 0 <= i < |accounts| ==> accounts[i].id != id
    ensures SetValance(accounts, id, v) == accounts
  {
  }

  lemma SetValanceKeepsIds(accounts: seq<AccountDoc>, id: string, v: int)
    requires UniqueIds(accounts)
    ensures UniqueIds(SetValance(accounts, id, v))
  {
  }

  /** `query(transactions, where('senderNumber', '==', n))`: the matching
      documents, none more often than stored (`SentByCounts` gives the
      exact multiplicity). */
  function SentBy(txs: seq<TxRecord>, n: string): (r: seq<TxRecord>)
    ensures forall t :: t in r <==> t in txs && t.senderNumber == n
    ensures multiset(r) <= multiset(txs)
  {
    if |txs| == 0 then []
    else
      assert txs == [txs[0]] + txs[1..];
      if txs[0].senderNumber == n then [txs[0]] + SentBy(txs[1..], n)
      else SentBy(txs[1..], n)
  }

  /** `query(transactions, where('receiverNumber', '==', n))`: the matching
      documents, none more often than stored (`ReceivedByCounts` gives the
      exact multiplicity). */
  function ReceivedBy(txs: seq<TxRecord>, n: string): (r: seq<TxRecord>)
    ensures forall t :: t in r <==> t in txs && t.receiverNumber == n
    ensures multiset(r) <= multiset(txs)
  {
    if |txs| == 0 then []
    else
      assert txs == [txs[0]] + txs[1..];
      if txs[0].receiverNumber == n then [txs[0]] + ReceivedBy(txs[1..], n)
      else ReceivedBy(txs[1..], n)
  }

  /** The sender query answers each matching document exactly as often as
      the store holds it, and no other. */
  lemma {:induction false} SentByCounts(txs: seq<TxRecord>, n: string)
    ensures forall t :: multiset(SentBy(txs, n))[t] == if t.senderNumber == n then multiset(txs)[t] else 0
  {
    if |txs| > 0 {
      SentByCounts(txs[1..], n);
      assert txs == [txs[0]] + txs[1..];
    }
  }

  /** The receiver query answers each matching document exactly as often as
      the store holds it, and no other. */
  lemma {:induction false} ReceivedByCounts(txs: seq<TxRecord>, n: string)
    ensures forall t :: multiset(ReceivedBy(txs, n))[t] == if t.receiverNumber == n then multiset(txs)[t] else 0
  {
    if |txs| > 0 {
      ReceivedByCounts(txs[1..], n);
      assert txs == [txs[0]] + txs[1..];
    }
  }

  /** Newest first by `createdAt`, as `orderBy('createdAt', 'desc')` returns. */
  predicate NewestFirst(txs: seq<TxRecord>) {
    forall i, j :: 0 <= i < j < |txs| ==> txs[i].createdAt >= txs[j].createdAt
  }
}
