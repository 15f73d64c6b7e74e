/** The transaction history page. It queries the account's sent and received
    transactions, lays the two answers end to end, sorts the result in place
    newest first, classifies every document as a send or a receive with the
    other party as counterpart, filters the rows three ways and shows them
    ten to a page. */
module TransactionHistory {
  import opened Common
  import opened Ledger
  import Paging

  const ItemsPerPage: nat := 10

  datatype Kind = Send | Receive

  /** The filter buttons: 'all', 'send', 'receive'. */
  datatype Filter = All | OnlySend | OnlyReceive

  /** One history row. `amount` is the stored amount, without a sign; `date`
      is `createdAt` (its locale formatting is not modelled). */
  datatype HistoryRow = HistoryRow(
    id: string,
    kind: Kind,
    accountName: Option<string>,
    accountNumber: string,
    amount: int,
    date: int,
    memo: string)

  /** The two queries' answers: the sent ones followed by the received ones. */
  function Merge(store: seq<TxRecord>, n: string): (merged: seq<TxRecord>)
    ensures |merged| == |SentBy(store, n)| + |ReceivedBy(store, n)|
    ensures merged[..|SentBy(store, n)|] == SentBy(store, n)
    ensures merged[|SentBy(store, n)|..] == ReceivedBy(store, n)
  {
    SentBy(store, n) + ReceivedBy(store, n)
  }

  /** The account is a party to the document, as both queries guarantee. */
  predicate IsParty(n: string, d: TxRecord) {
    d.senderNumber == n || d.receiverNumber == n
  }

  predicate AllParties(n: string, docs: seq<TxRecord>) {
    forall i :: 0 <= i < |docs| ==> IsParty(n, docs[i])
  }

  /** Every merged document involves the account. */
  lemma MergedAllParties(store: seq<TxRecord>, n: string, docs: seq<TxRecord>)
    requires multiset(docs) == multiset(Merge(store, n))
    ensures AllParties(n, docs)
  {
    forall i | 0 <= i < |docs| ensures IsParty(n, docs[i]) {
      assert docs[i] in multiset(docs);
      assert docs[i] in Merge(store, n);
    }
  }

  /** The `map` callback: a document the account sent is a send to the
      receiver; otherwise the account received it and it is a receive from
      the sender. Identifier, amount, memo and time are copied unchanged. */
  function Classify(n: string, d: TxRecord): (r: HistoryRow)
    requires IsParty(n, d)
    ensures r.id == d.id && r.amount == d.amount && r.memo == d.memo && r.date == d.createdAt
    ensures r.kind == Send <==> d.senderNumber == n
    ensures r.kind == Receive ==> d.receiverNumber == n
    ensures r.kind == Send ==> r.accountName == d.receiverName && r.accountNumber == d.receiverNumber
    ensures r.kind == Receive ==> r.accountName == d.senderName && r.accountNumber == d.senderNumber
  {
    if d.senderNumber == n then
      HistoryRow(d.id, Send, d.receiverName, d.receiverNumber, d.amount, d.createdAt, d.memo)
    else
      HistoryRow(d.id, Receive, d.senderName, d.senderNumber, d.amount, d.createdAt, d.memo)
  }

  function ClassifyAll(n: string, docs: seq<TxRecord>): (rows: seq<HistoryRow>)
    requires AllParties(n, docs)
    ensures |rows| == |docs|
    ensures forall i :: 0 <= i < |docs| ==> rows[i] == Classify(n, docs[i])
  {
    seq(|docs|, i requires 0 <= i < |docs| => Classify(n, docs[i]))
  }

  /** The sign drawn in front of the amount. */
  function Sign(k: Kind): string {
    if k == Send then "- " else "+ "
  }

  /** Rows keep the amount as stored; only the rendering adds a minus for
      money the account sent and a plus for money it received. */
  lemma SignOfRow(n: string, d: TxRecord)
    requires IsParty(n, d)
    ensures Classify(n, d).amount == d.amount
    ensures Sign(Classify(n, d).kind) == "- " <==> d.senderNumber == n
    ensures Sign(Classify(n, d).kind) == "+ " <==> d.senderNumber != n && d.receiverNumber == n
  {
  }

  // ---------------------------------------------------------------------
  // The in-place sort

  /** `transactionsDocs.sort((a, b) => b.createdAt.seconds - a.createdAt.seconds)`,
      as an insertion sort that moves each document left past older ones. */
  method SortNewestFirst(a: array<TxRecord>)
    modifies a
    ensures NewestFirst(a[..])
    ensures multiset(a[..]) == multiset(old(a[..]))
  {
    var i := 0;
    while i < a.Length
      invariant 0 <= i <= a.Length
      invariant NewestFirst(a[..i])
      invariant multiset(a[..]) == multiset(old(a[..]))
    {
      InsertNewest(a, i);
      i := i + 1;
    }
    assert a[..i] == a[..];
  }

  /** `s[..hi+1]` is newest first once position `j` is ignored, and the
      document at `j` is newer than everything after it. */
  ghost predicate Inserting(s: seq<TxRecord>, hi: nat, j: nat)
    requires j <= hi < |s|
  {
    && (forall p, q :: 0 <= p < q <= hi && p != j && q != j ==> s[p].createdAt >= s[q].createdAt)
    && (forall q :: j < q <= hi ==> s[j].createdAt > s[q].createdAt)
  }

  /** Moves `a[i]` left into the newest-first prefix `a[..i]`. */
  method InsertNewest(a: array<TxRecord>, i: nat)
    requires i < a.Length && NewestFirst(a[..i])
    modifies a
    ensures NewestFirst(a[..i + 1])
    ensures multiset(a[..]) == multiset(old(a[..]))
  {
    var j := i;
    assert Inserting(a[..], i, j);
    while j > 0 && a[j - 1].createdAt < a[j].createdAt
      invariant 0 <= j <= i
      invariant multiset(a[..]) == multiset(old(a[..]))
      invariant Inserting(a[..], i, j)
    {
      SwapDown(a, i, j);
      j := j - 1;
    }
    forall p, q | 0 <= p < q <= i ensures a[p].createdAt >= a[q].createdAt {
      if q == j && p < j - 1 {
        assert a[p].createdAt >= a[j - 1].createdAt;
      }
    }
  }

  /** One step of the insertion: swapping the moving document with the
      older one before it keeps the prefix ordered apart from the new slot. */
  method SwapDown(a: array<TxRecord>, i: nat, j: nat)
    requires 0 < j <= i < a.Length && a[j - 1].createdAt < a[j].createdAt
    requires Inserting(a[..], i, j)
    modifies a
    ensures Inserting(a[..], i, j - 1)
    ensures multiset(a[..]) == multiset(old(a[..]))
  {
    a[j - 1], a[j] := a[j], a[j - 1];
  }

  /** `transactionsDocs` as a fresh array, sorted in place. */
  method SortedCopy(merged: seq<TxRecord>) returns (docs: seq<TxRecord>)
    ensures NewestFirst(docs) && multiset(docs) == multiset(merged)
  {
    var a := new TxRecord[|merged|](i requires 0 <= i < |merged| => merged[i]);
    assert a[..] == merged;
    SortNewestFirst(a);
    docs := a[..];
  }

  // ---------------------------------------------------------------------
  // The filter effect

  /** `transactions.filter(t => t.type === k)`. */
  function OfKind(rows: seq<HistoryRow>, k: Kind): (r: seq<HistoryRow>)
    ensures forall x :: x in r <==> x in rows && x.kind == k
    ensures |r| <= |rows|
  {
    if |rows| == 0 then []
    else if rows[0].kind == k then [rows[0]] + OfKind(rows[1..], k)
    else OfKind(rows[1..], k)
  }

  function FilterRows(rows: seq<HistoryRow>, f: Filter): seq<HistoryRow> {
    match f
    case All => rows
    case OnlySend => OfKind(rows, Send)
    case OnlyReceive => OfKind(rows, Receive)
  }

  /** Filtering keeps the order: it distributes over concatenation, so the
      kept rows appear in the order they had. */
  lemma {:induction false} OfKindAppend(a: seq<HistoryRow>, b: seq<HistoryRow>, k: Kind)
    ensures OfKind(a + b, k) == OfKind(a, k) + OfKind(b, k)
  {
    if |a| > 0 {
      assert (a + b)[1..] == a[1..] + b;
      OfKindAppend(a[1..], b, k);
    } else {
      assert a + b == b;
    }
  }

  /** 'send' and 'receive' split 'all': every row is in exactly one of them. */
  lemma {:induction false} FiltersPartition(rows: seq<HistoryRow>)
    ensures |FilterRows(rows, OnlySend)| + |FilterRows(rows, OnlyReceive)| == |FilterRows(rows, All)|
    ensures forall x :: x in FilterRows(rows, All) <==> x in FilterRows(rows, OnlySend) || x in FilterRows(rows, OnlyReceive)
  {
    if |rows| > 0 {
      FiltersPartition(rows[1..]);
    }
  }

  /** The send rows of a classified list are exactly as many as the
      documents the account sent. */
  lemma {:induction false} SendCount(n: string, docs: seq<TxRecord>)
    requires AllParties(n, docs)
    ensures |OfKind(ClassifyAll(n, docs), Send)| == |SentBy(docs, n)|
  {
    if |docs| > 0 {
      assert AllParties(n, docs[1..]);
      assert ClassifyAll(n, docs)[1..] == ClassifyAll(n, docs[1..]);
      SendCount(n, docs[1..]);
    }
  }

  /** A document sent from the account to itself is answered by both
      queries, so it appears twice in the merged list, both times as a send. */
  lemma SelfTransferListedTwice(store: seq<TxRecord>, n: string, t: TxRecord)
    requires t in store && t.senderNumber == n && t.receiverNumber == n
    ensures multiset(Merge(store, n))[t] >= 2
    ensures Classify(n, t).kind == Send
  {
    assert t in SentBy(store, n);
    assert t in ReceivedBy(store, n);
    assert multiset(Merge(store, n)) == multiset(SentBy(store, n)) + multiset(ReceivedBy(store, n));
  }

  /** An element listed at least twice has two positions. */
  lemma {:induction false} TwoPositions(s: seq<TxRecord>, t: TxRecord)
    requires multiset(s)[t] >= 2
    ensures exists i, j :: 0 <= i < j < |s| && s[i] == t && s[j] == t
  {
    assert s == [s[0]] + s[1..];
    if s[0] == t {
      assert t in multiset(s[1..]);
      var j :| 0 <= j < |s[1..]| && s[1..][j] == t;
      assert s[j + 1] == t;
    } else {
      TwoPositions(s[1..], t);
      var i, j :| 0 <= i < j < |s[1..]| && s[1..][i] == t && s[1..][j] == t;
      assert s[i + 1] == t && s[j + 1] == t;
    }
  }

  // ---------------------------------------------------------------------
  // The page's state

  class TransactionHistory {
    const db: Db
    /** The signed-in user's account, as `fetchAccount` found it. */
    const account: Option<AccountDoc>
    var transactions: seq<HistoryRow>
    var filtered: seq<HistoryRow>
    var filter: Filter
    var currentPage: int
    /** The documents of the last fetch, in the order the sort left them. */
    ghost var fetched: seq<TxRecord>

    ghost predicate Valid()
      reads this
    {
      currentPage >= 1
    }

    function TotalPages(): nat
      reads this
    {
      Paging.TotalPages(|filtered|, ItemsPerPage)
    }

    /** The rows drawn on the current page. */
    function CurrentItems(): (items: seq<HistoryRow>)
      reads this
      requires Valid()
      ensures |items| <= ItemsPerPage
    {
      Paging.PageItems(filtered, currentPage, ItemsPerPage)
    }

    /** Mounting: nothing fetched, filter 'all', page 1. */
    constructor (db: Db, account: Option<AccountDoc>)
      ensures Valid()
      ensures this.db == db && this.account == account
      ensures transactions == [] && filtered == [] && filter == All && currentPage == 1 && fetched == []
    {
      this.db := db;
      this.account := account;
      transactions := [];
      filtered := [];
      filter := All;
      currentPage := 1;
      fetched := [];
    }

    /** `fetchTransactions` (`ok` false: a query failed and only a log line is
        written). Without an account nothing is fetched. Otherwise the rows
        are the classified, newest-first permutation of the merged answers,
        and the filtered list is set to all of them; the filter button and
        the page are kept as they were. */
    method Fetch(ok: bool)
      requires Valid()
      modifies this
      ensures Valid()
      ensures filter == old(filter) && currentPage == old(currentPage)
      ensures if account.None? || !ok then
                transactions == old(transactions) && filtered == old(filtered) && fetched == old(fetched)
              else
                && NewestFirst(fetched)
                && multiset(fetched) == multiset(Merge(db.transactions, account.value.number))
                && AllParties(account.value.number, fetched)
                && transactions == ClassifyAll(account.value.number, fetched)
                && filtered == transactions
    {
      if account.None? || !ok {
        return;
      }
      var n := account.value.number;
      var merged := Merge(db.transactions, n);
      var docs := SortedCopy(merged);
      MergedAllParties(db.transactions, n, docs);
      var rows := ClassifyAll(n, docs);
      fetched, transactions, filtered := docs, rows, rows;
    }

    /** A filter button. React re-runs the effect only when the filter
        actually changes; then the list is re-filtered and the page resets. */
    method SetFilter(f: Filter)
      requires Valid()
      modifies this
      ensures Valid()
      ensures transactions == old(transactions) && fetched == old(fetched) && filter == f
      ensures if f == old(filter) then
                filtered == old(filtered) && currentPage == old(currentPage)
              else
                filtered == FilterRows(transactions, f) && currentPage == 1
    {
      if f == filter {
        return;
      }
      filter := f;
      filtered := FilterRows(transactions, f);
      currentPage := 1;
    }

    /** A numbered page button (they exist for 1..TotalPages). */
    method GoToPage(page: int)
      requires Valid() && 1 <= page <= TotalPages()
      modifies this
      ensures Valid() && currentPage == page
      ensures transactions == old(transactions) && filtered == old(filtered) && filter == old(filter)
    {
      currentPage := page;
    }

    /** The previous-page arrow: disabled on page 1, hidden with one page. */
    method PrevPage()
      requires Valid()
      modifies this
      ensures Valid() && currentPage == Paging.PrevClick(old(currentPage), TotalPages())
      ensures transactions == old(transactions) && filtered == old(filtered) && filter == old(filter)
    {
      currentPage := Paging.PrevClick(currentPage, TotalPages());
    }

    /** The next-page arrow: disabled on the last page, hidden with one page. */
    method NextPage()
      requires Valid()
      modifies this
      ensures Valid() && currentPage == Paging.NextClick(old(currentPage), TotalPages())
      ensures transactions == old(transactions) && filtered == old(filtered) && filter == old(filter)
    {
      currentPage := Paging.NextClick(currentPage, TotalPages());
    }
  }

  /** After a fetch, a transfer from the account to itself is shown as two
      send rows. */
  lemma SelfTransferShownTwice(store: seq<TxRecord>, n: string, fetched: seq<TxRecord>, t: TxRecord)
    requires multiset(fetched) == multiset(Merge(store, n)) && AllParties(n, fetched)
    requires t in store && t.senderNumber == n && t.receiverNumber == n
    ensures exists i, j :: 0 <= i < j < |fetched| &&
              ClassifyAll(n, fetched)[i] == Classify(n, t) == ClassifyAll(n, fetched)[j]
    ensures Classify(n, t).kind == Send
  {
    SelfTransferListedTwice(store, n, t);
    TwoPositions(fetched, t);
    var i, j :| 0 <= i < j < |fetched| && fetched[i] == t && fetched[j] == t;
    assert ClassifyAll(n, fetched)[i] == Classify(n, t) == ClassifyAll(n, fetched)[j];
  }
}
