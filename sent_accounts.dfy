/** The "accounts I have sent to" card. It fetches the account's outgoing
    transactions newest first, groups them by receiver number into one row
    per receiver (name and date from the first transaction seen, a count of
    transactions), sorts the rows by date (the fetch order), by name or by
    count, and shows them five to a page. */
module SentAccounts {
  import opened Common
  import opened Ledger
  import Paging

  const ItemsPerPage: nat := 5

  /** One row of the card. `date` is the transaction's `createdAt`; its
      locale formatting is not modelled. The name is the transaction's
      receiver name, which is null when the receiver's account was opened
      without a display name. */
  datatype SentRow = SentRow(accountName: Option<string>, accountNumber: string, date: int, counts: nat)

  datatype SortMode = ByDate | ByName | ByCounts

  // ---------------------------------------------------------------------
  // The grouping, specified over the fetched documents

  function Init<T>(s: seq<T>): seq<T>
    requires |s| > 0
  {
    s[..|s| - 1]
  }

  predicate HasReceiver(txs: seq<TxRecord>, n: string) {
    exists i :: 0 <= i < |txs| && txs[i].receiverNumber == n
  }

  /** The distinct receiver numbers in order of first occurrence. */
  function Receivers(txs: seq<TxRecord>): seq<string>
    decreases |txs|
  {
    if |txs| == 0 then []
    else
      var p := Receivers(Init(txs));
      var n := txs[|txs| - 1].receiverNumber;
      if n in p then p else p + [n]
  }

  /** How many fetched documents went to `n`. */
  function Count(txs: seq<TxRecord>, n: string): nat
    decreases |txs|
  {
    if |txs| == 0 then 0
    else Count(Init(txs), n) + (if txs[|txs| - 1].receiverNumber == n then 1 else 0)
  }

  /** The index of the first document that went to `n`. */
  function FirstIndex(txs: seq<TxRecord>, n: string): (i: nat)
    requires HasReceiver(txs, n)
    ensures i < |txs| && txs[i].receiverNumber == n
    ensures forall j :: 0 <= j < i ==> txs[j].receiverNumber != n
    decreases |txs|
  {
    if HasReceiver(Init(txs), n) then FirstIndex(Init(txs), n)
    else |txs| - 1
  }

  /** The row for receiver `n`: name and date of the first document to it. */
  function RowFor(txs: seq<TxRecord>, n: string): SentRow
    requires HasReceiver(txs, n)
  {
    var t := txs[FirstIndex(txs, n)];
    SentRow(t.receiverName, n, t.createdAt, Count(txs, n))
  }

  /** The rows for the numbers `ns`, in that order. */
  function RowsFor(txs: seq<TxRecord>, ns: seq<string>): (rows: seq<SentRow>)
    requires forall n :: n in ns ==> HasReceiver(txs, n)
    ensures |rows| == |ns|
    ensures forall j :: 0 <= j < |ns| ==> rows[j] == RowFor(txs, ns[j])
    decreases |ns|
  {
    if |ns| == 0 then [] else RowsFor(txs, Init(ns)) + [RowFor(txs, ns[|ns| - 1])]
  }

  /** The grouped rows: one per receiver, in order of first occurrence. */
  function Group(txs: seq<TxRecord>): (rows: seq<SentRow>)
  {
    ReceiversOccur(txs);
    RowsFor(txs, Receivers(txs))
  }

  /** Adding one document: a number occurs after the step exactly when it
      occurred before or is the new document's. */
  lemma HasStep(t: seq<TxRecord>, d: TxRecord, n: string)
    ensures HasReceiver(t + [d], n) <==> HasReceiver(t, n) || d.receiverNumber == n
  {
    if HasReceiver(t, n) {
      var i :| 0 <= i < |t| && t[i].receiverNumber == n;
      assert (t + [d])[i] == t[i];
    }
    if d.receiverNumber == n {
      assert (t + [d])[|t|] == d;
    }
    if HasReceiver(t + [d], n) && d.receiverNumber != n {
      var i :| 0 <= i < |t + [d]| && (t + [d])[i].receiverNumber == n;
      assert t[i] == (t + [d])[i];
    }
  }

  /** A number is listed exactly when some document went to it. */
  lemma {:induction false} ReceiversOccur(txs: seq<TxRecord>)
    ensures forall n :: n in Receivers(txs) <==> HasReceiver(txs, n)
    decreases |txs|
  {
    if |txs| > 0 {
      var t, d := Init(txs), txs[|txs| - 1];
      assert txs == t + [d];
      ReceiversOccur(t);
      forall n ensures n in Receivers(txs) <==> HasReceiver(txs, n) {
        HasStep(t, d, n);
      }
    }
  }

  /** No receiver number is listed twice. */
  lemma {:induction false} ReceiversDistinct(txs: seq<TxRecord>)
    ensures forall i, j :: 0 <= i < j < |Receivers(txs)| ==> Receivers(txs)[i] != Receivers(txs)[j]
    decreases |txs|
  {
    if |txs| > 0 {
      ReceiversDistinct(Init(txs));
    }
  }

  /** Grouping yields exactly one row per distinct receiver number. */
  lemma OneRowPerReceiver(txs: seq<TxRecord>)
    ensures forall i, j :: 0 <= i < j < |Group(txs)| ==> Group(txs)[i].accountNumber != Group(txs)[j].accountNumber
    ensures forall n :: (exists j :: 0 <= j < |Group(txs)| && Group(txs)[j].accountNumber == n) <==> HasReceiver(txs, n)
  {
    ReceiversDistinct(txs);
    ReceiversOccur(txs);
    var g := Group(txs);
    forall n ensures (exists j :: 0 <= j < |g| && g[j].accountNumber == n) <==> HasReceiver(txs, n) {
      if HasReceiver(txs, n) {
        var j :| 0 <= j < |Receivers(txs)| && Receivers(txs)[j] == n;
        assert g[j].accountNumber == n;
      }
    }
  }

  lemma {:induction false} CountPositive(txs: seq<TxRecord>, n: string)
    requires HasReceiver(txs, n)
    ensures Count(txs, n) >= 1
    decreases |txs|
  {
    var t, d := Init(txs), txs[|txs| - 1];
    assert txs == t + [d];
    HasStep(t, d, n);
    if d.receiverNumber != n {
      CountPositive(t, n);
    }
  }

  lemma {:induction false} CountAbsent(txs: seq<TxRecord>, n: string)
    requires !HasReceiver(txs, n)
    ensures Count(txs, n) == 0
    decreases |txs|
  {
    if |txs| > 0 {
      var t, d := Init(txs), txs[|txs| - 1];
      assert txs == t + [d];
      HasStep(t, d, n);
      CountAbsent(t, n);
    }
  }

  /** Each row carries its receiver's count and the name and date of the
      first fetched document to that receiver. */
  lemma RowContents(txs: seq<TxRecord>, j: nat)
    requires j < |Group(txs)|
    ensures var r := Group(txs)[j];
            && HasReceiver(txs, r.accountNumber)
            && r.counts == Count(txs, r.accountNumber) && r.counts >= 1
            && r.accountName == txs[FirstIndex(txs, r.accountNumber)].receiverName
            && r.date == txs[FirstIndex(txs, r.accountNumber)].createdAt
  {
    ReceiversOccur(txs);
    CountPositive(txs, Group(txs)[j].accountNumber);
  }

  /** Rows appear in order of the first document to each receiver. */
  lemma RowsInFirstSeenOrder(txs: seq<TxRecord>, i: nat, j: nat)
    requires i < j < |Group(txs)|
    ensures HasReceiver(txs, Group(txs)[i].accountNumber) && HasReceiver(txs, Group(txs)[j].accountNumber)
    ensures FirstIndex(txs, Group(txs)[i].accountNumber) < FirstIndex(txs, Group(txs)[j].accountNumber)
  {
    ReceiversOccur(txs);
    ReceiversOrdered(txs, i, j);
  }

  lemma {:induction false} ReceiversOrdered(txs: seq<TxRecord>, i: nat, j: nat)
    requires i < j < |Receivers(txs)|
    ensures HasReceiver(txs, Receivers(txs)[i]) && HasReceiver(txs, Receivers(txs)[j])
    ensures FirstIndex(txs, Receivers(txs)[i]) < FirstIndex(txs, Receivers(txs)[j])
    decreases |txs|
  {
    ReceiversOccur(txs);
    var p := Receivers(Init(txs));
    ReceiversOccur(Init(txs));
    var a, b := Receivers(txs)[i], Receivers(txs)[j];
    assert a == p[i];
    if j < |p| {
      assert b == p[j];
      ReceiversOrdered(Init(txs), i, j);
    } else {
      // b is the newest receiver: it first occurs at the last position.
      assert !HasReceiver(Init(txs), b);
      assert HasReceiver(Init(txs), a);
    }
  }

  function SumCounts(rows: seq<SentRow>): nat
    decreases |rows|
  {
    if |rows| == 0 then 0 else SumCounts(Init(rows)) + rows[|rows| - 1].counts
  }

  /** The sum of Count(txs, n) over a list of numbers. */
  function SumOver(txs: seq<TxRecord>, ns: seq<string>): nat
    decreases |ns|
  {
    if |ns| == 0 then 0 else SumOver(txs, Init(ns)) + Count(txs, ns[|ns| - 1])
  }

  /** The counts add up to the number of fetched documents. */
  lemma CountsSumToTotal(txs: seq<TxRecord>)
    ensures SumCounts(Group(txs)) == |txs|
  {
    ReceiversOccur(txs);
    SumOverReceivers(txs);
    SumCountsIsSumOver(txs, Receivers(txs));
  }

  lemma {:induction false} SumCountsIsSumOver(txs: seq<TxRecord>, ns: seq<string>)
    requires forall n :: n in ns ==> HasReceiver(txs, n)
    ensures SumCounts(RowsFor(txs, ns)) == SumOver(txs, ns)
    decreases |ns|
  {
    if |ns| > 0 {
      SumCountsIsSumOver(txs, Init(ns));
      assert Init(RowsFor(txs, ns)) == RowsFor(txs, Init(ns));
    }
  }

  /** How many times `n` is listed in `ns`. */
  function Occurrences(ns: seq<string>, n: string): nat
    decreases |ns|
  {
    if |ns| == 0 then 0 else Occurrences(Init(ns), n) + (if ns[|ns| - 1] == n then 1 else 0)
  }

  /** Adding one document adds one to the sum for every listing of its number. */
  lemma {:induction false} SumOverExtend(txs: seq<TxRecord>, t: TxRecord, ns: seq<string>)
    ensures SumOver(txs + [t], ns) == SumOver(txs, ns) + Occurrences(ns, t.receiverNumber)
    decreases |ns|
  {
    if |ns| > 0 {
      SumOverExtend(txs, t, Init(ns));
      assert Init(txs + [t]) == txs;
    }
  }

  lemma {:induction false} OccurrencesDistinct(ns: seq<string>, n: string)
    requires forall i, j :: 0 <= i < j < |ns| ==> ns[i] != ns[j]
    ensures Occurrences(ns, n) == if n in ns then 1 else 0
    decreases |ns|
  {
    if |ns| > 0 {
      OccurrencesDistinct(Init(ns), n);
      assert n in ns <==> n in Init(ns) || ns[|ns| - 1] == n;
    }
  }

  lemma {:induction false} SumOverReceivers(txs: seq<TxRecord>)
    ensures SumOver(txs, Receivers(txs)) == |txs|
    decreases |txs|
  {
    if |txs| > 0 {
      var p := Init(txs);
      var t := txs[|txs| - 1];
      assert txs == p + [t];
      SumOverReceivers(p);
      SumOverExtend(p, t, Receivers(p));
      ReceiversDistinct(p);
      OccurrencesDistinct(Receivers(p), t.receiverNumber);
      if t.receiverNumber !in Receivers(p) {
        ReceiversOccur(p);
        CountAbsent(p, t.receiverNumber);
        assert Init(Receivers(p) + [t.receiverNumber]) == Receivers(p);
      }
    }
  }

  /** With the fetch ordered newest first, each row's date is the newest
      transaction to that receiver. */
  lemma RowDateIsNewest(txs: seq<TxRecord>, j: nat, i: nat)
    requires NewestFirst(txs) && j < |Group(txs)| && i < |txs|
    requires txs[i].receiverNumber == Group(txs)[j].accountNumber
    ensures Group(txs)[j].date >= txs[i].createdAt
  {
    RowContents(txs, j);
  }

  /** Adding one document to the grouping: an existing row gains one count
      when the number matches, a new number gets a row from that document. */
  lemma RowForStep(t: seq<TxRecord>, d: TxRecord, n: string)
    requires HasReceiver(t + [d], n)
    ensures HasReceiver(t, n) ==>
              RowFor(t + [d], n) == RowFor(t, n).(counts := Count(t, n) + if d.receiverNumber == n then 1 else 0)
    ensures !HasReceiver(t, n) ==> RowFor(t + [d], n) == SentRow(d.receiverName, n, d.createdAt, 1)
  {
    assert Init(t + [d]) == t;
    HasStep(t, d, n);
    if !HasReceiver(t, n) {
      CountAbsent(t, n);
    }
  }

  // ---------------------------------------------------------------------
  // The loop of `fetchTransactions`

  /** The `snapshot.docs.map` loop that fills `sendedAccountsObj`, followed by
      `Object.values`, which lists the receiver-number keys in insertion
      order (they contain dashes, so none is an array index). */
  method GroupByReceiver(docs: seq<TxRecord>) returns (rows: seq<SentRow>)
    ensures rows == Group(docs)
  {
    var obj: map<string, SentRow> := map[];
    var keys: seq<string> := [];
    var i := 0;
    while i < |docs|
      invariant 0 <= i <= |docs|
      invariant keys == Receivers(docs[..i])
      invariant forall n :: n in obj <==> HasReceiver(docs[..i], n)
      invariant forall n :: n in obj ==> HasReceiver(docs[..i], n) && obj[n] == RowFor(docs[..i], n)
    {
      var t, d := docs[..i], docs[i];
      assert docs[..i + 1] == t + [d];
      assert Init(t + [d]) == t;
      ReceiversOccur(t);
      var old_obj := obj;
      if d.receiverNumber in obj {
        var row := obj[d.receiverNumber];
        obj := obj[d.receiverNumber := row.(counts := row.counts + 1)];
      } else {
        obj := obj[d.receiverNumber := SentRow(d.receiverName, d.receiverNumber, d.createdAt, 1)];
        keys := keys + [d.receiverNumber];
      }
      forall n ensures n in obj <==> HasReceiver(t + [d], n) {
        HasStep(t, d, n);
      }
      forall n | n in obj ensures obj[n] == RowFor(t + [d], n) {
        HasStep(t, d, n);
        RowForStep(t, d, n);
      }
      i := i + 1;
    }
    assert docs[..i] == docs;
    ReceiversOccur(docs);
    rows := seq(|keys|, j requires 0 <= j < |keys| => obj[keys[j]]);
  }

  // ---------------------------------------------------------------------
  // The sort effect

  /** A collation for names: total and transitive, as `localeCompare` is. */
  ghost predicate IsTotalPreorder(le: (string, string) -> bool) {
    && (forall a, b :: le(a, b) || le(b, a))
    && (forall a, b, c :: le(a, b) && le(b, c) ==> le(a, c))
  }

  /** Insert `x` before the first row it does not come after. */
  function Insert(x: SentRow, s: seq<SentRow>, le: (SentRow, SentRow) -> bool): (r: seq<SentRow>)
    ensures multiset(r) == multiset(s) + multiset{x}
  {
    if |s| == 0 || le(x, s[0]) then [x] + s
    else
      assert s == [s[0]] + s[1..];
      [s[0]] + Insert(x, s[1..], le)
  }

  /** A stable insertion sort under `le`. */
  function SortBy(s: seq<SentRow>, le: (SentRow, SentRow) -> bool): (r: seq<SentRow>)
    ensures multiset(r) == multiset(s)
  {
    if |s| == 0 then []
    else
      assert s == [s[0]] + s[1..];
      Insert(s[0], SortBy(s[1..], le), le)
  }

  predicate Sorted(s: seq<SentRow>, le: (SentRow, SentRow) -> bool) {
    forall i :: 0 < i < |s| ==> le(s[i - 1], s[i])
  }

  predicate Total(le: (SentRow, SentRow) -> bool, s: seq<SentRow>) {
    forall a, b :: a in s && b in s ==> le(a, b) || le(b, a)
  }

  lemma {:induction false} InsertSorted(x: SentRow, s: seq<SentRow>, le: (SentRow, SentRow) -> bool)
    requires Sorted(s, le) && Total(le, s + [x])
    ensures Sorted(Insert(x, s, le), le)
    ensures |Insert(x, s, le)| > 0 && Insert(x, s, le)[0] in [x] + s
  {
    if |s| > 0 && !le(x, s[0]) {
      assert le(s[0], x) by { assert s[0] in s + [x] && x in s + [x]; }
      assert Sorted(s[1..], le);
      assert Total(le, s[1..] + [x]) by {
        forall a | a in s[1..] + [x] ensures a in s + [x] {
          if a in s[1..] { assert a in s; }
        }
      }
      InsertSorted(x, s[1..], le);
    }
  }

  lemma {:induction false} SortBySorted(s: seq<SentRow>, le: (SentRow, SentRow) -> bool)
    requires Total(le, s)
    ensures Sorted(SortBy(s, le), le)
  {
    if |s| > 0 {
      assert Total(le, s[1..]) by {
        forall a | a in s[1..] ensures a in s { }
      }
      SortBySorted(s[1..], le);
      var t := SortBy(s[1..], le);
      assert Total(le, t + [s[0]]) by {
        forall a | a in t + [s[0]] ensures a in s {
          if a in t { assert a in multiset(t); assert a in multiset(s[1..]); assert a in s[1..]; }
        }
      }
      InsertSorted(s[0], t, le);
    }
  }

  /** `localeCompare` turns its argument into a string, so a null name
      compares as the text "null". */
  function NameKey(name: Option<string>): (k: string)
    ensures name.Some? ==> k == name.value
    ensures name.None? ==> k == "null"
  {
    match name
    case Some(s) => s
    case None => "null"
  }

  /** `a.accountName.localeCompare(b.accountName)` on the calls that return. */
  function NameOrder(nameLe: (string, string) -> bool): (SentRow, SentRow) -> bool {
    (a: SentRow, b: SentRow) => nameLe(NameKey(a.accountName), NameKey(b.accountName))
  }

  /** The comparator throws a TypeError when the row it is called on, `a`,
      has a null name. That can only happen with two rows or more (a single
      row is never compared) and a row without a name; whether the engine
      actually calls the comparator on such a row depends on the order in
      which it compares, which the model takes as an input. */
  predicate NameSortMayThrow(rows: seq<SentRow>) {
    |rows| >= 2 && exists i :: 0 <= i < |rows| && rows[i].accountName.None?
  }

  /** `b.counts - a.counts`: larger counts first. */
  function CountOrder(): (SentRow, SentRow) -> bool {
    (a: SentRow, b: SentRow) => a.counts >= b.counts
  }

  /** The sort effect: a copy for 'date', a sorted copy otherwise. */
  function SortRows(rows: seq<SentRow>, mode: SortMode, nameLe: (string, string) -> bool): (r: seq<SentRow>)
    ensures multiset(r) == multiset(rows)
  {
    match mode
    case ByDate => rows
    case ByName => SortBy(rows, NameOrder(nameLe))
    case ByCounts => SortBy(rows, CountOrder())
  }

  /** Every sort mode reorders the rows without adding or losing any: 'date'
      keeps the first-occurrence order, 'accountName' (when it does not
      throw) orders names ascending under the collation, a null name counting
      as "null", and 'counts' orders counts non-increasing. */
  lemma SortModes(rows: seq<SentRow>, nameLe: (string, string) -> bool)
    requires IsTotalPreorder(nameLe)
    ensures SortRows(rows, ByDate, nameLe) == rows
    ensures var r := SortRows(rows, ByName, nameLe);
            forall i, j :: 0 <= i < j < |r| ==> nameLe(NameKey(r[i].accountName), NameKey(r[j].accountName))
    ensures var r := SortRows(rows, ByCounts, nameLe);
            forall i, j :: 0 <= i < j < |r| ==> r[i].counts >= r[j].counts
  {
    assert Total(NameOrder(nameLe), rows) by {
      forall a, b | a in rows && b in rows
        ensures NameOrder(nameLe)(a, b) || NameOrder(nameLe)(b, a)
      {
        assert nameLe(NameKey(a.accountName), NameKey(b.accountName)) || nameLe(NameKey(b.accountName), NameKey(a.accountName));
      }
    }
    SortBySorted(rows, NameOrder(nameLe));
    SortBySorted(rows, CountOrder());
    var r := SortRows(rows, ByName, nameLe);
    forall i, j | 0 <= i < j < |r| ensures nameLe(NameKey(r[i].accountName), NameKey(r[j].accountName)) {
      SortedChain(r, NameOrder(nameLe), nameLe, i, j);
    }
    var c := SortRows(rows, ByCounts, nameLe);
    forall i, j | 0 <= i < j < |c| ensures c[i].counts >= c[j].counts {
      CountChain(c, i, j);
    }
  }

  lemma {:induction false} SortedChain(r: seq<SentRow>, le: (SentRow, SentRow) -> bool,
                                       nameLe: (string, string) -> bool, i: nat, j: nat)
    requires IsTotalPreorder(nameLe) && le == NameOrder(nameLe)
    requires Sorted(r, le) && i < j < |r|
    ensures nameLe(NameKey(r[i].accountName), NameKey(r[j].accountName))
    decreases j - i
  {
    if j > i + 1 {
      SortedChain(r, le, nameLe, i + 1, j);
      assert le(r[i], r[i + 1]);
    } else {
      assert le(r[j - 1], r[j]);
    }
  }

  lemma {:induction false} CountChain(r: seq<SentRow>, i: nat, j: nat)
    requires Sorted(r, CountOrder()) && i < j < |r|
    ensures r[i].counts >= r[j].counts
    decreases j - i
  {
    assert CountOrder()(r[j - 1], r[j]);
    if j > i + 1 {
      CountChain(r, i, j - 1);
    }
  }

  // ---------------------------------------------------------------------
  // The query the card runs

  /** `docs` is an answer to `query(transactions, where('senderNumber', '==',
      n), orderBy('createdAt', 'desc'))`: the store's transactions sent from
      `n`, newest first, documents with equal times in an order the store
      picks. */
  predicate SentQuery(store: seq<TxRecord>, n: string, docs: seq<TxRecord>) {
    NewestFirst(docs) && multiset(docs) == multiset(SentBy(store, n))
  }

  /** Some row of `rows` is for number `m`. */
  predicate Listed(rows: seq<SentRow>, m: string) {
    exists j :: 0 <= j < |rows| && rows[j].accountNumber == m
  }

  /** The store holds a transfer from `n` to `m`. */
  predicate SentTo(store: seq<TxRecord>, n: string, m: string) {
    exists t :: t in store && t.senderNumber == n && t.receiverNumber == m
  }

  /** The rows list exactly the numbers the store has transfers from `n` to. */
  ghost predicate ListsReceivers(rows: seq<SentRow>, store: seq<TxRecord>, n: string) {
    forall m :: Listed(rows, m) <==> SentTo(store, n, m)
  }

  /** The answer holds exactly the store's transactions sent from `n`, and
      as many of them as the store holds. */
  lemma SentQueryMembers(store: seq<TxRecord>, n: string, docs: seq<TxRecord>)
    requires SentQuery(store, n, docs)
    ensures forall t :: t in docs <==> t in store && t.senderNumber == n
    ensures |docs| == |SentBy(store, n)|
  {
    forall t ensures t in docs <==> t in store && t.senderNumber == n {
      assert t in docs <==> t in multiset(docs);
      assert t in SentBy(store, n) <==> t in multiset(SentBy(store, n));
    }
    assert |multiset(docs)| == |docs|;
    assert |multiset(SentBy(store, n))| == |SentBy(store, n)|;
  }

  /** Against the store, the card lists exactly the numbers the account has
      sent to, each row's date is the newest transfer to that number, and
      the counts add up to the number of transfers the account has sent. */
  lemma CardOfStore(store: seq<TxRecord>, n: string, docs: seq<TxRecord>)
    requires SentQuery(store, n, docs)
    ensures ListsReceivers(Group(docs), store, n)
    ensures forall j, t :: 0 <= j < |Group(docs)| && t in store && t.senderNumber == n &&
                           t.receiverNumber == Group(docs)[j].accountNumber
                           ==> Group(docs)[j].date >= t.createdAt
    ensures SumCounts(Group(docs)) == |SentBy(store, n)|
  {
    SentQueryMembers(store, n, docs);
    CardListsReceivers(store, n, docs);
    forall j, t | 0 <= j < |Group(docs)| && t in store && t.senderNumber == n &&
                  t.receiverNumber == Group(docs)[j].accountNumber
      ensures Group(docs)[j].date >= t.createdAt
    {
      var i :| 0 <= i < |docs| && docs[i] == t;
      RowDateIsNewest(docs, j, i);
    }
    CountsSumToTotal(docs);
  }

  lemma CardListsReceivers(store: seq<TxRecord>, n: string, docs: seq<TxRecord>)
    requires SentQuery(store, n, docs)
    ensures ListsReceivers(Group(docs), store, n)
  {
    SentQueryMembers(store, n, docs);
    OneRowPerReceiver(docs);
    forall m ensures Listed(Group(docs), m) <==> SentTo(store, n, m) {
      if HasReceiver(docs, m) {
        var i :| 0 <= i < |docs| && docs[i].receiverNumber == m;
        assert docs[i] in docs;
      }
      if SentTo(store, n, m) {
        var t :| t in store && t.senderNumber == n && t.receiverNumber == m;
        var i :| 0 <= i < |docs| && docs[i] == t;
      }
    }
  }

  // ---------------------------------------------------------------------
  // The card's state

  class SentAccounts {
    const db: Db
    const account: Option<AccountDoc>
    /** The collation behind `localeCompare`. */
    const nameLe: (string, string) -> bool
    var accounts: seq<SentRow>
    var sortedAccounts: seq<SentRow>
    var sorting: SortMode
    var currentPage: int
    /** The sort effect threw. Only the router's default error screen
        catches the error; it replaces the route, so no handler of the card
        runs again. */
    var crashed: bool

    /** While the card is up, the current page stays between 1 and the page
        count. */
    ghost predicate Valid()
      reads this
    {
      crashed || Paging.InRange(currentPage, TotalPages())
    }

    function TotalPages(): nat
      reads this
    {
      Paging.TotalPages(|sortedAccounts|, ItemsPerPage)
    }

    /** The rows drawn on the current page. */
    function CurrentItems(): (items: seq<SentRow>)
      reads this
      requires Valid() && !crashed
      ensures |items| <= ItemsPerPage
    {
      Paging.PageItems(sortedAccounts, currentPage, ItemsPerPage)
    }

    /** Mounting: empty lists, sorted by date, page 1 (the sort effect runs once). */
    constructor (db: Db, account: Option<AccountDoc>, nameLe: (string, string) -> bool)
      ensures Valid()
      ensures this.db == db && this.account == account && this.nameLe == nameLe
      ensures accounts == [] && sortedAccounts == [] && sorting == ByDate && currentPage == 1 && !crashed
    {
      this.db := db;
      this.account := account;
      this.nameLe := nameLe;
      accounts := [];
      sortedAccounts := [];
      sorting := ByDate;
      currentPage := 1;
      crashed := false;
    }

    /** `fetchTransactions` with `docs` the store's answer to the card's query
        (`ok` false: the query failed and only a log line is written).
        Without an account, on failure, or with no documents, nothing
        changes. Otherwise both lists are set to the grouped rows, which list
        exactly the numbers the account has sent to, and the sort effect runs
        because `accounts` changed. */
    method Fetch(docs: seq<TxRecord>, ok: bool, engineThrows: bool)
      requires Valid() && !crashed
      requires account.Some? && ok ==> SentQuery(db.transactions, account.value.number, docs)
      modifies this
      ensures Valid()
      ensures sorting == old(sorting)
      ensures if account.None? || !ok || |docs| == 0 then
                accounts == old(accounts) && sortedAccounts == old(sortedAccounts) &&
                currentPage == old(currentPage) && !crashed
              else
                && accounts == Group(docs)
                && ListsReceivers(accounts, db.transactions, account.value.number)
                && SortEffectRan(accounts, old(currentPage), engineThrows)
    {
      if account.None? || !ok || |docs| == 0 {
        return;
      }
      var rows := GroupByReceiver(docs);
      CardListsReceivers(db.transactions, account.value.number, docs);
      accounts, sortedAccounts := rows, rows;
      SortEffect(engineThrows);
    }

    /** A sort button. React re-runs the effect only when the mode actually
        changes. */
    method SetSorting(mode: SortMode, engineThrows: bool)
      requires Valid() && !crashed
      modifies this
      ensures Valid()
      ensures accounts == old(accounts) && sorting == mode
      ensures if mode == old(sorting) then
                sortedAccounts == old(sortedAccounts) && currentPage == old(currentPage) && !crashed
              else
                SortEffectRan(old(sortedAccounts), old(currentPage), engineThrows)
    {
      if mode == sorting {
        return;
      }
      sorting := mode;
      SortEffect(engineThrows);
    }

    /** The state after the sort effect ran on `accounts` and `sorting`, with
        `sorted0` and `page0` the sorted rows and the page before it: a
        throwing name sort crashes the card and leaves those two as they
        were; otherwise the rows are sorted by the mode and the page is 1. */
    ghost predicate SortEffectRan(sorted0: seq<SentRow>, page0: int, engineThrows: bool)
      reads this
    {
      && crashed == (engineThrows && sorting == ByName && NameSortMayThrow(accounts))
      && if crashed then sortedAccounts == sorted0 && currentPage == page0
         else sortedAccounts == SortRows(accounts, sorting, nameLe) && currentPage == 1
    }

    /** The effect on `[sorting, accounts]`: a copy for 'date', a sorted
        copy otherwise, then page 1, unless `localeCompare` throws first
        (`engineThrows`: the engine hands a row without a name to the
        comparator as its receiver). */
    method SortEffect(engineThrows: bool)
      requires !crashed
      modifies this
      ensures Valid()
      ensures accounts == old(accounts) && sorting == old(sorting)
      ensures SortEffectRan(old(sortedAccounts), old(currentPage), engineThrows)
    {
      if engineThrows && sorting == ByName && NameSortMayThrow(accounts) {
        crashed := true;
        return;
      }
      sortedAccounts := SortRows(accounts, sorting, nameLe);
      currentPage := 1;
    }

    /** A numbered page button (they exist for 1..TotalPages). */
    method GoToPage(page: int)
      requires Valid() && !crashed && 1 <= page <= TotalPages()
      modifies this
      ensures Valid() && currentPage == page
      ensures accounts == old(accounts) && sortedAccounts == old(sortedAccounts) && sorting == old(sorting)
      ensures !crashed
    {
      currentPage := page;
    }

    /** The previous-page arrow: disabled on page 1, hidden with one page. */
    method PrevPage()
      requires Valid() && !crashed
      modifies this
      ensures Valid() && currentPage == Paging.PrevClick(old(currentPage), TotalPages())
      ensures accounts == old(accounts) && sortedAccounts == old(sortedAccounts) && sorting == old(sorting)
      ensures !crashed
    {
      Paging.ArrowsStayInRange(currentPage, TotalPages());
      currentPage := Paging.PrevClick(currentPage, TotalPages());
    }

    /** The next-page arrow: disabled on the last page, hidden with one page. */
    method NextPage()
      requires Valid() && !crashed
      modifies this
      ensures Valid() && currentPage == Paging.NextClick(old(currentPage), TotalPages())
      ensures accounts == old(accounts) && sortedAccounts == old(sortedAccounts) && sorting == old(sorting)
      ensures !crashed
    {
      Paging.ArrowsStayInRange(currentPage, TotalPages());
      currentPage := Paging.NextClick(currentPage, TotalPages());
    }
  }
}
