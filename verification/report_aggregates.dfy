/** The report service's derived view, as functions: the rows of the `reports` table,
    the per-user summary computed from them, and what a full rebuild produces from
    the snapshots the other services hand out. */
module ReportAggregates {
  import opened Wrappers

  /** A row of the `reports` table. Its own key is not modelled; the table is kept in
      insertion order. */
  datatype Report = Report(userId: int, fullName: string, email: string, transactionId: int,
                           txType: string, amount: int, status: string, balanceAfter: int, date: int)

  /** A row of `report_summaries` (its key, `user_id`, is the key of the map that holds it). */
  datatype Summary = Summary(fullName: string, email: string, totalTransactions: nat, totalCredit: int,
                             totalDebit: int, currentBalance: int, lastDate: Option<int>)

  /** A user as the user service hands it out. */
  datatype UserSnap = UserSnap(id: int, fullName: string, email: string, balance: int)

  /** A transaction as the transaction service hands it out; `status` and
      `created_at` may be missing. */
  datatype TxSnap = TxSnap(id: int, userId: int, txType: string, amount: int, status: Option<string>,
                           createdAt: Option<int>)

  /** The report row built from a transaction and a user: type and amount from the
      transaction, status "success" when the transaction has none, the date of the
      transaction or `now`; name, e-mail and balance from the user. */
  function ReportFrom(userId: int, transactionId: int, tx: TxSnap, user: UserSnap, now: int): Report {
    Report(userId, user.fullName, user.email, transactionId, tx.txType, tx.amount,
           if tx.status.Some? then tx.status.value else "success", user.balance,
           if tx.createdAt.Some? then tx.createdAt.value else now)
  }

  // ---------------------------------------------------------------------------
  // Per-user aggregates
  // ---------------------------------------------------------------------------

  /** `Report.query.filter_by(user_id=u)`, in table order. */
  function OwnedBy(rs: seq<Report>, u: int): (r: seq<Report>)
    ensures |r| <= |rs|
    ensures forall x :: x in r <==> x in rs && x.userId == u
  {
    if rs == [] then []
    else OwnedBy(rs[..|rs| - 1], u) + (if rs[|rs| - 1].userId == u then [rs[|rs| - 1]] else [])
  }

  /** `OwnedBy` keeps each of the user's reports as often as it is stored, and no
      other report at all. */
  lemma {:induction false} OwnedByCount(rs: seq<Report>, u: int)
    ensures forall x :: multiset(OwnedBy(rs, u))[x] == if x.userId == u then multiset(rs)[x] else 0
  {
    if rs != [] {
      var init, last := rs[..|rs| - 1], rs[|rs| - 1];
      OwnedByCount(init, u);
      assert rs == init + [last];
      var tail := if last.userId == u then [last] else [];
      assert multiset(OwnedBy(rs, u)) == multiset(OwnedBy(init, u)) + multiset(tail);
    }
  }

  /** The sum of the amounts of the reports of type `t`. */
  function TypeTotal(rs: seq<Report>, t: string): int {
    if rs == [] then 0
    else TypeTotal(rs[..|rs| - 1], t) + (if rs[|rs| - 1].txType == t then rs[|rs| - 1].amount else 0)
  }

  function AmountTotal(rs: seq<Report>): int {
    if rs == [] then 0 else AmountTotal(rs[..|rs| - 1]) + rs[|rs| - 1].amount
  }

  /** `max(r.transaction_date for r in reports)`, or None for no reports. */
  function LastDate(rs: seq<Report>): (d: Option<int>)
    ensures d.None? <==> rs == []
    ensures d.Some? ==> forall i :: 0 <= i < |rs| ==> rs[i].date <= d.value
    ensures d.Some? ==> exists i :: 0 <= i < |rs| && rs[i].date == d.value
  {
    if rs == [] then None
    else
      var p := LastDate(rs[..|rs| - 1]);
      var last := rs[|rs| - 1].date;
      if p.None? || p.value < last then Some(last) else p
  }

  /** The summary `_update_summary` writes for a user's reports `mine`, under the given
      name and e-mail and with the balance the user service reported. */
  function SummaryOf(mine: seq<Report>, fullName: string, email: string, balance: int): Summary {
    Summary(fullName, email, |mine|, TypeTotal(mine, "credit"), TypeTotal(mine, "debit"), balance, LastDate(mine))
  }

  /** The summary a user gets when none existed yet. */
  function FreshSummary(rs: seq<Report>, u: int, user: UserSnap): Summary {
    SummaryOf(OwnedBy(rs, u), user.fullName, user.email, user.balance)
  }

  lemma {:induction false} OwnedByAppend(a: seq<Report>, b: seq<Report>, u: int)
    ensures OwnedBy(a + b, u) == OwnedBy(a, u) + OwnedBy(b, u)
    decreases |b|
  {
    if b == [] {
      assert a + b == a;
    } else {
      var b' := b[..|b| - 1];
      assert (a + b)[..|a + b| - 1] == a + b';
      assert (a + b)[|a + b| - 1] == b[|b| - 1];
      OwnedByAppend(a, b', u);
    }
  }

  lemma {:induction false} TypeTotalAppend(a: seq<Report>, b: seq<Report>, t: string)
    ensures TypeTotal(a + b, t) == TypeTotal(a, t) + TypeTotal(b, t)
    decreases |b|
  {
    if b == [] {
      assert a + b == a;
    } else {
      var b' := b[..|b| - 1];
      assert (a + b)[..|a + b| - 1] == a + b';
      assert (a + b)[|a + b| - 1] == b[|b| - 1];
      TypeTotalAppend(a, b', t);
    }
  }

  lemma {:induction false} LastDateAppend(a: seq<Report>, r: Report)
    ensures LastDate(a + [r]) == if LastDate(a).None? || LastDate(a).value < r.date then Some(r.date) else LastDate(a)
  {
    assert (a + [r])[..|a|] == a;
  }

  /** When every report is a credit or a debit, the two totals add up to all the
      money the user moved. */
  lemma {:induction false} CreditPlusDebit(rs: seq<Report>)
    requires forall i :: 0 <= i < |rs| ==> rs[i].txType == "credit" || rs[i].txType == "debit"
    ensures TypeTotal(rs, "credit") + TypeTotal(rs, "debit") == AmountTotal(rs)
  {
    if rs != [] {
      CreditPlusDebit(rs[..|rs| - 1]);
    }
  }

  /** Recomputing a user's summary by a full scan after one more report of theirs is
      the same as adding that report to the summary computed before. */
  lemma SummaryStep(rs: seq<Report>, r: Report, fullName: string, email: string, balance: int)
    ensures var before := SummaryOf(OwnedBy(rs, r.userId), fullName, email, balance);
            var after := SummaryOf(OwnedBy(rs + [r], r.userId), fullName, email, balance);
      && after.totalTransactions == before.totalTransactions + 1
      && after.totalCredit == before.totalCredit + (if r.txType == "credit" then r.amount else 0)
      && after.totalDebit == before.totalDebit + (if r.txType == "debit" then r.amount else 0)
      && after.lastDate == (if before.lastDate.None? || before.lastDate.value < r.date then Some(r.date)
                            else before.lastDate)
  {
    var mine := OwnedBy(rs, r.userId);
    OwnedByAppend(rs, [r], r.userId);
    assert OwnedBy([r], r.userId) == [r] by {
      assert [r][..0] == [];
    }
    TypeTotalAppend(mine, [r], "credit");
    TypeTotalAppend(mine, [r], "debit");
    assert [r][..0] == [];
    LastDateAppend(mine, r);
  }

  /** Another user's report changes nothing of this user's summary. */
  lemma OtherUserUnaffected(rs: seq<Report>, r: Report, u: int)
    requires r.userId != u
    ensures OwnedBy(rs + [r], u) == OwnedBy(rs, u)
  {
    assert (rs + [r])[..|rs|] == rs;
  }

  // ---------------------------------------------------------------------------
  // Full rebuild
  // ---------------------------------------------------------------------------

  /** `{u["id"]: u for u in users}`: a later snapshot with the same id wins. */
  function UserMap(users: seq<UserSnap>): (m: map<int, UserSnap>)
    ensures forall i :: 0 <= i < |users| ==> users[i].id in m
    ensures forall id :: id in m ==> m[id].id == id && m[id] in users
  {
    if users == [] then map[]
    else
      var last := users[|users| - 1];
      UserMap(users[..|users| - 1])[last.id := last]
  }

  /** The keys of `UserMap(users)`, in the order a dictionary keeps them: first
      occurrence first. */
  function UserIds(users: seq<UserSnap>): (ids: seq<int>)
    ensures forall id :: id in ids <==> id in UserMap(users)
    ensures Distinct(ids)
  {
    if users == [] then []
    else
      var p := UserIds(users[..|users| - 1]);
      var id := users[|users| - 1].id;
      if id in p then p else p + [id]
  }

  predicate Distinct(s: seq<int>) {
    forall i, j :: 0 <= i < j < |s| ==> s[i] != s[j]
  }

  /** A list without repeats is as long as the set of its elements is large. */
  lemma {:induction false} DistinctCard(s: seq<int>)
    requires Distinct(s)
    ensures |set x | x in s| == |s|
  {
    if s != [] {
      var p := s[..|s| - 1];
      var x := s[|s| - 1];
      assert Distinct(p);
      DistinctCard(p);
      assert x !in p;
      assert (set y | y in s) == (set y | y in p) + {x};
    }
  }

  /** `synced_users`: as many users as distinct ids among the snapshots. */
  lemma UserCount(users: seq<UserSnap>)
    ensures |UserIds(users)| == |UserMap(users).Keys|
  {
    var ids := UserIds(users);
    DistinctCard(ids);
    assert (set x | x in ids) == UserMap(users).Keys;
  }

  /** The reports a rebuild creates, in the order of the transactions: one per
      transaction whose user is among the snapshots, filed under that user. */
  function SyncedReports(txs: seq<TxSnap>, um: map<int, UserSnap>, now: int): (rs: seq<Report>)
    ensures |rs| <= |txs|
    ensures forall x :: x in rs ==> x.userId in um
  {
    if txs == [] then []
    else
      var tx := txs[|txs| - 1];
      SyncedReports(txs[..|txs| - 1], um, now)
      + (if tx.userId in um then [ReportFrom(tx.userId, tx.id, tx, um[tx.userId], now)] else [])
  }

  /** Every transaction whose user is known yields its report, and every report comes
      from such a transaction. */
  lemma {:induction false} SyncedReportsCover(txs: seq<TxSnap>, um: map<int, UserSnap>, now: int)
    ensures forall tx :: tx in txs && tx.userId in um ==>
              ReportFrom(tx.userId, tx.id, tx, um[tx.userId], now) in SyncedReports(txs, um, now)
    ensures forall x :: x in SyncedReports(txs, um, now) ==>
              exists tx :: tx in txs && tx.userId in um && x == ReportFrom(tx.userId, tx.id, tx, um[tx.userId], now)
  {
    if txs != [] {
      var p := txs[..|txs| - 1];
      SyncedReportsCover(p, um, now);
      forall tx | tx in txs && tx.userId in um
        ensures ReportFrom(tx.userId, tx.id, tx, um[tx.userId], now) in SyncedReports(txs, um, now)
      {
        if tx != txs[|txs| - 1] {
          var i :| 0 <= i < |txs| && txs[i] == tx;
          assert tx in p by { assert p[i] == tx; }
        }
      }
    }
  }

  /** A user without transactions gets no report from a rebuild. */
  lemma {:induction false} NoTransactionsNoReports(txs: seq<TxSnap>, um: map<int, UserSnap>, now: int, u: int)
    requires forall i :: 0 <= i < |txs| ==> txs[i].userId != u
    ensures OwnedBy(SyncedReports(txs, um, now), u) == []
  {
    if txs != [] {
      var p := txs[..|txs| - 1];
      var tx := txs[|txs| - 1];
      NoTransactionsNoReports(p, um, now, u);
      var tail := if tx.userId in um then [ReportFrom(tx.userId, tx.id, tx, um[tx.userId], now)] else [];
      OwnedByAppend(SyncedReports(p, um, now), tail, u);
      assert tail == [] || tail[..0] == [];
    }
  }

  /** The number of transactions whose user is among the snapshots. */
  function KeptCount(txs: seq<TxSnap>, um: map<int, UserSnap>): nat {
    if txs == [] then 0
    else KeptCount(txs[..|txs| - 1], um) + (if txs[|txs| - 1].userId in um then 1 else 0)
  }

  /** `synced_reports` counts exactly the transactions whose user is known. */
  lemma {:induction false} SyncedReportsCount(txs: seq<TxSnap>, um: map<int, UserSnap>, now: int)
    ensures |SyncedReports(txs, um, now)| == KeptCount(txs, um)
  {
    if txs != [] {
      SyncedReportsCount(txs[..|txs| - 1], um, now);
    }
  }

  /** The summaries after a rebuild: every listed user whose lookup succeeds gets a
      fresh summary of the reports `rs`; nobody else has one. */
  function Rebuilt(ids: seq<int>, rs: seq<Report>, lookup: int -> Fetch<UserSnap>): (m: map<int, Summary>)
    ensures forall id :: id in m <==> id in ids && lookup(id).Got?
    ensures forall id :: id in m ==> m[id] == FreshSummary(rs, id, lookup(id).value)
  {
    if ids == [] then map[]
    else
      var id := ids[|ids| - 1];
      var m := Rebuilt(ids[..|ids| - 1], rs, lookup);
      assert forall x :: x in ids <==> x in ids[..|ids| - 1] || x == id;
      if lookup(id).Got? then m[id := FreshSummary(rs, id, lookup(id).value)] else m
  }

  /** The transaction ids of a table are all different: the `unique=True` constraint
      on `reports.transaction_id`. */
  predicate TxIdsDistinct(rs: seq<Report>) {
    forall i, j :: 0 <= i < j < |rs| ==> rs[i].transactionId != rs[j].transactionId
  }

  /** The position of the report for transaction `t`, if any. */
  function FindByTx(rs: seq<Report>, t: int): (r: Option<nat>)
    ensures r.None? <==> forall i :: 0 <= i < |rs| ==> rs[i].transactionId != t
    ensures r.Some? ==> r.value < |rs| && rs[r.value].transactionId == t
  {
    if rs == [] then None
    else if rs[|rs| - 1].transactionId == t then Some(|rs| - 1)
    else FindByTx(rs[..|rs| - 1], t)
  }

  /** The number of reports for transaction `t`. */
  function CountTx(rs: seq<Report>, t: int): nat {
    if rs == [] then 0
    else CountTx(rs[..|rs| - 1], t) + (if rs[|rs| - 1].transactionId == t then 1 else 0)
  }

  lemma {:induction false} CountTxZero(rs: seq<Report>, t: int)
    requires forall i :: 0 <= i < |rs| ==> rs[i].transactionId != t
    ensures CountTx(rs, t) == 0
  {
    if rs != [] {
      CountTxZero(rs[..|rs| - 1], t);
    }
  }

  /** Appending the report of a transaction not yet in a table of distinct ids keeps
      the ids distinct, and leaves exactly one report for that transaction. */
  lemma AppendNewTx(rs: seq<Report>, r: Report)
    requires TxIdsDistinct(rs)
    requires forall i :: 0 <= i < |rs| ==> rs[i].transactionId != r.transactionId
    ensures TxIdsDistinct(rs + [r])
    ensures CountTx(rs + [r], r.transactionId) == 1
  {
    assert (rs + [r])[..|rs|] == rs;
    CountTxZero(rs, r.transactionId);
  }
}
