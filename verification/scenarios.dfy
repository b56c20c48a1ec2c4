/** Properties that span two services, or two runs of one operation. */
module Scenarios {
  import opened Wrappers
  import opened UserRoutes
  import opened TransactionLedger
  import opened ReportAggregates
  import opened Reports

  /** Settlement asks the user service's internal endpoint to apply the transaction:
      the transaction ends "success" exactly when the user service applied the change,
      so a debit the balance does not cover ends "failed" with the balance untouched. */
  lemma SettledExactlyWhenApplied(txType: string, balance: int, amount: int)
    ensures var answer := InternalBalance(Some(SettleAction(txType)), balance, amount);
      && (SettleStatus(Answered(answer.code)) == "success" <==> answer.Ok?)
      && (txType != "credit" && balance < amount ==>
            answer == Err("Insufficient balance", 400) && SettleStatus(Answered(answer.code)) == "failed")
  {
    var answer := InternalBalance(Some(SettleAction(txType)), balance, amount);
    if answer.Err? {
      assert answer.code == 400;
    }
  }

  /** Settlement AS IT RUNS: the thread has no application context, so the
      notification helper fails reading the configuration and the final commit fails.
      The user service still applies the balance change, yet the transaction stays
      "pending" and no notification is created. */
  method SettleWithoutAppContext(ledger: TxLedger, id: int, userBalance: int, configError: string)
    returns (applied: Reply<int>, notified: bool)
    requires ledger.Valid() && id in ledger.rows && ledger.rows[id].status == "pending"
    modifies ledger
    ensures ledger.rows == old(ledger.rows) && ledger.rows[id].status == "pending"
    ensures !notified
    ensures var tx := old(ledger.rows)[id];
      && applied == InternalBalance(Some(SettleAction(tx.txType)), userBalance, tx.amount)
      && (tx.txType == "credit" || userBalance >= tx.amount ==> applied.Ok?)
  {
    var tx := ledger.rows[id];
    applied := InternalBalance(Some(SettleAction(tx.txType)), userBalance, tx.amount);
    var _, _, n := ledger.Settle(id, Answered(applied.code), Raised(configError), false);
    notified := n;
  }

  /** A user among the fetched ones whose own lookup succeeds gets a summary from a
      rebuild even without a single transaction: zero of everything, no last date. */
  lemma SyncedUserWithoutTransactions(txs: seq<TxSnap>, users: seq<UserSnap>, lookup: int -> Fetch<UserSnap>,
                                      now: int, u: int)
    requires u in UserMap(users) && lookup(u).Got?
    requires forall i :: 0 <= i < |txs| ==> txs[i].userId != u
    ensures var rs := SyncedReports(txs, UserMap(users), now);
            var m := Rebuilt(UserIds(users), rs, lookup);
      && u in m
      && m[u].totalTransactions == 0 && m[u].totalCredit == 0 && m[u].totalDebit == 0
      && m[u].lastDate.None?
  {
    var um := UserMap(users);
    var rs := SyncedReports(txs, um, now);
    NoTransactionsNoReports(txs, um, now, u);
  }

  /** Running the rebuild twice on the same upstream answers gives the same answer
      and leaves the same tables as running it once. */
  method SyncTwice(store: ReportStore, txFetch: Fetch<seq<TxSnap>>, usersFetch: Fetch<seq<UserSnap>>,
                   lookup: int -> Fetch<UserSnap>, now: int, dbError: string)
    returns (first: Reply<SyncCounts>, second: Reply<SyncCounts>,
             reportsOnce: seq<Report>, summariesOnce: map<int, Summary>)
    modifies store
    ensures first == second
    ensures store.reports == reportsOnce && store.summaries == summariesOnce
  {
    first := store.SyncAll(txFetch, usersFetch, lookup, now, dbError);
    reportsOnce, summariesOnce := store.reports, store.summaries;
    second := store.SyncAll(txFetch, usersFetch, lookup, now, dbError);
  }
}
