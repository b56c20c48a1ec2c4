/** The report service's controllers over its two tables: filing a report for a
    transaction, recomputing a user's summary, rebuilding everything from the other
    services, and the two reads. */
module Reports {
  import opened Wrappers
  import opened Ordering
  import opened ReportAggregates

  const ReportRequired: string := "user_id and transaction_id are required"
  const SummaryNotFound: string := "Summary not found"

  /** The body of `GET /reports/user/<id>`. `page` and `per_page` are echoed as given. */
  datatype ReportPage = ReportPage(data: seq<Report>, total: nat, page: int, perPage: int, totalPages: nat)

  /** The body of a successful `POST /sync/all`. */
  datatype SyncCounts = SyncCounts(syncedReports: nat, syncedUsers: nat)

  /** A payload field Python treats as true: present and not 0. */
  predicate Present(x: Option<int>) {
    x.Some? && x.value != 0
  }

  function DateOf(r: Report): int {
    r.date
  }

  /** A user's reports, newest first (`ORDER BY transaction_date DESC`). */
  function Newest(rs: seq<Report>, u: int): (r: seq<Report>)
    ensures multiset(r) == multiset(OwnedBy(rs, u))
    ensures |r| == |OwnedBy(rs, u)|
    ensures forall x :: x in r <==> x in rs && x.userId == u
    ensures SortedDesc(r, DateOf)
  {
    var mine := OwnedBy(rs, u);
    var r := SortDesc(mine, DateOf);
    assert forall x :: x in r <==> x in mine by {
      forall x: Report ensures x in r <==> x in mine {
        assert x in r <==> x in multiset(r);
        assert x in mine <==> x in multiset(mine);
      }
    }
    r
  }

  /** The summaries after `_update_summary(u)` whose user lookup came back as `fetch`:
      untouched when the lookup failed; otherwise `u` has exactly one summary, whose
      count, sums and last date are those of `u`'s reports and whose balance is the
      one the user service reported. A summary that already existed keeps the name and
      e-mail it was first recorded with; a new one takes them from the user. */
  function Resummarized(prev: map<int, Summary>, u: int, rs: seq<Report>, fetch: Fetch<UserSnap>): (m: map<int, Summary>)
    ensures fetch.Failed? ==> m == prev
    ensures fetch.Got? ==> m.Keys == prev.Keys + {u}
    ensures forall v :: v in prev && v != u ==> m[v] == prev[v]
    ensures fetch.Got? ==>
      var s := m[u];
      && s.totalTransactions == |OwnedBy(rs, u)|
      && s.totalCredit == TypeTotal(OwnedBy(rs, u), "credit")
      && s.totalDebit == TypeTotal(OwnedBy(rs, u), "debit")
      && s.currentBalance == fetch.value.balance
      && s.lastDate == LastDate(OwnedBy(rs, u))
      && (s.lastDate.None? <==> forall x :: x in rs ==> x.userId != u)
      && (s.fullName, s.email) == (if u in prev then (prev[u].fullName, prev[u].email)
                                   else (fetch.value.fullName, fetch.value.email))
  {
    if fetch.Failed? then prev
    else
      var mine := OwnedBy(rs, u);
      var user := fetch.value;
      assert mine == [] <==> forall x :: x in rs ==> x.userId != u by {
        if mine != [] {
          assert mine[0] in mine;
        }
      }
      if u in prev then prev[u := SummaryOf(mine, prev[u].fullName, prev[u].email, user.balance)]
      else prev[u := SummaryOf(mine, user.fullName, user.email, user.balance)]
  }

  /** Every report of user `u` can be reached: the `k`-th newest is item `k % per_page`
      of page `k / per_page + 1`, a page within `total_pages`. */
  lemma ReportOnItsPage(rs: seq<Report>, u: int, perPage: int, k: nat)
    requires perPage >= 1 && k < |OwnedBy(rs, u)|
    ensures var sorted := Newest(rs, u);
      && k / perPage + 1 <= PageCount(|sorted|, perPage)
      && k % perPage < |PageItems(sorted, k / perPage + 1, perPage)|
      && PageItems(sorted, k / perPage + 1, perPage)[k % perPage] == sorted[k]
  {
    PageHolds(Newest(rs, u), perPage, k);
  }

  /** The loop of `sync_all_reports` over the fetched transactions: the reports it
      adds to the session, and `count`. */
  method CollectReports(txs: seq<TxSnap>, um: map<int, UserSnap>, now: int)
    returns (pending: seq<Report>, count: nat)
    ensures pending == SyncedReports(txs, um, now)
    ensures count == |pending| == KeptCount(txs, um)
  {
    pending, count := [], 0;
    var i := 0;
    while i < |txs|
      invariant 0 <= i <= |txs|
      invariant pending == SyncedReports(txs[..i], um, now)
      invariant count == |pending|
    {
      var tx := txs[i];
      if tx.userId in um {
        pending := pending + [ReportFrom(tx.userId, tx.id, tx, um[tx.userId], now)];
        count := count + 1;
      }
      assert txs[..i + 1][..i] == txs[..i];
      i := i + 1;
    }
    assert txs[..|txs|] == txs;
    SyncedReportsCount(txs, um, now);
  }

  class ReportStore {
    /** The `reports` table, in insertion order. */
    var reports: seq<Report>
    /** The `report_summaries` table, keyed by its unique `user_id`. */
    var summaries: map<int, Summary>

    /** `reports.transaction_id` is unique. */
    ghost predicate Valid()
      reads this
    {
      TxIdsDistinct(reports)
    }

    constructor ()
      ensures Valid() && reports == [] && summaries == map[]
    {
      reports := [];
      summaries := map[];
    }

    /** `_update_summary(u)`, with the outcome of its user lookup as `fetch`. */
    method UpdateSummary(u: int, fetch: Fetch<UserSnap>)
      modifies this
      ensures reports == old(reports)
      ensures summaries == Resummarized(old(summaries), u, reports, fetch)
    {
      if fetch.Failed? {
        return;
      }
      var user := fetch.value;
      var mine := OwnedBy(reports, u);
      var totalCredit := TypeTotal(mine, "credit");
      var totalDebit := TypeTotal(mine, "debit");
      var lastDate := LastDate(mine);
      if u in summaries {
        var s := summaries[u];
        summaries := summaries[u := s.(totalTransactions := |mine|, totalCredit := totalCredit,
                                       totalDebit := totalDebit, currentBalance := user.balance,
                                       lastDate := lastDate)];
      } else {
        summaries := summaries[u := Summary(user.fullName, user.email, |mine|, totalCredit, totalDebit,
                                            user.balance, lastDate)];
      }
    }

    /** `create_report`: the payload's `user_id` and `transaction_id`, the outcomes of
        the transaction lookup, the user lookup and the summary's own user lookup, and
        the current time. A transaction already reported is answered with its report
        and nothing changes; every error leaves both tables as they were. */
    method CreateReport(userId: Option<int>, txId: Option<int>, txFetch: Fetch<TxSnap>,
                        userFetch: Fetch<UserSnap>, summaryFetch: Fetch<UserSnap>, now: int)
      returns (r: Reply<Report>)
      requires Valid()
      modifies this
      ensures Valid()
      ensures r.code != 201 ==> reports == old(reports) && summaries == old(summaries)
      ensures !Present(userId) || !Present(txId) <==> r == Err(ReportRequired, 400)
      ensures Present(userId) && Present(txId) ==>
        match FindByTx(old(reports), txId.value)
        case Some(i) => r == Ok(old(reports)[i], 200)
        case None =>
          if txFetch.Failed? then r == Err("Transaction not found: " + txFetch.reason, 404)
          else if userFetch.Failed? then r == Err("User not found: " + userFetch.reason, 404)
          else
            var report := ReportFrom(userId.value, txId.value, txFetch.value, userFetch.value, now);
            && r == Ok(report, 201)
            && reports == old(reports) + [report]
            && CountTx(reports, txId.value) == 1
            && summaries == Resummarized(old(summaries), userId.value, reports, summaryFetch)
    {
      if !Present(userId) || !Present(txId) {
        return Err(ReportRequired, 400);
      }
      var existing := FindByTx(reports, txId.value);
      if existing.Some? {
        return Ok(reports[existing.value], 200);
      }
      if txFetch.Failed? {
        return Err("Transaction not found: " + txFetch.reason, 404);
      }
      if userFetch.Failed? {
        return Err("User not found: " + userFetch.reason, 404);
      }
      var report := ReportFrom(userId.value, txId.value, txFetch.value, userFetch.value, now);
      AppendNewTx(reports, report);
      reports := reports + [report];
      UpdateSummary(userId.value, summaryFetch);
      return Ok(report, 201);
    }

    /** The summary loop of `sync_all_reports`: `_update_summary` for each user id in
        turn, on an emptied summary table. */
    method RebuildSummaries(ids: seq<int>, lookup: int -> Fetch<UserSnap>)
      requires Distinct(ids) && summaries == map[]
      modifies this
      ensures reports == old(reports)
      ensures summaries == Rebuilt(ids, reports, lookup)
    {
      var k := 0;
      while k < |ids|
        invariant 0 <= k <= |ids|
        invariant reports == old(reports)
        invariant summaries == Rebuilt(ids[..k], reports, lookup)
      {
        assert ids[..k + 1][..k] == ids[..k];
        assert ids[k] !in ids[..k];
        UpdateSummary(ids[k], lookup(ids[k]));
        k := k + 1;
      }
      assert ids[..|ids|] == ids;
    }

    /** `sync_all_reports`: both tables are emptied first; then, with the transactions
        and users fetched, one report per transaction whose user is known, and a
        summary for every user id whose own lookup (`lookup`) succeeds. A repeated
        transaction id makes the commit fail (`dbError` is the database's message),
        which leaves both tables empty. */
    method SyncAll(txFetch: Fetch<seq<TxSnap>>, usersFetch: Fetch<seq<UserSnap>>,
                   lookup: int -> Fetch<UserSnap>, now: int, dbError: string)
      returns (r: Reply<SyncCounts>)
      modifies this
      ensures Valid()
      ensures r.Err? ==> reports == [] && summaries == map[]
      ensures txFetch.Failed? ==> r == Err("Failed to fetch transactions: " + txFetch.reason, 500)
      ensures txFetch.Got? && usersFetch.Failed? ==> r == Err("Failed to fetch users: " + usersFetch.reason, 500)
      ensures txFetch.Got? && usersFetch.Got? ==>
        var um := UserMap(usersFetch.value);
        var rs := SyncedReports(txFetch.value, um, now);
        if TxIdsDistinct(rs) then
          && r == Ok(SyncCounts(|rs|, |um.Keys|), 200)
          && reports == rs
          && summaries == Rebuilt(UserIds(usersFetch.value), rs, lookup)
        else r == Err("Sync error: " + dbError, 500)
    {
      reports := [];
      summaries := map[];
      if txFetch.Failed? {
        return Err("Failed to fetch transactions: " + txFetch.reason, 500);
      }
      if usersFetch.Failed? {
        return Err("Failed to fetch users: " + usersFetch.reason, 500);
      }
      var um := UserMap(usersFetch.value);
      var pending, count := CollectReports(txFetch.value, um, now);
      if !TxIdsDistinct(pending) {
        return Err("Sync error: " + dbError, 500);
      }
      reports := pending;
      var ids := UserIds(usersFetch.value);
      RebuildSummaries(ids, lookup);
      UserCount(usersFetch.value);
      return Ok(SyncCounts(count, |ids|), 200);
    }

    /** `get_reports_by_user`: only `u`'s reports, newest first, one page of them;
        `total` counts them all; no reports means no data and no pages. */
    function ReportsByUser(u: int, page: int, perPage: int): (r: ReportPage)
      reads this
      ensures r.total == |OwnedBy(reports, u)| && r.page == page && r.perPage == perPage
      ensures r.total == 0 ==> r.data == [] && r.totalPages == 0
      ensures forall x :: x in r.data ==> x in reports && x.userId == u
      ensures SortedDesc(r.data, DateOf)
      ensures r.total > 0 ==> r.totalPages == PageCount(r.total, EffectivePerPage(perPage))
      ensures r.total > 0 ==> r.data == PageItems(Newest(reports, u), EffectivePage(page), EffectivePerPage(perPage))
    {
      var sorted := Newest(reports, u);
      var total := |sorted|;
      if total == 0 then ReportPage([], 0, page, perPage, 0)
      else
        var items := PageItems(sorted, EffectivePage(page), EffectivePerPage(perPage));
        PageOfSorted(sorted, EffectivePage(page), EffectivePerPage(perPage), DateOf);
        ReportPage(items, total, page, perPage, PageCount(total, EffectivePerPage(perPage)))
    }

    /** `get_summary_by_user`: the user's summary, or 404 "Summary not found". */
    function SummaryByUser(u: int): (r: Reply<Summary>)
      reads this
      ensures r.Ok? <==> u in summaries
      ensures r.Ok? ==> r == Ok(summaries[u], 200)
      ensures r.Err? ==> r == Err(SummaryNotFound, 404)
    {
      if u in summaries then Ok(summaries[u], 200) else Err(SummaryNotFound, 404)
    }
  }
}
