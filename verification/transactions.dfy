/** The transaction service's controllers: the `transactions` table, intake of a new
    transaction, the settlement step that moves a user's balance and decides the
    transaction's status, and the status update, deletion and per-user listing. */
module TransactionLedger {
  import opened Wrappers
  import opened Ordering

  /** A row of the `transactions` table (its key, `id`, is the key of the map). */
  datatype Transaction = Transaction(userId: int, txType: string, amount: int, status: string, createdAt: int)

  /** A row together with its key, as the listing returns it. */
  datatype Entry = Entry(id: int, tx: Transaction)

  /** What `create_transaction` reads from its payload. `user_id` is falsy when
      absent or 0. */
  datatype TxRequest = TxRequest(userId: Option<int>, txType: Option<string>, amount: Option<Amount>)

  const TxNotFound: string := "Transaction not found"

  // ---------------------------------------------------------------------------
  // Settlement, as functions of the transaction and of the outcomes of the calls
  // ---------------------------------------------------------------------------

  /** The `action` sent to the user service's balance endpoint. */
  function SettleAction(txType: string): (a: string)
    ensures a == "credit" <==> txType == "credit"
    ensures a == "credit" || a == "debit"
  {
    if txType == "credit" then "credit" else "debit"
  }

  /** The status a settled transaction gets from the balance call: a 200 answer is a
      success; any other answer, and a call that raised, is a failure. */
  function SettleStatus(balance: Call): (s: string)
    ensures s == "success" <==> balance == Answered(200)
    ensures s == "success" || s == "failed"
  {
    if balance.Answered? && balance.status == 200 then "success" else "failed"
  }

  function DigitChar(d: nat): (c: char)
    requires d < 10
    ensures '0' <= c <= '9'
  {
    ('0' as int + d) as char
  }

  /** The decimal digits of `n`, most significant first, without leading zeros. */
  function Digits(n: nat): (s: string)
    ensures |s| >= 1
    ensures forall i :: 0 <= i < |s| ==> '0' <= s[i] <= '9'
    decreases n
  {
    if n < 10 then [DigitChar(n)] else Digits(n / 10) + [DigitChar(n % 10)]
  }

  /** Three digits, with leading zeros. */
  function Pad3(k: nat): (s: string)
    requires k < 1000
    ensures |s| == 3
  {
    [DigitChar(k / 100), DigitChar(k / 10 % 10), DigitChar(k % 10)]
  }

  /** Python's `f"{n:,.0f}"` for a whole number: its digits in groups of three,
      separated by commas. */
  function Grouped(n: nat): (s: string)
    ensures |s| >= 1
    decreases n
  {
    if n < 1000 then Digits(n) else Grouped(n / 1000) + "," + Pad3(n % 1000)
  }

  function DropCommas(s: string): (r: string)
    ensures |r| <= |s|
  {
    if s == [] then [] else (if s[0] == ',' then [] else [s[0]]) + DropCommas(s[1..])
  }

  lemma {:induction false} DropCommasAppend(a: string, b: string)
    ensures DropCommas(a + b) == DropCommas(a) + DropCommas(b)
  {
    if a == [] {
      assert a + b == b;
    } else {
      assert (a + b)[0] == a[0] && (a + b)[1..] == a[1..] + b;
      DropCommasAppend(a[1..], b);
    }
  }

  lemma {:induction false} DropCommasNone(s: string)
    requires forall i :: 0 <= i < |s| ==> s[i] != ','
    ensures DropCommas(s) == s
  {
    if s != [] {
      DropCommasNone(s[1..]);
    }
  }

  /** For `n` of four digits or more, the last three digits are `n % 1000`, padded. */
  lemma DigitsSplit(n: nat)
    requires n >= 1000
    ensures Digits(n) == Digits(n / 1000) + Pad3(n % 1000)
  {
    var q, r := n / 1000, n % 1000;
    assert n / 10 / 10 / 10 == q;
    assert n / 10 / 10 % 10 == r / 100;
    assert n / 10 % 10 == r / 10 % 10;
    assert n % 10 == r % 10;
    assert Digits(n / 10 / 10) == Digits(q) + [DigitChar(r / 100)];
    assert Digits(n / 10) == Digits(q) + [DigitChar(r / 100)] + [DigitChar(r / 10 % 10)];
  }

  /** Removing the separators from the grouped form gives the plain digits back. */
  lemma {:induction false} GroupedDigits(n: nat)
    ensures DropCommas(Grouped(n)) == Digits(n)
    decreases n
  {
    if n < 1000 {
      DropCommasNone(Digits(n));
    } else {
      var q, r := n / 1000, n % 1000;
      GroupedDigits(q);
      DropCommasAppend(Grouped(q) + ",", Pad3(r));
      DropCommasAppend(Grouped(q), ",");
      DropCommasNone(Pad3(r));
      DigitsSplit(n);
    }
  }

  /** The notification text the settlement sends, whatever the balance outcome:
      "Top-up" for a credit and "Debit" for anything else, then the grouped amount,
      always ending in "berhasil dilakukan." ("carried out successfully"). */
  function NotifyMessage(txType: string, amount: nat): (m: string)
    ensures var head := if txType == "credit" then "Top-up" else "Debit";
      && |m| >= |head| + 12 + 20
      && m[..|head|] == head
      && m[|head|..|head| + 12] == " sebesar Rp "
      && DropCommas(m[|head| + 12..|m| - 20]) == Digits(amount)
      && m[|m| - 20..] == " berhasil dilakukan."
  {
    var head := if txType == "credit" then "Top-up" else "Debit";
    var m := head + " sebesar Rp " + Grouped(amount) + " berhasil dilakukan.";
    GroupedDigits(amount);
    assert m[|head| + 12..|m| - 20] == Grouped(amount);
    m
  }

  // ---------------------------------------------------------------------------
  // The table
  // ---------------------------------------------------------------------------

  /** The rows with keys in `[lo, hi)`, in key order. */
  function EntriesFrom(rows: map<int, Transaction>, lo: int, hi: int): (s: seq<Entry>)
    ensures forall e :: e in s ==> lo <= e.id < hi && e.id in rows && rows[e.id] == e.tx
    ensures forall id :: lo <= id < hi && id in rows ==> Entry(id, rows[id]) in s
    decreases hi - lo
  {
    if lo >= hi then []
    else (if lo in rows then [Entry(lo, rows[lo])] else []) + EntriesFrom(rows, lo + 1, hi)
  }

  function Owned(s: seq<Entry>, userId: int): (r: seq<Entry>)
    ensures forall e :: e in r <==> e in s && e.tx.userId == userId
  {
    if s == [] then []
    else (if s[0].tx.userId == userId then [s[0]] else []) + Owned(s[1..], userId)
  }

  /** Each row with a key in `[lo, hi)` is listed exactly once, and nothing else is. */
  lemma {:induction false} EntriesFromCount(rows: map<int, Transaction>, lo: int, hi: int, e: Entry)
    ensures multiset(EntriesFrom(rows, lo, hi))[e] ==
            if lo <= e.id < hi && e.id in rows && rows[e.id] == e.tx then 1 else 0
    decreases hi - lo
  {
    if lo < hi {
      EntriesFromCount(rows, lo + 1, hi, e);
      var rest := EntriesFrom(rows, lo + 1, hi);
      var head := if lo in rows then [Entry(lo, rows[lo])] else [];
      assert EntriesFrom(rows, lo, hi) == head + rest;
      var hc := multiset(head)[e];
      assert hc == if lo in rows && e == Entry(lo, rows[lo]) then 1 else 0;
      assert multiset(EntriesFrom(rows, lo, hi))[e] == hc + multiset(rest)[e];
    }
  }

  /** Filtering by user keeps the user's entries as often as they occur. */
  lemma {:induction false} OwnedCount(s: seq<Entry>, userId: int, e: Entry)
    ensures multiset(Owned(s, userId))[e] == if e.tx.userId == userId then multiset(s)[e] else 0
  {
    if s != [] {
      OwnedCount(s[1..], userId, e);
      assert s == [s[0]] + s[1..];
      var head := if s[0].tx.userId == userId then [s[0]] else [];
      assert multiset(Owned(s, userId)) == multiset(head) + multiset(Owned(s[1..], userId));
    }
  }

  function CreatedAt(e: Entry): int {
    e.tx.createdAt
  }

  class TxLedger {
    var rows: map<int, Transaction>
    /** The id the database hands to the next inserted row. */
    var nextId: int

    ghost predicate Valid()
      reads this
    {
      && nextId >= 1
      && (forall id :: id in rows ==> 1 <= id < nextId)
      && (forall id :: id in rows ==> rows[id].amount > 0)
    }

    constructor ()
      ensures Valid() && rows == map[] && nextId == 1
    {
      rows := map[];
      nextId := 1;
    }

    /** `create_transaction` without its background step. The amount is read first, so
        one `float` cannot read raises whatever else is wrong; a falsy `user_id` or an
        amount that is not positive gives 400; a user lookup that raised gives 503,
        one that answered other than 200 gives 404; otherwise exactly one new row is
        stored with status "pending" (type "debit" when absent) and its id returned. */
    method CreateTransaction(req: TxRequest, lookup: Call, now: int) returns (r: Reply<int>)
      requires Valid()
      modifies this
      ensures Valid()
      ensures r.Err? ==> rows == old(rows) && nextId == old(nextId)
      ensures req.amount.Some? && !req.amount.value.Number? ==> r == Err(InternalError, 500)
      ensures (req.amount.None? || req.amount.value.Number?)
              && (req.userId in {None, Some(0)} || req.amount.None? || req.amount.value.value <= 0) ==>
                r == Err("Invalid user_id or amount", 400)
      ensures req.userId !in {None, Some(0)} && req.amount.Some? && req.amount.value.Number? && req.amount.value.value > 0 ==>
                && (lookup.Raised? ==> r == Err("User service unreachable", 503))
                && (lookup.Answered? && lookup.status != 200 ==> r == Err("User not found", 404))
                && (lookup == Answered(200) ==>
                      && r == Ok(old(nextId), 201) && old(nextId) !in old(rows) && nextId == old(nextId) + 1
                      && rows == old(rows)[old(nextId) := Transaction(req.userId.value,
                                                                      if req.txType.Some? then req.txType.value else "debit",
                                                                      req.amount.value.value, "pending", now)])
    {
      var amount := if req.amount.None? then Number(0) else req.amount.value;
      if !amount.Number? {
        return Err(InternalError, 500);
      }
      if req.userId.None? || req.userId.value == 0 || amount.value <= 0 {
        return Err("Invalid user_id or amount", 400);
      }
      if lookup.Raised? {
        return Err("User service unreachable", 503);
      }
      if lookup.status != 200 {
        return Err("User not found", 404);
      }
      var txType := if req.txType.Some? then req.txType.value else "debit";
      var id := nextId;
      rows := rows[id := Transaction(req.userId.value, txType, amount.value, "pending", now)];
      nextId := nextId + 1;
      return Ok(id, 201);
    }

    /** `background_process`, run after intake on the row it stored: the balance
        action follows the type, the status follows the balance call alone, a
        notification is attempted whatever happened (its outcome, `notified`, changes
        nothing), and the status reaches the table only if the final commit succeeds. */
    method Settle(id: int, balance: Call, notify: Call, commitOk: bool)
      returns (action: string, message: string, notified: bool)
      requires Valid() && id in rows
      modifies this
      ensures Valid() && nextId == old(nextId)
      ensures action == SettleAction(old(rows)[id].txType)
      ensures message == NotifyMessage(old(rows)[id].txType, old(rows)[id].amount)
      ensures notified <==> notify == Answered(201)
      ensures commitOk ==> rows == old(rows)[id := old(rows)[id].(status := SettleStatus(balance))]
      ensures !commitOk ==> rows == old(rows)
    {
      var tx := rows[id];
      action := SettleAction(tx.txType);
      var status := if balance.Answered? && balance.status == 200 then "success" else "failed";
      message := NotifyMessage(tx.txType, tx.amount);
      notified := notify.Answered? && notify.status == 201;
      if commitOk {
        rows := rows[id := tx.(status := status)];
      }
    }

    /** `update_transaction_status`: an unknown id gives 404; otherwise the status is
        overwritten with whatever is given, whatever it was before. */
    method UpdateStatus(id: int, status: string) returns (r: Reply<Transaction>)
      requires Valid()
      modifies this
      ensures Valid() && nextId == old(nextId)
      ensures id !in old(rows) ==> r == Err(TxNotFound, 404) && rows == old(rows)
      ensures id in old(rows) ==> && r == Ok(old(rows)[id].(status := status), 200)
                                  && rows == old(rows)[id := r.value]
    {
      if id !in rows {
        return Err(TxNotFound, 404);
      }
      var tx := rows[id].(status := status);
      rows := rows[id := tx];
      return Ok(tx, 200);
    }

    /** `delete_transaction`: an unknown id gives 404; otherwise exactly that row goes. */
    method Delete(id: int) returns (r: Reply<bool>)
      requires Valid()
      modifies this
      ensures Valid() && nextId == old(nextId)
      ensures id !in old(rows) ==> r == Err(TxNotFound, 404) && rows == old(rows)
      ensures id in old(rows) ==> r == Ok(true, 200) && rows == old(rows) - {id}
    {
      if id !in rows {
        return Err(TxNotFound, 404);
      }
      rows := rows - {id};
      return Ok(true, 200);
    }

    /** `get_transactions_by_user`: exactly the user's rows, each once, newest first. */
    function ByUser(userId: int): (r: seq<Entry>)
      requires Valid()
      reads this
      ensures forall e :: e in r <==> e.id in rows && rows[e.id] == e.tx && e.tx.userId == userId
      ensures forall e :: multiset(r)[e] == if e.id in rows && rows[e.id] == e.tx && e.tx.userId == userId then 1 else 0
      ensures SortedDesc(r, CreatedAt)
    {
      var all := EntriesFrom(rows, 1, nextId);
      var mine := Owned(all, userId);
      var r := SortDesc(mine, CreatedAt);
      forall e: Entry
        ensures multiset(r)[e] == if e.id in rows && rows[e.id] == e.tx && e.tx.userId == userId then 1 else 0
      {
        OwnedCount(all, userId, e);
        EntriesFromCount(rows, 1, nextId, e);
      }
      assert forall e :: e in r <==> e in mine by {
        forall e: Entry ensures e in r <==> e in mine {
          assert e in r <==> e in multiset(r);
          assert e in mine <==> e in multiset(mine);
        }
      }
      assert forall e :: e in all <==> e.id in rows && rows[e.id] == e.tx by {
        forall e: Entry | e.id in rows && rows[e.id] == e.tx ensures e in all {
          assert Entry(e.id, rows[e.id]) in all;
        }
      }
      r
    }
  }
}
