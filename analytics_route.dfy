/** The `/api/analytics/transactions` handler: one pass over a wallet's
    transactions that totals what was sent and received, counts transactions
    per UTC day and per counterparty, and reports the last thirty days of
    activity in date order and the ten most frequent counterparties. */
module AnalyticsRoute {
  import opened Wrappers
  import opened Records
  import opened Seqs
  import opened Sorting
  import opened Store
  import opened Tally

  const DayMs: int := 86400000

  /** The range `new Date(ms)` accepts; outside it `toISOString` throws. */
  const MaxTime: int := 8640000000000000

  predicate ValidTime(ms: int) {
    -MaxTime <= ms <= MaxTime
  }

  /** The UTC calendar day of an instant, as a day number since the epoch:
      `toISOString().split("T")[0]`, which names the same day, floors as this does. */
  function DayOf(ms: int): (d: int)
    ensures d * DayMs <= ms < (d + 1) * DayMs
  {
    ms / DayMs
  }

  function IsSend(t: Transaction): bool { t.txType == Send }
  function IsReceive(t: Transaction): bool { t.txType != Send }

  /** The day of each transaction, in order. */
  function Days(rows: seq<Transaction>): (r: seq<int>)
    ensures |r| == |rows| && forall i :: 0 <= i < |rows| ==> r[i] == DayOf(rows[i].timestamp)
  {
    seq(|rows|, i requires 0 <= i < |rows| => DayOf(rows[i].timestamp))
  }

  /** The counterparty of each transaction, in order. */
  function Parties(rows: seq<Transaction>): (r: seq<string>)
    ensures |r| == |rows| && forall i :: 0 <= i < |rows| ==> r[i] == Counterparty(rows[i])
  {
    seq(|rows|, i requires 0 <= i < |rows| => Counterparty(rows[i]))
  }

  /** `dailyActivity` after the pass. */
  function DailyActivity(rows: seq<Transaction>): Counts<int> {
    TallyOf(Days(rows))
  }

  /** `addressCounts` after the pass. */
  function AddressCounts(rows: seq<Transaction>): Counts<string> {
    TallyOf(Parties(rows))
  }

  /** The four accumulators of the pass. */
  datatype Totals = Totals(sent: real, received: real, daily: Counts<int>, parties: Counts<string>)

  /** The `forEach` over the transactions. It stops at the first timestamp
      `toISOString` refuses, and the handler then answers 500. */
  method Accumulate(rows: seq<Transaction>) returns (r: Option<Totals>)
    ensures r.None? <==> exists i :: 0 <= i < |rows| && !ValidTime(rows[i].timestamp)
    ensures r.Some? ==> r.value == Totals(SumWhere(rows, IsSend, TxValue), SumWhere(rows, IsReceive, TxValue),
                                          DailyActivity(rows), AddressCounts(rows))
  {
    var sent, received := 0.0, 0.0;
    var daily: Counts<int> := [];
    var parties: Counts<string> := [];
    var i := 0;
    while i < |rows|
      invariant 0 <= i <= |rows|
      invariant forall j :: 0 <= j < i ==> ValidTime(rows[j].timestamp)
      invariant sent == SumWhere(rows[..i], IsSend, TxValue)
      invariant received == SumWhere(rows[..i], IsReceive, TxValue)
      invariant daily == DailyActivity(rows[..i])
      invariant parties == AddressCounts(rows[..i])
    {
      var tx := rows[i];
      if !ValidTime(tx.timestamp) {
        return None;
      }
      AccumulateStep(rows, i);
      daily := Bump(daily, DayOf(tx.timestamp));
      if tx.txType == Send {
        sent := sent + tx.value;
        parties := Bump(parties, tx.to);
      } else {
        received := received + tx.value;
        parties := Bump(parties, tx.from);
      }
      i := i + 1;
    }
    assert rows[..|rows|] == rows;
    r := Some(Totals(sent, received, daily, parties));
  }

  /** What one more transaction adds to each accumulator. */
  lemma AccumulateStep(rows: seq<Transaction>, i: nat)
    requires i < |rows|
    ensures SumWhere(rows[..i + 1], IsSend, TxValue) == SumWhere(rows[..i], IsSend, TxValue) + (if IsSend(rows[i]) then rows[i].value else 0.0)
    ensures SumWhere(rows[..i + 1], IsReceive, TxValue) == SumWhere(rows[..i], IsReceive, TxValue) + (if IsReceive(rows[i]) then rows[i].value else 0.0)
    ensures DailyActivity(rows[..i + 1]) == Bump(DailyActivity(rows[..i]), DayOf(rows[i].timestamp))
    ensures AddressCounts(rows[..i + 1]) == Bump(AddressCounts(rows[..i]), Counterparty(rows[i]))
  {
    var tx := rows[i];
    assert rows[..i + 1] == rows[..i] + [tx];
    SumWhereAppend(rows[..i], [tx], IsSend, TxValue);
    SumWhereAppend(rows[..i], [tx], IsReceive, TxValue);
    assert Days(rows[..i + 1])[..i] == Days(rows[..i]);
    assert Parties(rows[..i + 1])[..i] == Parties(rows[..i]);
  }

  /** `filter(([date]) => new Date(date) >= thirtyDaysAgo)`: the day's UTC
      midnight is no earlier than thirty days before `now`. */
  function Recent(now: int): ((int, nat)) -> bool {
    (e: (int, nat)) => RecentDay(now, e.0)
  }

  predicate RecentDay(now: int, d: int) {
    d * DayMs >= now - 30 * DayMs
  }

  /** `sort((a, b) => a.date.localeCompare(b.date))`: ISO dates in date order. */
  function EarlierDay(a: (int, nat), b: (int, nat)): bool {
    a.0 <= b.0
  }

  /** `sort(([, a], [, b]) => b - a)`: larger counts first. */
  function MoreFrequent<K>(a: (K, nat), b: (K, nat)): bool {
    a.1 >= b.1
  }

  lemma EarlierDayIsTotalPreorder()
    ensures IsTotalPreorder(EarlierDay)
  {
  }

  lemma MoreFrequentIsTotalPreorder<K(!new)>()
    ensures IsTotalPreorder(MoreFrequent<K>)
  {
  }

  /** The answer body. Days are day numbers and the totals exact numbers; the
      wire form writes them as ISO dates and decimal text. */
  datatype Stats = Stats(
    totalSent: real,
    totalReceived: real,
    totalTransactions: nat,
    recentActivity: seq<(int, nat)>,
    topContacts: seq<(string, nat)>)

  /** What the handler reports for a pass over `rows` at clock reading `now`. */
  function Summary(rows: seq<Transaction>, now: int): Stats {
    Stats(SumWhere(rows, IsSend, TxValue), SumWhere(rows, IsReceive, TxValue), |rows|,
          SortBy(Filter(DailyActivity(rows), Recent(now)), EarlierDay),
          Take(SortBy(AddressCounts(rows), MoreFrequent), 10))
  }

  /** GET `?walletAddress` at clock reading `now`: 400 for a missing or empty
      wallet, 500 when a stored timestamp is out of the date range, otherwise
      the summary of every row of the wallet's partition. */
  method Get(m: map<string, seq<Transaction>>, walletAddress: Option<string>, now: int) returns (r: Reply<Stats>)
    ensures (walletAddress.None? || walletAddress == Some("")) <==> r == Refused(400, "Wallet address required")
    ensures r == Refused(500, "Failed to fetch analytics") <==>
              walletAddress.Some? && walletAddress.value != "" &&
              exists i :: 0 <= i < |Rows(m, walletAddress.value)| && !ValidTime(Rows(m, walletAddress.value)[i].timestamp)
    ensures r.Refused? || r.Ok?
    ensures r.Ok? ==> walletAddress.Some? && r.body == Summary(Rows(m, walletAddress.value), now)
  {
    if walletAddress.None? || walletAddress.value == "" {
      return Refused(400, "Wallet address required");
    }
    var rows := Rows(m, walletAddress.value);
    var totals := Accumulate(rows);
    if totals.None? {
      return Refused(500, "Failed to fetch analytics");
    }
    var t := totals.value;
    var recent := SortBy(Filter(t.daily, Recent(now)), EarlierDay);
    var top := Take(SortBy(t.parties, MoreFrequent), 10);
    r := Ok(Stats(t.sent, t.received, |rows|, recent, top));
  }

  /** Every transaction is counted once on each side of the pass: it adds one
      to its own day and one to its counterparty, so both sets of counts add
      up to `totalTransactions`; and each value lands in exactly one of the
      two totals. */
  lemma CountsAddUp(rows: seq<Transaction>, now: int)
    ensures var s := Summary(rows, now);
      && Total(DailyActivity(rows)) == s.totalTransactions
      && Total(AddressCounts(rows)) == s.totalTransactions
      && (forall d :: CountOf(DailyActivity(rows), d) == multiset(Days(rows))[d])
      && (forall a :: CountOf(AddressCounts(rows), a) == multiset(Parties(rows))[a])
      && s.totalSent + s.totalReceived == Sum(rows, TxValue)
  {
    TallyFacts(Days(rows));
    TallyFacts(Parties(rows));
    SumWhereSplit(rows, IsSend, IsReceive, TxValue);
  }

  /** `recentActivity`: one entry per day on which the wallet had a
      transaction and whose midnight is at most thirty days back, in strictly
      increasing date order, each carrying the number of that day's transactions. */
  lemma RecentActivityFacts(rows: seq<Transaction>, now: int)
    ensures var r := Summary(rows, now).recentActivity;
      && (forall i, j :: 0 <= i < j < |r| ==> r[i].0 < r[j].0)
      && (forall d :: d in Keys(r) <==> d in Days(rows) && d * DayMs >= now - 30 * DayMs)
      && (forall i :: 0 <= i < |r| ==> r[i].1 == multiset(Days(rows))[r[i].0] && r[i].1 > 0)
  {
    var daily := DailyActivity(rows);
    var recent := Filter(daily, Recent(now));
    var r := SortBy(recent, EarlierDay);
    TallyFacts(Days(rows));
    EarlierDayIsTotalPreorder();
    SortByCorrect(recent, EarlierDay);
    FilterMultiset(daily, Recent(now));
    SubEntries(daily, r);
    forall i, j | 0 <= i < j < |r|
      ensures r[i].0 < r[j].0
    {
      assert Keys(r)[i] != Keys(r)[j];
    }
    RecentDays(daily, now, r);
    forall i | 0 <= i < |r|
      ensures r[i].1 > 0
    {
      var b := EntryIn(daily, r, i);
    }
  }

  /** The days listed are the recent days of the dictionary. */
  lemma RecentDays(daily: Counts<int>, now: int, r: Counts<int>)
    requires multiset(r) == multiset(Filter(daily, Recent(now)))
    ensures forall d :: d in Keys(r) <==> d in Keys(daily) && RecentDay(now, d)
  {
    forall d
      ensures d in Keys(r) <==> d in Keys(daily) && RecentDay(now, d)
    {
      if d in Keys(r) {
        var i := EntryOf(r, d);
        var b := FilteredFrom(daily, Recent(now), r, i);
        assert Keys(daily)[b] == d;
      }
      if d in Keys(daily) && RecentDay(now, d) {
        var b := EntryOf(daily, d);
        var i := KeptBy(daily, Recent(now), r, b);
        assert Keys(r)[i] == d;
      }
    }
  }

  /** `topContacts`: at most ten counterparties, each once, with their
      transaction counts, largest count first. A counterparty is left out only
      when ten others are listed, and then with no more transactions than any
      of them. Counterparties with equal counts keep the order in which they
      were first met, and are the first ones met with that count. */
  lemma TopContactsFacts(rows: seq<Transaction>, now: int)
    ensures var r := Summary(rows, now).topContacts;
      && |r| <= 10
      && (forall i, j :: 0 <= i < j < |r| ==> r[i].1 >= r[j].1 && r[i].0 != r[j].0)
      && (forall i :: 0 <= i < |r| ==> r[i].0 in Parties(rows) && r[i].1 == multiset(Parties(rows))[r[i].0])
      && (forall a :: a in Parties(rows) && a !in Keys(r) ==>
            |r| == 10 && forall i :: 0 <= i < |r| ==> r[i].1 >= multiset(Parties(rows))[a])
      && (forall e :: ClassOf(r, e, MoreFrequent) <= ClassOf(AddressCounts(rows), e, MoreFrequent))
  {
    var parties := AddressCounts(rows);
    TallyFacts(Parties(rows));
    TopOfCounts(parties);
    assert forall a :: a in Parties(rows) <==> a in Keys(parties);
  }

  /** The same facts about the ten largest entries of any dictionary. */
  lemma TopOfCounts<K(!new)>(parties: Counts<K>)
    requires Distinct(Keys(parties))
    ensures var r := Take(SortBy(parties, MoreFrequent<K>), 10);
      && |r| <= 10
      && (forall i, j :: 0 <= i < j < |r| ==> r[i].1 >= r[j].1 && r[i].0 != r[j].0)
      && (forall i :: 0 <= i < |r| ==> r[i].0 in Keys(parties) && r[i].1 == CountOf(parties, r[i].0))
      && (forall a :: a in Keys(parties) && a !in Keys(r) ==>
            |r| == 10 && forall i :: 0 <= i < |r| ==> r[i].1 >= CountOf(parties, a))
      && (forall e :: ClassOf(r, e, MoreFrequent<K>) <= ClassOf(parties, e, MoreFrequent<K>))
  {
    var sorted := SortBy(parties, MoreFrequent<K>);
    var r := Take(sorted, 10);
    MoreFrequentIsTotalPreorder<K>();
    SortByCorrect(parties, MoreFrequent<K>);
    TakeIsPrefix(sorted, 10);
    TopEntries(parties, sorted, r);
    TopDropped(parties, sorted, r);
    forall e
      ensures ClassOf(r, e, MoreFrequent<K>) <= ClassOf(parties, e, MoreFrequent<K>)
    {
      SortByStable(parties, e, MoreFrequent<K>);
      TakeClass(sorted, 10, e, MoreFrequent<K>);
    }
  }

  lemma TopEntries<K>(parties: Counts<K>, sorted: Counts<K>, r: Counts<K>)
    requires Distinct(Keys(parties)) && multiset(sorted) == multiset(parties)
    requires SortedBy(sorted, MoreFrequent<K>) && r <= sorted
    ensures forall i, j :: 0 <= i < j < |r| ==> r[i].1 >= r[j].1 && r[i].0 != r[j].0
    ensures forall i :: 0 <= i < |r| ==> r[i].0 in Keys(parties) && r[i].1 == CountOf(parties, r[i].0)
  {
    assert multiset(r) <= multiset(sorted) by {
      assert sorted == r + sorted[|r|..];
    }
    SubEntries(parties, r);
    forall i, j | 0 <= i < j < |r|
      ensures r[i].1 >= r[j].1 && r[i].0 != r[j].0
    {
      assert Keys(r)[i] != Keys(r)[j];
      assert MoreFrequent(sorted[i], sorted[j]);
    }
  }

  lemma TopDropped<K>(parties: Counts<K>, sorted: Counts<K>, r: Counts<K>)
    requires Distinct(Keys(parties)) && multiset(sorted) == multiset(parties)
    requires SortedBy(sorted, MoreFrequent<K>) && r <= sorted && |r| == if |sorted| < 10 then |sorted| else 10
    ensures forall a :: a in Keys(parties) && a !in Keys(r) ==>
              |r| == 10 && forall i :: 0 <= i < |r| ==> r[i].1 >= CountOf(parties, a)
  {
    forall a | a in Keys(parties) && a !in Keys(r)
      ensures |r| == 10 && forall i :: 0 <= i < |r| ==> r[i].1 >= CountOf(parties, a)
    {
      var b := EntryOf(parties, a);
      EntryCount(parties, b);
      var j := EntryIn(sorted, parties, b);
      assert j >= |r|;
      forall i | 0 <= i < |r|
        ensures r[i].1 >= CountOf(parties, a)
      {
        assert MoreFrequent(sorted[i], sorted[j]);
      }
    }
  }
}
