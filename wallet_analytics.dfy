/** The analytics panel: the CSV export of the wallet's summary and the
    figures the panel derives from the analytics route's answer. Number
    formatting (`toString`) is a parameter; the download itself is not modelled. */
module WalletAnalytics {
  import opened Wrappers
  import opened Records
  import opened Text
  import AnalyticsRoute
  import Tally

  /** The summary as the panel receives it: the totals already written as
      text, the transaction count, and how many top contacts came back. */
  datatype AnalyticsData = AnalyticsData(totalSent: string, totalReceived: string, totalTransactions: nat,
                                         topContacts: nat)

  /** The analytics route's answer as it arrives: totals through `toString`. */
  function Received(stats: AnalyticsRoute.Stats, show: real -> string): (r: AnalyticsData)
    ensures r.totalSent == show(stats.totalSent) && r.totalReceived == show(stats.totalReceived)
    ensures r.totalTransactions == stats.totalTransactions && r.topContacts == |stats.topContacts|
  {
    AnalyticsData(show(stats.totalSent), show(stats.totalReceived), stats.totalTransactions, |stats.topContacts|)
  }

  /** The "Unique Addresses" tile shows how many top contacts came back: never
      more than ten, and below ten only when every counterparty is among them. */
  lemma UniqueTileIsCapped(rows: seq<Transaction>, now: int, show: real -> string)
    ensures var shown := Received(AnalyticsRoute.Summary(rows, now), show).topContacts;
      && shown <= 10
      && (shown < 10 ==> forall a :: a in AnalyticsRoute.Parties(rows) ==> a in Tally.Keys(AnalyticsRoute.Summary(rows, now).topContacts))
  {
    AnalyticsRoute.TopContactsFacts(rows, now);
  }

  /** The export's rows: a header, then the five metrics in a fixed order. */
  function CsvRows(data: AnalyticsData, networkName: string, address: string, showCount: nat -> string): (r: seq<seq<string>>)
    ensures |r| == 6 && forall i :: 0 <= i < 6 ==> |r[i]| == 2
    ensures r[0] == ["Metric", "Value"]
    ensures r[1] == ["Total Sent", data.totalSent] && r[2] == ["Total Received", data.totalReceived]
    ensures r[3] == ["Total Transactions", showCount(data.totalTransactions)]
    ensures r[4] == ["Network", networkName] && r[5] == ["Wallet Address", address]
  {
    [["Metric", "Value"],
     ["Total Sent", data.totalSent],
     ["Total Received", data.totalReceived],
     ["Total Transactions", showCount(data.totalTransactions)],
     ["Network", networkName],
     ["Wallet Address", address]]
  }

  /** `row.join(",")` for every row. */
  function Lines(rows: seq<seq<string>>): (r: seq<string>)
    ensures |r| == |rows| && forall i :: 0 <= i < |rows| ==> r[i] == Join(rows[i], ',')
  {
    if rows == [] then [] else [Join(rows[0], ',')] + Lines(rows[1..])
  }

  /** The CSV text: cells joined by commas, rows by newlines, nothing quoted. */
  function CsvContent(rows: seq<seq<string>>): string {
    Join(Lines(rows), '\n')
  }

  datatype Download = Download(fileName: string, content: string)

  /** The file name: the first eight characters of the address between a
      fixed prefix and the `.csv` extension. */
  function FileName(address: string): (r: string)
    ensures "wallet-analytics-" <= r
    ensures |r| >= 21 && r[17..|r| - 4] == Head(address, 8) && r[|r| - 4..] == ".csv"
    ensures |r| <= 29
  {
    var r := "wallet-analytics-" + Head(address, 8) + ".csv";
    assert r[17..|r| - 4] == Head(address, 8);
    r
  }

  /** `exportData`: nothing without analytics; otherwise the CSV of the
      summary, named after the address. */
  function ExportData(analytics: Option<AnalyticsData>, networkName: string, address: string,
                      showCount: nat -> string): (r: Option<Download>)
    ensures r.None? <==> analytics.None?
    ensures r.Some? ==> r.value.fileName == FileName(address)
                        && r.value.content == CsvContent(CsvRows(analytics.value, networkName, address, showCount))
  {
    match analytics
    case None => None
    case Some(data) => Some(Download(FileName(address), CsvContent(CsvRows(data, networkName, address, showCount))))
  }

  /** A piece without the separator, joined with others that lack it, gives a
      text without it. */
  lemma {:induction false} JoinAvoids(pieces: seq<string>, sep: char, c: char)
    requires c != sep && forall i :: 0 <= i < |pieces| ==> c !in pieces[i]
    ensures c !in Join(pieces, sep)
  {
    if |pieces| > 1 {
      JoinAvoids(pieces[1..], sep, c);
    }
  }

  /** No cell may hold a comma or a newline for the CSV to read back. */
  predicate Plain(cell: string) {
    ',' !in cell && '\n' !in cell
  }

  /** Any table of plain cells, each row non-empty, reads back from its CSV
      text: the text splits into its lines and each line into its cells. */
  lemma PlainTableReadsBack(rows: seq<seq<string>>)
    requires |rows| >= 1
    requires forall i :: 0 <= i < |rows| ==> |rows[i]| >= 1
    requires forall i, j :: 0 <= i < |rows| && 0 <= j < |rows[i]| ==> Plain(rows[i][j])
    ensures Split(CsvContent(rows), '\n') == Lines(rows)
    ensures forall i :: 0 <= i < |rows| ==> Split(Lines(rows)[i], ',') == rows[i]
  {
    var lines := Lines(rows);
    forall i | 0 <= i < |rows|
      ensures '\n' !in lines[i] && Split(lines[i], ',') == rows[i]
    {
      JoinAvoids(rows[i], ',', '\n');
      SplitJoin(rows[i], ',');
    }
    SplitJoin(lines, '\n');
  }

  /** The export's fixed labels hold no comma and no newline. */
  lemma LabelsArePlain()
    ensures Plain("Metric") && Plain("Value") && Plain("Total Sent") && Plain("Total Received")
    ensures Plain("Total Transactions") && Plain("Network") && Plain("Wallet Address")
  {
    assert Plain("Metric");
  }

  /** Reading the export back: when no cell holds a comma or a newline, the
      text splits into the six rows and each row into its two cells. */
  lemma CsvReadsBack(data: AnalyticsData, networkName: string, address: string, showCount: nat -> string)
    requires Plain(data.totalSent) && Plain(data.totalReceived) && Plain(showCount(data.totalTransactions))
    requires Plain(networkName) && Plain(address)
    ensures var rows := CsvRows(data, networkName, address, showCount);
      var lines := Split(CsvContent(rows), '\n');
      && lines == Lines(rows)
      && forall i :: 0 <= i < 6 ==> Split(lines[i], ',') == rows[i]
  {
    var rows := CsvRows(data, networkName, address, showCount);
    LabelsArePlain();
    assert forall i, j :: 0 <= i < 6 && 0 <= j < 2 ==> Plain(rows[i][j]);
    PlainTableReadsBack(rows);
  }

  /** Nothing is escaped: a network name holding a comma reads back as two
      cells, the text before the comma and the text after it. */
  lemma CommaInCellSplitsIt(left: string, right: string)
    requires Plain(left) && Plain(right)
    ensures Split(Join(["Network", left + "," + right], ','), ',') == ["Network", left, right]
  {
    var cell := left + "," + right;
    assert cell == left + [','] + right;
    assert ',' !in "Network";
    assert Join(["Network", cell], ',') == "Network" + [','] + cell;
    SplitAfterPiece("Network", cell, ',');
    SplitAfterPiece(left, right, ',');
    SplitAfterPiece(right, "", ',');
  }

  /** The width of a day's activity bar, in percent: ten per transaction, at most 100. */
  function BarWidth(count: nat): (r: nat)
    ensures r <= 100
    ensures count <= 10 ==> r == count * 10
    ensures count >= 10 ==> r == 100
  {
    if count * 10 < 100 then count * 10 else 100
  }

  /** More activity never gives a shorter bar. */
  lemma BarWidthMonotone(a: nat, b: nat)
    requires a <= b
    ensures BarWidth(a) <= BarWidth(b)
  {
  }
}
