/**
 * The modem page's signal logger (static/js/modem.js): while logging, each
 * poll of the modem that reports a signal adds a row to the page-wide
 * `logData`; at the end the rows are turned into a CSV data link.
 *
 * `logData` and the log button are the fields of `SignalLog`. The values
 * of a row are given as the text the template literal renders them to;
 * the clock and the JSON request are inputs, and `encodeURI` and the link
 * click are not part of this model.
 */
module ModemPage {
  import opened Wrappers

  datatype LogRow = LogRow(timestamp: string, band: string, strength: string)

  /** The `signal` part of a modem response: its band and strength. */
  datatype Signal = Signal(band: string, strength: string)

  const CsvPreamble := "data:text/csv;charset=utf-8,"
  const CsvHeader := "Timestamp,Band,Strength\r\n"

  /** One CSV line. */
  function CsvRow(r: LogRow): string
  {
    r.timestamp + "," + r.band + "," + r.strength + "\r\n"
  }

  /** The CSV lines of the rows, in order. */
  function CsvRows(rows: seq<LogRow>): string
  {
    if rows == [] then "" else CsvRows(rows[..|rows| - 1]) + CsvRow(rows[|rows| - 1])
  }

  /** The whole CSV text: preamble, header, one line per row. */
  function Csv(rows: seq<LogRow>): (r: string)
    ensures |r| >= |CsvPreamble + CsvHeader|
    ensures r[..|CsvPreamble + CsvHeader|] == CsvPreamble + CsvHeader
  {
    CsvPreamble + CsvHeader + CsvRows(rows)
  }

  /** A value holding no separator and no line break. */
  predicate Plain(s: string)
  {
    forall c :: c in s ==> c != ',' && c != '\r' && c != '\n'
  }

  predicate PlainRow(r: LogRow)
  {
    Plain(r.timestamp) && Plain(r.band) && Plain(r.strength)
  }

  /** The number of occurrences of `c` in `s`. */
  function Count(s: string, c: char): nat
  {
    multiset(s)[c]
  }

  lemma PlainCounts(s: string)
    requires Plain(s)
    ensures Count(s, ',') == 0 && Count(s, '\r') == 0 && Count(s, '\n') == 0
  {
    assert ',' !in s && '\r' !in s && '\n' !in s;
  }

  /** A plain row's line holds two commas and one line end. */
  lemma RowCounts(r: LogRow)
    requires PlainRow(r)
    ensures Count(CsvRow(r), ',') == 2 && Count(CsvRow(r), '\r') == 1 && Count(CsvRow(r), '\n') == 1
  {
    PlainCounts(r.timestamp);
    PlainCounts(r.band);
    PlainCounts(r.strength);
    var line := CsvRow(r);
    assert line == r.timestamp + "," + r.band + "," + r.strength + "\r\n";
    assert multiset(line) == multiset(r.timestamp) + multiset(",") + multiset(r.band)
      + multiset(",") + multiset(r.strength) + multiset("\r\n");
  }

  /** With plain values, the rows' CSV has exactly one line break, one
      carriage return and two commas per row. */
  lemma {:induction false} CsvRowsCounts(rows: seq<LogRow>)
    requires forall k :: 0 <= k < |rows| ==> PlainRow(rows[k])
    ensures Count(CsvRows(rows), '\n') == |rows|
    ensures Count(CsvRows(rows), '\r') == |rows|
    ensures Count(CsvRows(rows), ',') == 2 * |rows|
  {
    if rows != [] {
      var init := rows[..|rows| - 1];
      var r := rows[|rows| - 1];
      CsvRowsCounts(init);
      RowCounts(r);
      assert multiset(CsvRows(rows)) == multiset(CsvRows(init)) + multiset(CsvRow(r));
    }
  }

  /** The rows' lines of two runs of rows are those of each run. */
  lemma {:induction false} CsvRowsAppend(earlier: seq<LogRow>, later: seq<LogRow>)
    ensures CsvRows(earlier) + CsvRows(later) == CsvRows(earlier + later)
  {
    if later != [] {
      var init, last := later[..|later| - 1], later[|later| - 1];
      assert (earlier + later)[..|earlier + later| - 1] == earlier + init;
      assert (earlier + later)[|earlier + later| - 1] == last;
      calc {
        CsvRows(earlier + later);
        CsvRows(earlier + init) + CsvRow(last);
        { CsvRowsAppend(earlier, init); }
        CsvRows(earlier) + CsvRows(init) + CsvRow(last);
        CsvRows(earlier) + CsvRows(later);
      }
    } else {
      assert earlier + later == earlier;
    }
  }

  /** Rows logged later only add lines at the end: the CSV of the earlier
      rows is a prefix of the CSV of all of them. */
  lemma CsvExtends(earlier: seq<LogRow>, later: seq<LogRow>)
    ensures Csv(earlier + later) == Csv(earlier) + CsvRows(later)
    ensures Csv(earlier) <= Csv(earlier + later)
  {
    CsvRowsAppend(earlier, later);
    assert Csv(earlier + later) == Csv(earlier) + CsvRows(later);
  }

  class SignalLog {
    var logData: seq<LogRow>
    var buttonDisabled: bool
    var buttonText: string
    /** The CSV texts offered for download so far. */
    var downloads: seq<string>

    constructor ()
      ensures logData == [] && downloads == [] && !buttonDisabled
    {
      logData := [];
      buttonDisabled := false;
      buttonText := "Start Logging";
      downloads := [];
    }

    /** `startLogging`: disables the button; the polls and the final
        download are the timer events `LogSignalData` and
        `CreateCSVDownload`. */
    method StartLogging()
      modifies this
      ensures buttonDisabled && buttonText == "Logging..."
      ensures logData == old(logData) && downloads == old(downloads)
    {
      buttonDisabled := true;
      buttonText := "Logging...";
    }

    /** `logSignalData`: the poll's outcome is `None` for a failed request
        or a response without a signal. Only a signal adds a row, stamped
        with the current time. */
    method LogSignalData(signal: Option<Signal>, now: string)
      modifies this
      ensures signal.Some? ==> logData == old(logData) + [LogRow(now, signal.value.band, signal.value.strength)]
      ensures signal.None? ==> logData == old(logData)
      ensures downloads == old(downloads) && buttonDisabled == old(buttonDisabled)
      ensures buttonText == old(buttonText)
    {
      if signal.Some? {
        logData := logData + [LogRow(now, signal.value.band, signal.value.strength)];
      }
    }

    /** `createCSVDownload`: builds the CSV of every row logged so far,
        offers it for download and enables the button again. */
    method CreateCSVDownload() returns (csvContent: string)
      modifies this
      ensures csvContent == Csv(logData)
      ensures downloads == old(downloads) + [csvContent]
      ensures logData == old(logData) && !buttonDisabled && buttonText == "Start Logging"
    {
      csvContent := CsvPreamble;
      csvContent := csvContent + CsvHeader;
      var i := 0;
      while i < |logData|
        invariant 0 <= i <= |logData|
        invariant csvContent == CsvPreamble + CsvHeader + CsvRows(logData[..i])
      {
        var row := logData[i];
        var rowString := row.timestamp + "," + row.band + "," + row.strength + "\r\n";
        assert logData[..i + 1][..i] == logData[..i];
        csvContent := csvContent + rowString;
        i := i + 1;
      }
      assert logData[..i] == logData;
      downloads := downloads + [csvContent];
      buttonDisabled := false;
      buttonText := "Start Logging";
    }
  }

  /** Two logging runs: the second download still holds the first run's
      rows ahead of its own, since `logData` is never cleared. */
  method TwoRuns(a: Signal, b: Signal) returns (first: string, second: string)
    ensures first == Csv([LogRow("t1", a.band, a.strength)])
    ensures second == Csv([LogRow("t1", a.band, a.strength), LogRow("t2", b.band, b.strength)])
    ensures first <= second
  {
    var log := new SignalLog();
    log.StartLogging();
    log.LogSignalData(Some(a), "t1");
    log.LogSignalData(None, "t1a");
    first := log.CreateCSVDownload();
    log.StartLogging();
    log.LogSignalData(Some(b), "t2");
    second := log.CreateCSVDownload();
    assert [LogRow("t1", a.band, a.strength)] + [LogRow("t2", b.band, b.strength)]
      == [LogRow("t1", a.band, a.strength), LogRow("t2", b.band, b.strength)];
    CsvExtends([LogRow("t1", a.band, a.strength)], [LogRow("t2", b.band, b.strength)]);
  }
}
