/**
 * The community dashboard: its reader for the crowd-report spreadsheet
 * (published as CSV) and the status of one ISP/protocol cell of the
 * region table, which counts the matching reports.
 *
 * The reader is not quote-aware: every comma splits a field, also one
 * inside double quotes.
 */
module CommunityDashboard {
  import opened Wrappers
  import opened Text
  import opened Seqs

  /** One crowd report; `internetType` is absent when the row has only four cells. */
  datatype Report = Report(
    timestamp: string,
    protocol: string,
    region: string,
    isp: string,
    internetType: Option<string>)

  /** The cleaned cells of one line: split on every comma, then each piece cleaned. */
  function Cells(line: string): (cells: seq<string>)
    ensures |cells| == Occurrences(line, ',') + 1
  {
    CleanAll(Split(line, ','))
  }

  /** The report one data line yields: it needs four cells and non-empty cells 1 to 3. */
  function RowReport(line: string): Option<Report>
  {
    var cols := Cells(line);
    if |cols| >= 4 && cols[1] != "" && cols[2] != "" && cols[3] != "" then
      Some(Report(cols[0], cols[1], cols[2], cols[3], if |cols| >= 5 then Some(cols[4]) else None))
    else
      None
  }

  /**
   * A line is kept exactly when it has four cells with cells 1 to 3 non-empty;
   * cells 0 to 4 then become the fields in order, and a four-cell line has no
   * internet type.
   */
  lemma RowReportFields(line: string)
    ensures var cols := Cells(line);
            RowReport(line).Some? <==> |cols| >= 4 && cols[1] != "" && cols[2] != "" && cols[3] != ""
    ensures var cols := Cells(line);
            RowReport(line).Some? ==>
              var r := RowReport(line).value;
              && r.timestamp == cols[0] && r.protocol == cols[1] && r.region == cols[2] && r.isp == cols[3]
              && (r.internetType.None? <==> |cols| == 4)
              && (r.internetType.Some? ==> r.internetType.value == cols[4])
  {
  }

  /** The reports a run of data lines yields, in line order. */
  function Reports(lines: seq<string>): (rs: seq<Report>)
    ensures |rs| <= |lines|
  {
    FilterMap(lines, RowReport)
  }

  /** Every report names a protocol, a region and an ISP. */
  lemma ReportsHaveKeys(lines: seq<string>, r: Report)
    requires r in Reports(lines)
    ensures r.protocol != "" && r.region != "" && r.isp != ""
  {
    FilterMapSource(lines, RowReport, r);
  }

  /** A line that still has text once trimmed. */
  predicate NotBlank(line: string)
  {
    Trim(line) != ""
  }

  /** The lines that are not white space only, in order. */
  function NonBlankLines(lines: seq<string>): (kept: seq<string>)
    ensures |kept| <= |lines|
  {
    Filter(lines, NotBlank)
  }

  /** A line is kept exactly when it is not whitespace only. */
  lemma NonBlankMembers(lines: seq<string>, l: string)
    ensures l in NonBlankLines(lines) <==> l in lines && !IsBlank(l)
  {
    FilterMembers(lines, NotBlank, l);
    TrimEmptyIff(l);
  }

  /** The reports of the lines after the first, which is the header. */
  function AfterHeader(lines: seq<string>): seq<Report>
  {
    if lines == [] then [] else Reports(lines[1..])
  }

  /** What the reader returns for `text`: the reports of the non-blank lines after the first. */
  function Parsed(text: string): seq<Report>
  {
    AfterHeader(NonBlankLines(Split(text, '\n')))
  }

  /** Reports come out in the order of their lines. */
  lemma ReportsAppend(a: seq<string>, b: seq<string>)
    ensures Reports(a + b) == Reports(a) + Reports(b)
  {
    FilterMapAppend(a, b, RowReport);
  }

  /**
   * `parseCSV`: the non-blank lines, then one pass from index 1 (the header
   * is skipped) that keeps the report of each line that yields one.
   */
  method ParseCsv(text: string) returns (data: seq<Report>)
    ensures data == Parsed(text)
  {
    var lines := NonBlankLines(Split(text, '\n'));
    data := [];
    if lines == [] {
      // the loop from index 1 does not run
      return;
    }
    data := CollectFrom(lines, 1, RowReport);
  }

  /** At most one report per non-blank line after the header. */
  lemma ParsedBound(text: string)
    ensures var lines := NonBlankLines(Split(text, '\n'));
            |Parsed(text)| <= if lines == [] then 0 else |lines| - 1
  {
  }

  /** The first non-blank line is a header: whatever it says, it yields no report. */
  lemma HeaderIgnored(header: string, other: string, body: string)
    requires '\n' !in header && '\n' !in other
    requires !IsBlank(header) && !IsBlank(other)
    ensures Parsed(header + "\n" + body) == Parsed(other + "\n" + body)
  {
    TrimEmptyIff(header);
    TrimEmptyIff(other);
    SplitAfterPiece(header, body, '\n');
    SplitAfterPiece(other, body, '\n');
    var rest := Split(body, '\n');
    assert ([header] + rest)[1..] == rest;
    assert ([other] + rest)[1..] == rest;
  }

  /** Whitespace-only lines are dropped before the header is chosen. */
  lemma BlankLineIgnored(blank: string, text: string)
    requires '\n' !in blank && IsBlank(blank)
    ensures Parsed(blank + "\n" + text) == Parsed(text)
  {
    SplitAfterPiece(blank, text, '\n');
    var rest := Split(text, '\n');
    assert Split(blank + "\n" + text, '\n') == [blank] + rest;
    TrimEmptyIff(blank);
    assert !NotBlank(blank);
    assert ([blank] + rest)[1..] == rest;
    assert NonBlankLines([blank] + rest) == NonBlankLines(rest);
  }

  /** The cells of the spreadsheet row for `r`, in column order. */
  function Fields(r: Report): (fields: seq<string>)
    ensures 4 <= |fields| <= 5
  {
    [r.timestamp, r.protocol, r.region, r.isp] + (if r.internetType.Some? then [r.internetType.value] else [])
  }

  /** A report whose fields are free of commas, line breaks and edge quotes or spaces. */
  predicate Writable(r: Report)
  {
    && r.protocol != "" && r.region != "" && r.isp != ""
    && forall i :: 0 <= i < |Fields(r)| ==> Bare(Fields(r)[i]) && ',' !in Fields(r)[i] && '\n' !in Fields(r)[i]
  }

  /** The spreadsheet row for a report: its fields joined by commas. */
  function FormatRow(r: Report): string
  {
    Join(Fields(r), ',')
  }

  /** A character that is neither the separator nor in any piece is not in their join. */
  lemma {:induction false} JoinAvoids(parts: seq<string>, sep: char, c: char)
    requires |parts| >= 1 && c != sep
    requires forall i :: 0 <= i < |parts| ==> c !in parts[i]
    ensures c !in Join(parts, sep)
  {
    if |parts| > 1 {
      JoinAvoids(parts[1..], sep, c);
    }
  }

  /** Reading back the row of a writable report gives the report. */
  lemma RowRoundTrip(r: Report)
    requires Writable(r)
    ensures RowReport(FormatRow(r)) == Some(r)
  {
    var fields := Fields(r);
    assert forall i :: 0 <= i < |fields| ==> Bare(fields[i]) && ',' !in fields[i];
    SplitOfJoin(fields, ',');
    CleanAllBare(fields);
    assert Cells(FormatRow(r)) == fields;
  }

  /** The text of a header line followed by one row per report. */
  function FormatCsv(header: string, rs: seq<Report>): string
  {
    Join([header] + FormatRows(rs), '\n')
  }

  function FormatRows(rs: seq<Report>): (rows: seq<string>)
    ensures |rows| == |rs|
  {
    if rs == [] then [] else [FormatRow(rs[0])] + FormatRows(rs[1..])
  }

  /** The row of a writable report is one non-blank line. */
  lemma RowIsLine(r: Report)
    requires Writable(r)
    ensures '\n' !in FormatRow(r) && !IsBlank(FormatRow(r))
  {
    var fields := Fields(r);
    assert forall i :: 0 <= i < |fields| ==> '\n' !in fields[i] && ',' !in fields[i];
    JoinAvoids(fields, ',', '\n');
    SplitOfJoin(fields, ',');
    assert ',' in FormatRow(r) by {
      if ',' !in FormatRow(r) {
        SplitNoSeparator(FormatRow(r), ',');
      }
    }
    var k :| 0 <= k < |FormatRow(r)| && FormatRow(r)[k] == ',';
  }

  lemma {:induction false} FormatRowsShape(rs: seq<Report>)
    requires forall r :: r in rs ==> Writable(r)
    ensures forall i :: 0 <= i < |rs| ==> '\n' !in FormatRows(rs)[i]
    ensures NonBlankLines(FormatRows(rs)) == FormatRows(rs)
    ensures Reports(FormatRows(rs)) == rs
  {
    if rs != [] {
      FormatRowsShape(rs[1..]);
      var r := rs[0];
      assert r in rs;
      RowIsLine(r);
      RowRoundTrip(r);
      var rows := FormatRows(rs);
      assert rows == [FormatRow(r)] + FormatRows(rs[1..]);
      assert rows[1..] == FormatRows(rs[1..]);
      TrimEmptyIff(rows[0]);
      assert NotBlank(rows[0]);
    }
  }

  /**
   * For well-formed text with a header and one row per report, the reader
   * returns exactly those reports, in order.
   */
  lemma CsvRoundTrip(header: string, rs: seq<Report>)
    requires '\n' !in header && !IsBlank(header)
    requires forall r :: r in rs ==> Writable(r)
    ensures Parsed(FormatCsv(header, rs)) == rs
  {
    FormatRowsShape(rs);
    TrimEmptyIff(header);
    var lines := [header] + FormatRows(rs);
    SplitOfJoin(lines, '\n');
    assert lines[1..] == FormatRows(rs);
  }

  /**
   * A comma inside double quotes still splits the field: a protocol written
   * `"a, b"` comes out as protocol `a`, region `b`, and every later field
   * shifted one place to the right.
   */
  lemma QuotedCommaSplits(ts: string, a: string, b: string, region: string, isp: string)
    requires a != [] && b != [] && region != []
    requires Bare(ts) && Bare(a) && Bare(b) && Bare(region) && Bare(isp)
    requires ',' !in ts && ',' !in a && ',' !in b && ',' !in region && ',' !in isp
    ensures RowReport(ts + ",\"" + a + ", " + b + "\"," + region + "," + isp)
         == Some(Report(ts, a, b, region, Some(isp)))
  {
    QuotedCells(ts, a, b, region, isp);
  }

  /** The cells of the line with a quoted comma: the quotes are stripped from the two halves. */
  lemma QuotedCells(ts: string, a: string, b: string, region: string, isp: string)
    requires a != [] && b != []
    requires Bare(ts) && Bare(a) && Bare(b) && Bare(region) && Bare(isp)
    requires ',' !in ts && ',' !in a && ',' !in b && ',' !in region && ',' !in isp
    ensures Cells(ts + ",\"" + a + ", " + b + "\"," + region + "," + isp) == [ts, a, b, region, isp]
  {
    QuotedPieces(ts, a, b, region, isp);
    CleanAllFive(ts, "\"" + a, " " + b + "\"", region, isp);
    CleanLeadingQuote(a);
    CleanSpacedTrailingQuote(b);
    CleanBare(ts);
    CleanBare(region);
    CleanBare(isp);
  }

  /** The line with a quoted comma splits into five pieces. */
  lemma QuotedPieces(ts: string, a: string, b: string, region: string, isp: string)
    requires ',' !in ts && ',' !in a && ',' !in b && ',' !in region && ',' !in isp
    ensures Split(ts + ",\"" + a + ", " + b + "\"," + region + "," + isp, ',')
         == [ts, "\"" + a, " " + b + "\"", region, isp]
  {
    var pieces := [ts, "\"" + a, " " + b + "\"", region, isp];
    JoinFive(ts, a, b, region, isp);
    forall i | 0 <= i < |pieces| ensures ',' !in pieces[i] {
    }
    SplitOfJoin(pieces, ',');
  }

  lemma CleanAllFive(c0: string, c1: string, c2: string, c3: string, c4: string)
    ensures CleanAll([c0, c1, c2, c3, c4]) == [Clean(c0), Clean(c1), Clean(c2), Clean(c3), Clean(c4)]
  {
    CleanAllAt([c0, c1, c2, c3, c4]);
  }

  lemma JoinFive(ts: string, a: string, b: string, region: string, isp: string)
    ensures Join([ts, "\"" + a, " " + b + "\"", region, isp], ',')
         == ts + ",\"" + a + ", " + b + "\"," + region + "," + isp
  {
    var pieces := [ts, "\"" + a, " " + b + "\"", region, isp];
    assert Join(pieces[4..], ',') == isp;
    assert Join(pieces[3..], ',') == region + "," + isp;
    assert Join(pieces[2..], ',') == " " + b + "\"" + "," + region + "," + isp;
    assert Join(pieces[1..], ',') == "\"" + a + "," + " " + b + "\"" + "," + region + "," + isp;
  }

  /** The three states of a dashboard cell. */
  datatype Level = Ok | Warn | Blocked

  /** The status of one cell and the number of reports behind it. */
  datatype CellStatus = CellStatus(status: Level, count: nat)

  /** How bad a level is. */
  function Severity(l: Level): nat
  {
    match l
    case Ok => 0
    case Warn => 1
    case Blocked => 2
  }

  predicate Relevant(r: Report, region: string, isp: string, protocol: string)
  {
    r.region == region && r.isp == isp && r.protocol == protocol
  }

  /** The number of reports for the given region, ISP and protocol. */
  function MatchCount(reports: seq<Report>, region: string, isp: string, protocol: string): nat
  {
    if reports == [] then 0
    else
      var last := reports[|reports| - 1];
      MatchCount(reports[..|reports| - 1], region, isp, protocol) + (if Relevant(last, region, isp, protocol) then 1 else 0)
  }

  /** The positions of the reports that count towards a cell. */
  function RelevantIndices(reports: seq<Report>, region: string, isp: string, protocol: string): set<int>
  {
    set i | 0 <= i < |reports| && Relevant(reports[i], region, isp, protocol)
  }

  /** Appending a report adds its position exactly when it counts. */
  lemma RelevantIndicesSnoc(reports: seq<Report>, region: string, isp: string, protocol: string)
    requires reports != []
    ensures var n := |reports| - 1;
            RelevantIndices(reports, region, isp, protocol)
            == RelevantIndices(reports[..n], region, isp, protocol)
               + (if Relevant(reports[n], region, isp, protocol) then {n} else {})
  {
    var n := |reports| - 1;
    assert forall i :: 0 <= i < n ==> reports[..n][i] == reports[i];
  }

  /** The count is the number of matching reports. */
  lemma {:induction false} MatchCountIndices(reports: seq<Report>, region: string, isp: string, protocol: string)
    ensures MatchCount(reports, region, isp, protocol) == |RelevantIndices(reports, region, isp, protocol)|
  {
    if reports != [] {
      var n := |reports| - 1;
      MatchCountIndices(reports[..n], region, isp, protocol);
      RelevantIndicesSnoc(reports, region, isp, protocol);
      assert n !in RelevantIndices(reports[..n], region, isp, protocol);
    }
  }

  /**
   * `getStatus(isp, protocol)` for the selected region: OK with no report,
   * WARN with one or two, BLOCKED with three or more.
   */
  function GetStatus(reports: seq<Report>, selectedRegion: string, isp: string, protocol: string): (c: CellStatus)
    ensures c.count == |RelevantIndices(reports, selectedRegion, isp, protocol)|
    ensures c.status == Ok <==> c.count == 0
    ensures c.status == Warn <==> 1 <= c.count <= 2
    ensures c.status == Blocked <==> c.count >= 3
  {
    MatchCountIndices(reports, selectedRegion, isp, protocol);
    var count := MatchCount(reports, selectedRegion, isp, protocol);
    if count == 0 then CellStatus(Ok, count)
    else if count < 3 then CellStatus(Warn, count)
    else CellStatus(Blocked, count)
  }

  /** One more matching report raises the count by one and never lowers the severity. */
  lemma MatchingReportNeverLowers(reports: seq<Report>, r: Report, selectedRegion: string, isp: string, protocol: string)
    requires Relevant(r, selectedRegion, isp, protocol)
    ensures GetStatus(reports + [r], selectedRegion, isp, protocol).count == GetStatus(reports, selectedRegion, isp, protocol).count + 1
    ensures Severity(GetStatus(reports + [r], selectedRegion, isp, protocol).status)
         >= Severity(GetStatus(reports, selectedRegion, isp, protocol).status)
  {
    assert (reports + [r])[..|reports|] == reports;
  }

  /** A report for another region, ISP or protocol leaves the cell as it is. */
  lemma OtherReportNoEffect(reports: seq<Report>, r: Report, selectedRegion: string, isp: string, protocol: string)
    requires !Relevant(r, selectedRegion, isp, protocol)
    ensures GetStatus(reports + [r], selectedRegion, isp, protocol) == GetStatus(reports, selectedRegion, isp, protocol)
  {
    assert (reports + [r])[..|reports|] == reports;
  }
}
