/**
 * The community VPN status board: its reader for the VPN-report spreadsheet
 * (three preamble lines, then one report per line), the Burmese status
 * classifier, the ISP filter and list, the per-VPN tally and the list of
 * VPNs sorted by number of reports.
 *
 * The row tokeniser of the original is a regular expression; here it is a
 * parameter `tokenize` that returns the matched pieces, the empty sequence
 * standing for "no match", in which case the row is split on commas.
 */
module CommunityVpnStatus {
  import opened Wrappers
  import opened Text
  import opened Seqs

  datatype Status = Ok | Blocked | Unknown

  datatype VpnReport = VpnReport(
    timestamp: string,
    isp: string,
    vpnName: string,
    status: Status,
    rawStatus: string)

  /** "The line is good". */
  const OkMarker: string := "\U{101C}\U{102D}\U{102F}\U{1004}\U{103A}\U{1038}\U{1000}\U{1031}\U{102C}\U{1004}\U{103A}\U{1038}\U{101E}\U{100A}\U{103A}"
  /** "Works fine". */
  const FineMarker: string := "\U{1021}\U{1006}\U{1004}\U{103A}\U{1015}\U{103C}\U{1031}"
  /** "Does not work". */
  const FailMarker: string := "\U{1019}\U{101B}\U{1015}\U{102B}"
  /** "Does not work at all": the word "at all" followed by `FailMarker`. */
  const AtAll: string := "\U{101C}\U{102F}\U{1036}\U{1038}\U{101D}"
  const TotalFailMarker: string := AtAll + FailMarker

  /** The status a report's free text announces. */
  function Classify(statusText: string): Status
  {
    if Contains(statusText, OkMarker) || Contains(statusText, FineMarker) then Ok
    else if Contains(statusText, TotalFailMarker) || Contains(statusText, FailMarker) then Blocked
    else Unknown
  }

  /**
   * The classification in terms of the markers alone: a working marker wins,
   * otherwise the short failure marker decides (the long one ends with it).
   */
  lemma ClassifyIff(statusText: string)
    ensures Classify(statusText) == Ok
            <==> Contains(statusText, OkMarker) || Contains(statusText, FineMarker)
    ensures Classify(statusText) == Blocked
            <==> !Contains(statusText, OkMarker) && !Contains(statusText, FineMarker)
                 && Contains(statusText, FailMarker)
    ensures Classify(statusText) == Unknown
            <==> !Contains(statusText, OkMarker) && !Contains(statusText, FineMarker)
                 && !Contains(statusText, FailMarker)
  {
    if Contains(statusText, TotalFailMarker) {
      ContainsSuffix(statusText, AtAll, FailMarker);
    }
  }

  /** The cleaned cells of a row: the tokeniser's pieces, or the comma split when it finds none. */
  function Cells(row: string, tokenize: string -> seq<string>): (cells: seq<string>)
    ensures tokenize(row) == [] ==> |cells| == Occurrences(row, ',') + 1
    ensures tokenize(row) != [] ==> |cells| == |tokenize(row)|
  {
    var pieces := if tokenize(row) == [] then Split(row, ',') else tokenize(row);
    CleanAll(pieces)
  }

  /** The report one data row yields: it needs five cells and a non-empty ISP and VPN name. */
  function RowReport(row: string, tokenize: string -> seq<string>): Option<VpnReport>
  {
    var cells := Cells(row, tokenize);
    if |cells| < 5 || cells[1] == "" || cells[2] == "" then None
    else Some(VpnReport(cells[0], cells[1], cells[2], Classify(cells[4]), cells[4]))
  }

  /** Which cells a report comes from, and which rows are skipped. */
  lemma RowReportFields(row: string, tokenize: string -> seq<string>)
    ensures var cells := Cells(row, tokenize);
            RowReport(row, tokenize).None? <==> |cells| < 5 || cells[1] == "" || cells[2] == ""
    ensures var cells := Cells(row, tokenize);
            RowReport(row, tokenize).Some? ==>
              var r := RowReport(row, tokenize).value;
              r.timestamp == cells[0] && r.isp == cells[1] && r.vpnName == cells[2]
              && r.rawStatus == cells[4] && r.status == Classify(r.rawStatus)
              && r.isp != "" && r.vpnName != ""
  {
  }

  /**
   * The spreadsheet row for a report, with `column3` in the column the
   * reader does not use: its fields joined by commas.
   */
  function FormatRow(r: VpnReport, column3: string): string
  {
    Join([r.timestamp, r.isp, r.vpnName, column3, r.rawStatus], ',')
  }

  /** A report that can be written as a row and read back: clean fields and a status that matches its text. */
  predicate Writable(r: VpnReport, column3: string)
  {
    var fields := [r.timestamp, r.isp, r.vpnName, column3, r.rawStatus];
    && r.isp != "" && r.vpnName != "" && r.status == Classify(r.rawStatus)
    && forall i :: 0 <= i < |fields| ==> Bare(fields[i]) && ',' !in fields[i]
  }

  /**
   * Reading back the row of a writable report gives the report, whether the
   * tokeniser returns the five fields (what it matches when no field holds
   * inner white space or a quote) or finds nothing and the row is split on
   * commas.
   */
  lemma RowRoundTrip(r: VpnReport, column3: string, tokenize: string -> seq<string>)
    requires Writable(r, column3)
    requires tokenize(FormatRow(r, column3)) == []
             || tokenize(FormatRow(r, column3)) == [r.timestamp, r.isp, r.vpnName, column3, r.rawStatus]
    ensures RowReport(FormatRow(r, column3), tokenize) == Some(r)
  {
    var fields := [r.timestamp, r.isp, r.vpnName, column3, r.rawStatus];
    SplitOfJoin(fields, ',');
    CleanAllBare(fields);
    assert Cells(FormatRow(r, column3), tokenize) == fields;
  }

  /** The reports of a run of rows, in row order. */
  function Reports(rows: seq<string>, tokenize: string -> seq<string>): (rs: seq<VpnReport>)
    ensures |rs| <= |rows|
  {
    FilterMap(rows, RowReader(tokenize))
  }

  /** `RowReport` with the tokeniser fixed, as one function value. */
  function RowReader(tokenize: string -> seq<string>): string -> Option<VpnReport>
  {
    row => RowReport(row, tokenize)
  }

  /** Reports come out in the order of their rows. */
  lemma ReportsAppend(a: seq<string>, b: seq<string>, tokenize: string -> seq<string>)
    ensures Reports(a + b, tokenize) == Reports(a, tokenize) + Reports(b, tokenize)
  {
    FilterMapAppend(a, b, RowReader(tokenize));
  }

  /** The number of preamble lines before the first data line. */
  const StartIndex := 3

  /** What the reader returns for `text`: the reports of the lines from index 3 on. */
  function Parsed(text: string, tokenize: string -> seq<string>): seq<VpnReport>
  {
    var lines := Split(text, '\n');
    if |lines| <= StartIndex then [] else Reports(lines[StartIndex..], tokenize)
  }

  /**
   * `parseCSV`: the lines, then one pass from index 3 (the preamble is
   * skipped) that keeps the report of each row that yields one.
   */
  method ParseCsv(text: string, tokenize: string -> seq<string>) returns (data: seq<VpnReport>)
    ensures data == Parsed(text, tokenize)
  {
    var lines := Split(text, '\n');
    data := [];
    var startIndex := StartIndex;
    if |lines| <= startIndex {
      // the loop from index 3 does not run
      return;
    }
    data := CollectFrom(lines, startIndex, RowReader(tokenize));
  }

  /** Text with fewer than three line breaks has no data line. */
  lemma ShortTextNoReports(text: string, tokenize: string -> seq<string>)
    requires Occurrences(text, '\n') < StartIndex
    ensures Parsed(text, tokenize) == []
  {
  }

  /** The first three lines never yield a report, whatever they hold. */
  lemma PreambleIgnored(a: string, b: string, c: string, a': string, b': string, c': string,
                        body: string, tokenize: string -> seq<string>)
    requires '\n' !in a && '\n' !in b && '\n' !in c
    requires '\n' !in a' && '\n' !in b' && '\n' !in c'
    ensures Parsed(a + "\n" + b + "\n" + c + "\n" + body, tokenize)
         == Parsed(a' + "\n" + b' + "\n" + c' + "\n" + body, tokenize)
  {
    PreambleLines(a, b, c, body);
    PreambleLines(a', b', c', body);
  }

  /** The three preamble lines come first in the split, then the lines of `body`. */
  lemma PreambleLines(a: string, b: string, c: string, body: string)
    requires '\n' !in a && '\n' !in b && '\n' !in c
    ensures |Split(a + "\n" + b + "\n" + c + "\n" + body, '\n')| > StartIndex
    ensures Split(a + "\n" + b + "\n" + c + "\n" + body, '\n')[StartIndex..] == Split(body, '\n')
  {
    var t3 := c + "\n" + body;
    var t2 := b + "\n" + t3;
    var t1 := a + "\n" + t2;
    assert t1 == a + "\n" + b + "\n" + c + "\n" + body;
    var rest := Split(body, '\n');
    SplitAfterPiece(c, body, '\n');
    SplitAfterPiece(b, t3, '\n');
    SplitAfterPiece(a, t2, '\n');
    assert Split(t1, '\n') == [a] + ([b] + ([c] + rest));
    assert ([a] + ([b] + ([c] + rest)))[3..] == rest;
  }

  /** The ISP filter: the selection 'All' keeps every report, any other keeps the reports of that ISP, in order. */
  function FilterByIsp(reports: seq<VpnReport>, selected: string): seq<VpnReport>
  {
    if selected == "All" then reports else Filter(reports, OfIsp(selected))
  }

  /** Whether a report belongs to the selected ISP. */
  function OfIsp(selected: string): VpnReport -> bool
  {
    (r: VpnReport) => r.isp == selected
  }

  /** The selection 'All' keeps every report, in order. */
  lemma FilterByIspAll(reports: seq<VpnReport>)
    ensures FilterByIsp(reports, "All") == reports
  {
  }

  /** Any other selection keeps exactly the reports of that ISP. */
  lemma FilterByIspMembers(reports: seq<VpnReport>, selected: string, r: VpnReport)
    requires selected != "All"
    ensures r in FilterByIsp(reports, selected) <==> r in reports && r.isp == selected
  {
    FilterMembers(reports, OfIsp(selected), r);
  }

  /** The filter keeps the order of the reports. */
  lemma FilterByIspAppend(a: seq<VpnReport>, b: seq<VpnReport>, selected: string)
    ensures FilterByIsp(a + b, selected) == FilterByIsp(a, selected) + FilterByIsp(b, selected)
  {
    if selected != "All" {
      FilterAppend(a, b, OfIsp(selected));
    }
  }

  /** Strictly increasing in the default string order: sorted and without repeats. */
  predicate StrictlySorted(xs: seq<string>)
  {
    forall i, j :: 0 <= i < j < |xs| ==> Less(xs[i], xs[j])
  }

  /** Adds `x` to a strictly sorted list unless it is already there. */
  function InsertSorted(xs: seq<string>, x: string): (ys: seq<string>)
    requires StrictlySorted(xs)
    ensures StrictlySorted(ys)
    ensures forall y :: y in ys <==> y in xs || y == x
  {
    if xs == [] then [x]
    else if x == xs[0] then xs
    else if Less(x, xs[0]) then
      LessBelowAll(x, xs);
      [x] + xs
    else
      LessTotal(x, xs[0]);
      var rest := InsertSorted(xs[1..], x);
      assert forall y :: y in rest ==> Less(xs[0], y) by {
        forall y | y in rest ensures Less(xs[0], y) {
          if y != x {
            var k :| 1 <= k < |xs| && xs[k] == y;
          }
        }
      }
      [xs[0]] + rest
  }

  /** An element below the head of a sorted list is below all of it. */
  lemma LessBelowAll(x: string, xs: seq<string>)
    requires StrictlySorted(xs) && xs != [] && Less(x, xs[0])
    ensures forall i :: 0 <= i < |xs| ==> Less(x, xs[i])
  {
    forall i | 0 < i < |xs| ensures Less(x, xs[i]) {
      LessTransitive(x, xs[0], xs[i]);
    }
  }

  /** The ISP choices: every ISP of the reports once, in the default string order. */
  function IspList(reports: seq<VpnReport>): (isps: seq<string>)
    ensures StrictlySorted(isps)
  {
    if reports == [] then []
    else InsertSorted(IspList(reports[..|reports| - 1]), reports[|reports| - 1].isp)
  }

  /** The ISP list names every ISP of the reports, once each, and nothing else. */
  lemma {:induction false} IspListMembers(reports: seq<VpnReport>, isp: string)
    ensures isp in IspList(reports) <==> exists r :: r in reports && r.isp == isp
  {
    if reports != [] {
      var n := |reports| - 1;
      IspListMembers(reports[..n], isp);
      assert reports == reports[..n] + [reports[n]];
      if exists r :: r in reports && r.isp == isp {
        var r :| r in reports && r.isp == isp;
        if r != reports[n] {
          assert r in reports[..n];
        }
      }
    }
  }

  /** No ISP appears twice in the list. */
  lemma IspListDistinct(reports: seq<VpnReport>)
    ensures Distinct(IspList(reports))
  {
    var isps := IspList(reports);
    forall i, j | 0 <= i < j < |isps| ensures isps[i] != isps[j] {
      if isps[i] == isps[j] {
        LessIrreflexive(isps[i]);
      }
    }
  }

  /** The counters kept per VPN name; `lastStatus` is the status of the first report seen. */
  datatype Stats = Stats(ok: nat, blocked: nat, total: nat, lastStatus: Status)

  /** The number of reports for VPN `name`. */
  function Count(rs: seq<VpnReport>, name: string): nat
  {
    if rs == [] then 0
    else Count(rs[..|rs| - 1], name) + (if rs[|rs| - 1].vpnName == name then 1 else 0)
  }

  /** The number of reports for VPN `name` with status `s`. */
  function CountStatus(rs: seq<VpnReport>, name: string, s: Status): nat
  {
    if rs == [] then 0
    else
      var r := rs[|rs| - 1];
      CountStatus(rs[..|rs| - 1], name, s) + (if r.vpnName == name && r.status == s then 1 else 0)
  }

  /** The status of the first report for VPN `name`, if there is one. */
  function FirstStatus(rs: seq<VpnReport>, name: string): Option<Status>
  {
    if rs == [] then None
    else
      var r := rs[|rs| - 1];
      var earlier := FirstStatus(rs[..|rs| - 1], name);
      if earlier.None? && r.vpnName == name then Some(r.status) else earlier
  }

  /** The VPN names in the order they are first seen. */
  function Names(rs: seq<VpnReport>): seq<string>
  {
    if rs == [] then []
    else
      var earlier := Names(rs[..|rs| - 1]);
      var name := rs[|rs| - 1].vpnName;
      if name in earlier then earlier else earlier + [name]
  }

  /** The counters of VPN `name` over `rs`. */
  function StatsOf(rs: seq<VpnReport>, name: string): Stats
    requires FirstStatus(rs, name).Some?
  {
    Stats(CountStatus(rs, name, Ok), CountStatus(rs, name, Blocked), Count(rs, name), FirstStatus(rs, name).value)
  }

  /** A name is listed exactly when some report has it, and then it has a first status. */
  lemma {:induction false} NamesMembers(rs: seq<VpnReport>, name: string)
    ensures name in Names(rs) <==> FirstStatus(rs, name).Some?
    ensures name in Names(rs) <==> Count(rs, name) > 0
    ensures name in Names(rs) <==> exists r :: r in rs && r.vpnName == name
  {
    if rs != [] {
      var n := |rs| - 1;
      NamesMembers(rs[..n], name);
      assert rs == rs[..n] + [rs[n]];
      if exists r :: r in rs && r.vpnName == name {
        var r :| r in rs && r.vpnName == name;
        if r != rs[n] {
          assert r in rs[..n];
        }
      }
    }
  }

  /** Every name is listed once. */
  lemma {:induction false} NamesDistinct(rs: seq<VpnReport>)
    ensures Distinct(Names(rs))
  {
    if rs != [] {
      NamesDistinct(rs[..|rs| - 1]);
    }
  }

  /** Per VPN, the OK and the BLOCKED reports together are at most all its reports. */
  lemma {:induction false} OkBlockedWithinTotal(rs: seq<VpnReport>, name: string)
    ensures CountStatus(rs, name, Ok) + CountStatus(rs, name, Blocked) <= Count(rs, name)
  {
    if rs != [] {
      OkBlockedWithinTotal(rs[..|rs| - 1], name);
    }
  }

  /** The first status is never overwritten by later reports. */
  lemma {:induction false} FirstStatusKept(rs: seq<VpnReport>, more: seq<VpnReport>, name: string)
    requires FirstStatus(rs, name).Some?
    ensures FirstStatus(rs + more, name) == FirstStatus(rs, name)
  {
    if more == [] {
      assert rs + more == rs;
    } else {
      var n := |more| - 1;
      FirstStatusKept(rs, more[..n], name);
      assert (rs + more)[..|rs + more| - 1] == rs + more[..n];
      assert FirstStatus(rs + more, name) == FirstStatus(rs + more[..n], name);
    }
  }

  /**
   * The `vpnStats` reduce: one pass over the filtered reports that creates the
   * counters of a name on its first report and then bumps them.
   */
  method Tally(rs: seq<VpnReport>) returns (names: seq<string>, acc: map<string, Stats>)
    ensures names == Names(rs)
    ensures forall name :: name in acc <==> name in names
    ensures forall name :: name in acc ==> FirstStatus(rs, name).Some? && acc[name] == StatsOf(rs, name)
  {
    names := [];
    acc := map[];
    var i := 0;
    while i < |rs|
      invariant 0 <= i <= |rs|
      invariant names == Names(rs[..i])
      invariant forall name :: name in acc <==> name in names
      invariant forall name :: name in acc ==> FirstStatus(rs[..i], name).Some? && acc[name] == StatsOf(rs[..i], name)
    {
      var curr := rs[i];
      ghost var acc0 := acc;
      TallyStep(rs, i);
      if curr.vpnName !in acc {
        NamesMembers(rs[..i], curr.vpnName);
        OkBlockedWithinTotal(rs[..i], curr.vpnName);
        acc := acc[curr.vpnName := Stats(0, 0, 0, curr.status)];
        names := names + [curr.vpnName];
      }
      var s := acc[curr.vpnName];
      s := s.(total := s.total + 1);
      if curr.status == Ok {
        s := s.(ok := s.ok + 1);
      }
      if curr.status == Blocked {
        s := s.(blocked := s.blocked + 1);
      }
      assert FirstStatus(rs[..i + 1], curr.vpnName).Some?;
      assert s == StatsOf(rs[..i + 1], curr.vpnName);
      TallyKeeps(rs, i, acc0, s);
      assert acc[curr.vpnName := s] == acc0[curr.vpnName := s];
      acc := acc[curr.vpnName := s];
      i := i + 1;
    }
    assert rs[..i] == rs;
  }

  /** Storing the new counters of report `i`'s name keeps every other name's counters right. */
  lemma TallyKeeps(rs: seq<VpnReport>, i: int, acc: map<string, Stats>, s: Stats)
    requires 0 <= i < |rs|
    requires forall name :: name in acc ==> FirstStatus(rs[..i], name).Some? && acc[name] == StatsOf(rs[..i], name)
    requires FirstStatus(rs[..i + 1], rs[i].vpnName).Some? && s == StatsOf(rs[..i + 1], rs[i].vpnName)
    ensures var acc' := acc[rs[i].vpnName := s];
            forall name :: name in acc' ==> FirstStatus(rs[..i + 1], name).Some? && acc'[name] == StatsOf(rs[..i + 1], name)
  {
    TallyStep(rs, i);
  }

  /** How the specification functions move when report `i` is added. */
  lemma TallyStep(rs: seq<VpnReport>, i: int)
    requires 0 <= i < |rs|
    ensures var name := rs[i].vpnName;
      && Count(rs[..i + 1], name) == Count(rs[..i], name) + 1
      && CountStatus(rs[..i + 1], name, Ok) == CountStatus(rs[..i], name, Ok) + (if rs[i].status == Ok then 1 else 0)
      && CountStatus(rs[..i + 1], name, Blocked) == CountStatus(rs[..i], name, Blocked) + (if rs[i].status == Blocked then 1 else 0)
      && FirstStatus(rs[..i + 1], name) == (if FirstStatus(rs[..i], name).None? then Some(rs[i].status) else FirstStatus(rs[..i], name))
      && Names(rs[..i + 1]) == (if name in Names(rs[..i]) then Names(rs[..i]) else Names(rs[..i]) + [name])
    ensures forall name :: name != rs[i].vpnName ==>
      Count(rs[..i + 1], name) == Count(rs[..i], name)
      && CountStatus(rs[..i + 1], name, Ok) == CountStatus(rs[..i], name, Ok)
      && CountStatus(rs[..i + 1], name, Blocked) == CountStatus(rs[..i], name, Blocked)
      && FirstStatus(rs[..i + 1], name) == FirstStatus(rs[..i], name)
  {
    assert rs[..i + 1][..i] == rs[..i];
  }

  /** One row of the displayed list. */
  datatype VpnEntry = VpnEntry(name: string, ok: nat, blocked: nat, total: nat, lastStatus: Status)

  /** The tallied counters as a list of entries, one per name, in the order the names were first added. */
  function Entries(names: seq<string>, acc: map<string, Stats>): (es: seq<VpnEntry>)
    requires forall name :: name in names ==> name in acc
    ensures |es| == |names|
    ensures forall i :: 0 <= i < |names| ==> es[i].name == names[i]
  {
    if names == [] then []
    else
      var s := acc[names[0]];
      [VpnEntry(names[0], s.ok, s.blocked, s.total, s.lastStatus)] + Entries(names[1..], acc)
  }

  /** Totals never increase along the list. */
  predicate ByTotal(es: seq<VpnEntry>)
  {
    forall i, j :: 0 <= i < j < |es| ==> es[i].total >= es[j].total
  }

  /** Putting an entry with the largest total in front of a list ordered by total keeps it ordered. */
  lemma ConsByTotal(h: VpnEntry, es: seq<VpnEntry>)
    requires ByTotal(es)
    requires es == [] || es[0].total <= h.total
    ensures ByTotal([h] + es)
  {
    var r := [h] + es;
    forall i, j | 0 <= i < j < |r| ensures r[i].total >= r[j].total {
      if i == 0 {
        assert r[j] == es[j - 1];
      } else {
        assert r[i] == es[i - 1] && r[j] == es[j - 1];
      }
    }
  }

  /** Puts `e` before the first entry whose total is not larger, keeping earlier entries first among equals. */
  function InsertByTotal(e: VpnEntry, es: seq<VpnEntry>): (r: seq<VpnEntry>)
    requires ByTotal(es)
    ensures ByTotal(r)
    ensures multiset(r) == multiset(es) + multiset{e}
    ensures r[0] == e || r[0] == es[0]
  {
    if es == [] || es[0].total <= e.total then
      ConsByTotal(e, es);
      [e] + es
    else
      var rest := InsertByTotal(e, es[1..]);
      assert es == [es[0]] + es[1..];
      assert ByTotal(es[1..]);
      ConsByTotal(es[0], rest);
      [es[0]] + rest
  }

  /** The list sorted by number of reports, largest first; entries with equal totals keep their order (the sort is stable). */
  function SortByTotal(es: seq<VpnEntry>): (r: seq<VpnEntry>)
    ensures ByTotal(r)
    ensures multiset(r) == multiset(es)
  {
    if es == [] then []
    else
      assert es == [es[0]] + es[1..];
      InsertByTotal(es[0], SortByTotal(es[1..]))
  }

  /** Whether an entry has `total` reports. */
  function WithTotal(total: nat): VpnEntry -> bool
  {
    (e: VpnEntry) => e.total == total
  }

  /** Inserting places the new entry after every entry with a larger total, before every one with the same total. */
  lemma {:induction false} InsertKeepsTies(e: VpnEntry, es: seq<VpnEntry>, total: nat)
    requires ByTotal(es)
    ensures Filter(InsertByTotal(e, es), WithTotal(total))
         == (if e.total == total then [e] else []) + Filter(es, WithTotal(total))
  {
    if es == [] || es[0].total <= e.total {
      assert ([e] + es)[1..] == es;
    } else {
      var rest := InsertByTotal(e, es[1..]);
      assert ByTotal(es[1..]);
      InsertKeepsTies(e, es[1..], total);
      assert ([es[0]] + rest)[1..] == rest;
    }
  }

  /** The sort is stable: the entries with any one total keep their relative order. */
  lemma {:induction false} SortKeepsTies(es: seq<VpnEntry>, total: nat)
    ensures Filter(SortByTotal(es), WithTotal(total)) == Filter(es, WithTotal(total))
  {
    if es != [] {
      SortKeepsTies(es[1..], total);
      InsertKeepsTies(es[0], SortByTotal(es[1..]), total);
    }
  }

  /** `vpnList`: the tallied VPNs of the selected ISP, most reported first. */
  function VpnList(reports: seq<VpnReport>, selectedIsp: string): seq<VpnEntry>
  {
    var rs := FilterByIsp(reports, selectedIsp);
    var acc := map name | name in Names(rs) :: StatsOfName(rs, name);
    SortByTotal(Entries(Names(rs), acc))
  }

  /** `StatsOf` for a listed name. */
  function StatsOfName(rs: seq<VpnReport>, name: string): Stats
    requires name in Names(rs)
  {
    NamesMembers(rs, name);
    StatsOf(rs, name)
  }

  /** The list has one entry per VPN name of the selected reports, largest total first. */
  lemma VpnListShape(reports: seq<VpnReport>, selectedIsp: string)
    ensures ByTotal(VpnList(reports, selectedIsp))
    ensures |VpnList(reports, selectedIsp)| == |Names(FilterByIsp(reports, selectedIsp))|
    ensures var rs := FilterByIsp(reports, selectedIsp);
            forall e :: e in VpnList(reports, selectedIsp) ==>
              e.name in Names(rs) && EntryCounts(rs, e)
    ensures var rs := FilterByIsp(reports, selectedIsp);
            forall name :: name in Names(rs) ==> exists e :: e in VpnList(reports, selectedIsp) && e.name == name
  {
    var rs := FilterByIsp(reports, selectedIsp);
    var acc := map name | name in Names(rs) :: StatsOfName(rs, name);
    var es := Entries(Names(rs), acc);
    assert |multiset(VpnList(reports, selectedIsp))| == |multiset(es)|;
    forall e | e in VpnList(reports, selectedIsp)
      ensures e.name in Names(rs) && EntryCounts(rs, e)
    {
      assert e in multiset(es);
      var k :| 0 <= k < |es| && es[k] == e;
      EntriesAt(Names(rs), acc, k);
      NamesMembers(rs, e.name);
    }
    forall name | name in Names(rs)
      ensures exists e :: e in VpnList(reports, selectedIsp) && e.name == name
    {
      var k :| 0 <= k < |Names(rs)| && Names(rs)[k] == name;
      assert es[k] in multiset(VpnList(reports, selectedIsp));
    }
  }

  /** The counters an entry shows are those of its name over the selected reports. */
  predicate EntryCounts(rs: seq<VpnReport>, e: VpnEntry)
  {
    && e.total == Count(rs, e.name)
    && e.ok == CountStatus(rs, e.name, Ok)
    && e.blocked == CountStatus(rs, e.name, Blocked)
    && FirstStatus(rs, e.name) == Some(e.lastStatus)
  }

  /** Entry `k` carries the counters of name `k`. */
  lemma {:induction false} EntriesAt(names: seq<string>, acc: map<string, Stats>, k: int)
    requires forall name :: name in names ==> name in acc
    requires 0 <= k < |names|
    ensures var s := acc[names[k]];
            Entries(names, acc)[k] == VpnEntry(names[k], s.ok, s.blocked, s.total, s.lastStatus)
  {
    if k > 0 {
      EntriesAt(names[1..], acc, k - 1);
    }
  }

  /** `isWorking`: a VPN shows as working when it has at least as many OK as BLOCKED reports. */
  function IsWorking(e: VpnEntry): bool
  {
    e.ok >= e.blocked
  }

  /**
   * A listed VPN shows as working exactly when its OK reports are at least its
   * BLOCKED ones; so one whose reports are all UNKNOWN shows as working, and
   * its counts never exceed its total.
   */
  lemma WorkingIff(reports: seq<VpnReport>, selectedIsp: string, e: VpnEntry)
    requires e in VpnList(reports, selectedIsp)
    ensures var rs := FilterByIsp(reports, selectedIsp);
            IsWorking(e) <==> CountStatus(rs, e.name, Ok) >= CountStatus(rs, e.name, Blocked)
    ensures e.ok + e.blocked <= e.total
    ensures e.total > 0
  {
    var rs := FilterByIsp(reports, selectedIsp);
    VpnListShape(reports, selectedIsp);
    OkBlockedWithinTotal(rs, e.name);
    NamesMembers(rs, e.name);
  }
}
