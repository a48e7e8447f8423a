# vpn-safety-guard core, modelled in Dafny

A model of the decision and data logic of the VPN Safety Guard web app. The
app is a Next.js site that helps people in Myanmar check their VPN
connections. The model has one module per core source file:

- `CommunityDashboard` (community_dashboard.dfy): the dashboard's CSV reader
  for crowd reports. It splits on newlines, drops blank lines, skips the
  header, splits naively on commas, strips quotes and trims. Also the
  OK/WARN/BLOCKED status of one region/ISP/protocol cell. The reader is an
  imperative method proved against a specification function. A reference
  writer (`FormatCsv`) gives the reader an inverse to be checked against.
- `CommunityVpnStatus` (community_vpn_status.dfy): the VPN-status reader
  (three preamble lines, then one report per row). Also:
  - the Burmese status-text classifier;
  - the ISP filter and the sorted ISP list;
  - the per-VPN tally (a loop over an accumulator map);
  - the stable sort by number of reports;
  - the "working" verdict.
- `VisitorCount` (visitor_count.dfy): the visitor counter endpoint. Covers
  the forwarded-address rule, the synthetic count that grows with the clock,
  and the de-duplicating counter, which is a class updated in place. Also the
  `GET` and `POST` replies.
- `WebRtcCheck` (webrtc_check.dfy): the WebRTC check hook. It is a class
  whose event methods collect the addresses found in ICE candidates, each
  once, in first-seen order, and clear the `checking` flag.
- `LeakTest` (leak_test.dfy): which view the leak-test panel shows, and when
  it reports a WebRTC leak.
- `KnowledgeBase` (knowledge_base.dfy): the table of 15 VPN apps, the
  case-insensitive name search, and the display rules (unknown-app notice,
  cards, typing hint, risk badge).
- `Middleware` (middleware.dfy): the access gate on path prefixes and the
  `auth_token` cookie, and the route matcher that decides where the gate runs.
- `Login` (login.dfy): the credential check against environment values with
  defaults, and the session cookie it sets.

Shared modules:

- `Wrappers` has `Option`.
- `Text` has JavaScript's string operations as the core uses them:
  - `split` always gives at least one piece;
  - `trim` removes the ECMAScript white space and line terminators;
  - `replace(/^"|"$/g, '')`;
  - `includes` and `startsWith`;
  - ASCII `toLowerCase`;
  - the default string order of `sort()`.
- `Seqs` has `filter`, a filter-and-map, and the generic index loop that both
  CSV readers run.

Parts of the system outside the code are parameters:

- the row tokeniser regular expression, `tokenize`;
- the IP regular expression of the WebRTC hook, `extractIP`;
- SHA-256, `hashIP`;
- the clock, `now` in milliseconds;
- the data file, a `StoredFile` value read at the start of a request, plus
  `writeOk`, whether writing it back succeeds;
- cookies and environment variables, as `Option` values.

## Definitions

The functions below define what the code computes. Each is specified by the lemmas named beside it, which have rows of their own under "## Model".

| definition | source | specified by |
|---|---|---|
| Text.Contains | src/components/CommunityVPNStatus.tsx:68 | `Text.ContainsIff` |
| Text.Lower | src/components/VPNKnowledgeBase.tsx:119 | `Text.CaseVariantsLower`, `KnowledgeBase.FilteredMembers` |
| Text.Less | src/components/CommunityVPNStatus.tsx:86 | `Text.LessIrreflexive`, `Text.LessTransitive`, `Text.LessTotal` |
| Text.Join | src/components/CommunityDashboard.tsx:58 | `Text.JoinOfSplit`, `Text.SplitOfJoin`, `CommunityDashboard.JoinAvoids` (the inverse of the comma split) |
| Text.Clean | src/components/CommunityDashboard.tsx:58 | `Text.StripQuotes`, `Text.Trim`, `Text.CleanQuoted` |
| Text.CleanAll | src/components/CommunityVPNStatus.tsx:57 | `Text.CleanAllAt` |
| CommunityDashboard.RowReport | src/components/CommunityDashboard.tsx:58-74 | `CommunityDashboard.RowReportFields`, `CommunityDashboard.RowRoundTrip` |
| CommunityDashboard.Parsed | src/components/CommunityDashboard.tsx:50-79 | `CommunityDashboard.ParseCsv`, `CommunityDashboard.ParsedBound`, `CommunityDashboard.HeaderIgnored`, `CommunityDashboard.BlankLineIgnored`, `CommunityDashboard.CsvRoundTrip` |
| CommunityDashboard.MatchCount | src/components/CommunityDashboard.tsx:82-87 | `CommunityDashboard.MatchCountIndices`, `CommunityDashboard.MatchingReportNeverLowers`, `CommunityDashboard.OtherReportNoEffect` |
| CommunityDashboard.FormatRow | src/components/CommunityDashboard.tsx:68-74 | `CommunityDashboard.RowRoundTrip`, `CommunityDashboard.RowIsLine` (a reference writer in the reader's column order) |
| CommunityDashboard.FormatCsv | src/components/CommunityDashboard.tsx:50-79 | `CommunityDashboard.FormatRowsShape`, `CommunityDashboard.CsvRoundTrip` (a reference writer) |
| CommunityVpnStatus.Classify | src/components/CommunityVPNStatus.tsx:67-72 | `CommunityVpnStatus.ClassifyIff` |
| CommunityVpnStatus.RowReport | src/components/CommunityVPNStatus.tsx:54-80 | `CommunityVpnStatus.RowReportFields`, `CommunityVpnStatus.RowRoundTrip` |
| CommunityVpnStatus.FormatRow | src/components/CommunityVPNStatus.tsx:54-80 | `CommunityVpnStatus.RowRoundTrip` (a reference writer) |
| CommunityVpnStatus.Parsed | src/components/CommunityVPNStatus.tsx:41-83 | `CommunityVpnStatus.ParseCsv`, `CommunityVpnStatus.ShortTextNoReports`, `CommunityVpnStatus.PreambleIgnored` |
| CommunityVpnStatus.FilterByIsp | src/components/CommunityVPNStatus.tsx:89-91 | `CommunityVpnStatus.FilterByIspMembers`, `CommunityVpnStatus.FilterByIspAppend`, `CommunityVpnStatus.FilterByIspAll` |
| CommunityVpnStatus.Count | src/components/CommunityVPNStatus.tsx:99 | `CommunityVpnStatus.Tally`, `CommunityVpnStatus.OkBlockedWithinTotal` |
| CommunityVpnStatus.CountStatus | src/components/CommunityVPNStatus.tsx:100-101 | `CommunityVpnStatus.Tally`, `CommunityVpnStatus.OkBlockedWithinTotal` |
| CommunityVpnStatus.FirstStatus | src/components/CommunityVPNStatus.tsx:96-97 | `CommunityVpnStatus.Tally`, `CommunityVpnStatus.FirstStatusKept` |
| CommunityVpnStatus.Names | src/components/CommunityVPNStatus.tsx:95-98 | `CommunityVpnStatus.NamesMembers`, `CommunityVpnStatus.NamesDistinct`, `CommunityVpnStatus.Tally` |
| CommunityVpnStatus.StatsOf | src/components/CommunityVPNStatus.tsx:95-103 | `CommunityVpnStatus.Tally`, `CommunityVpnStatus.EntriesAt` |
| CommunityVpnStatus.VpnList | src/components/CommunityVPNStatus.tsx:106-108 | `CommunityVpnStatus.VpnListShape`, `CommunityVpnStatus.SortKeepsTies` |
| CommunityVpnStatus.IsWorking | src/components/CommunityVPNStatus.tsx:147 | `CommunityVpnStatus.WorkingIff` |
| WebRtcCheck.Gathered | src/hooks/use-webrtc-check.ts:26-36 | `WebRtcCheck.GatheredDistinct`, `WebRtcCheck.GatheredMembers`, `WebRtcCheck.GatheredPrefix`, `WebRtcCheck.GatheredUnchanged`, `WebRtcCheck.Checker.OnIceCandidate` |
| LeakTest.IsWebRTCLeak | src/components/LeakTest.tsx:33 | `LeakTest.LeakShownIff`, `LeakTest.NoPublicIpNoLeak` |
| LeakTest.LeakTestView | src/components/LeakTest.tsx:12-101 | `LeakTest.LoadingFirst`, `LeakTest.ErrorView`, `LeakTest.EmptyListNoLeak`, `LeakTest.PublicIpRevealedIsSafe` |
| KnowledgeBase.Database | src/components/VPNKnowledgeBase.tsx:17-113 | `KnowledgeBase.DatabaseNamesDistinct` |
| KnowledgeBase.Display | src/components/VPNKnowledgeBase.tsx:145-184 | `KnowledgeBase.EmptyTermShowsNothing`, `KnowledgeBase.UnknownAppIff`, `KnowledgeBase.CardsIff`, `KnowledgeBase.DisplayIgnoresCase` |
| Middleware.Exempt | src/middleware.ts:9-11 | `Middleware.ExemptPasses`, `Middleware.RedirectNeverLoops` |
| Middleware.Gate | src/middleware.ts:9-18 | `Middleware.RedirectIff`, `Middleware.CookieValueIgnored`, `Middleware.HomeNeedsCookie` |
| Middleware.Excluded | src/middleware.ts:30 | `Middleware.ApiBypassesGate`, `Middleware.MatcherDotIsWildcard` |
| Middleware.MatcherSelects | src/middleware.ts:30 | `Middleware.ApiBypassesGate`, `Middleware.MatcherDotIsWildcard` |
| Middleware.Route | src/middleware.ts:30 | `Middleware.RouteRedirectIff` |
| Login.Post | src/app/api/login/route.ts:19-32 | `Login.PostSucceedsIff`, `Login.DefaultCredentials`, `Login.ConfiguredPasswordReplacesDefault` |
| Login.SessionCookie | src/app/api/login/route.ts:22-27 | `Login.SessionCookieAttributes`, `Login.LoginOpensGate` |

## Model

| member | source | states |
|---|---|---|
| Text.Split | src/components/CommunityDashboard.tsx:58 | `split` gives one more piece than there are separators |
| Text.SplitPiecesAvoid | src/app/api/visitor-count/route.ts:17 | no piece of a split contains the separator |
| Text.JoinOfSplit | src/components/CommunityDashboard.tsx:58 | joining the pieces of a split with the separator gives the text back |
| Text.SplitOfJoin | src/components/CommunityDashboard.tsx:58 | splitting a join of separator-free pieces gives the pieces back |
| Text.SplitAfterPiece | src/components/CommunityDashboard.tsx:51 | a separator-free piece followed by the separator is split off as the first piece |
| Text.Trim | src/components/CommunityDashboard.tsx:58 | `trim()` leaves no white space at either end and never lengthens the text |
| Text.TrimIsMiddle | src/components/CommunityDashboard.tsx:58 | the trimmed text is a slice of the input with only white space before and after it |
| Text.TrimEmptyIff | src/components/CommunityDashboard.tsx:51 | a line trims to '' exactly when it is white space only |
| Text.StripQuotes | src/components/CommunityDashboard.tsx:58 | the quote removal drops one leading and one trailing `"`, in each of the four cases, and turns a lone `"` into '' |
| Text.CleanQuoted | src/components/CommunityDashboard.tsx:58 | a field wrapped in quotes comes out of cleaning unquoted |
| Text.CleanAllAt | src/components/CommunityDashboard.tsx:58 | each cell is its own piece with quotes removed, then trimmed |
| Text.ContainsIff | src/components/CommunityVPNStatus.tsx:68 | `includes` holds exactly when the text occurs at some index |
| Text.CaseVariantsLower | src/components/VPNKnowledgeBase.tsx:119 | two case variants lower-case to the same text |
| Text.LessIrreflexive | src/components/CommunityVPNStatus.tsx:86 | the default `sort()` order puts no string before itself |
| Text.LessTransitive | src/components/CommunityVPNStatus.tsx:86 | the default `sort()` order is transitive |
| Text.LessTotal | src/components/CommunityVPNStatus.tsx:86 | any two different strings are ordered one way or the other |
| Seqs.CollectFrom | src/components/CommunityVPNStatus.tsx:49-81 | the index loop from the start line to the end, appending the report of each row that yields one, returns exactly the filter-and-map of the lines from the start on |
| CommunityDashboard.Cells | src/components/CommunityDashboard.tsx:58 | a line has one cell per comma plus one, whatever the quotes |
| CommunityDashboard.RowReportFields | src/components/CommunityDashboard.tsx:60-74 | a line yields a report exactly when it has at least 4 cells and cells 1-3 are non-empty; cells 0-4 become timestamp, protocol, region, ISP and internet type; the internet type is absent exactly for four cells |
| CommunityDashboard.Reports | src/components/CommunityDashboard.tsx:54-77 | at most one report per line |
| CommunityDashboard.ReportsHaveKeys | src/components/CommunityDashboard.tsx:67 | every report has a non-empty protocol, region and ISP |
| CommunityDashboard.NonBlankLines | src/components/CommunityDashboard.tsx:51 | dropping blank lines never adds lines |
| CommunityDashboard.NonBlankMembers | src/components/CommunityDashboard.tsx:51 | a line is kept exactly when it is in the text and not white space only |
| CommunityDashboard.ReportsAppend | src/components/CommunityDashboard.tsx:54-77 | reports come out in the order of their lines |
| CommunityDashboard.ParseCsv | src/components/CommunityDashboard.tsx:50-79 | the loop returns the reports of the non-blank lines after the first |
| CommunityDashboard.ParsedBound | src/components/CommunityDashboard.tsx:51-77 | there are at most (non-blank lines - 1) reports |
| CommunityDashboard.HeaderIgnored | src/components/CommunityDashboard.tsx:53-54 | the first non-blank line never yields a report: replacing it changes nothing |
| CommunityDashboard.BlankLineIgnored | src/components/CommunityDashboard.tsx:51 | a white-space-only line before the text changes nothing, so blank lines are dropped before the header is chosen |
| CommunityDashboard.Fields | src/components/CommunityDashboard.tsx:68-74 | a report has four or five spreadsheet columns, in the reader's column order |
| CommunityDashboard.JoinAvoids | src/components/CommunityDashboard.tsx:58 | a character in no cell, other than the comma, is not in the joined row |
| CommunityDashboard.RowRoundTrip | src/components/CommunityDashboard.tsx:58-74 | reading back the row of a report with clean fields gives the report |
| CommunityDashboard.RowIsLine | src/components/CommunityDashboard.tsx:51 | the row of such a report is one non-blank line |
| CommunityDashboard.FormatRowsShape | src/components/CommunityDashboard.tsx:51-77 | rows of such reports are single non-blank lines that read back as the reports, in order |
| CommunityDashboard.CsvRoundTrip | src/components/CommunityDashboard.tsx:50-79 | a header line followed by one row per such report parses to exactly those reports, in order |
| CommunityDashboard.QuotedCommaSplits | src/components/CommunityDashboard.tsx:55-58 | a quoted protocol `"a, b"` is read as protocol `a`, region `b`, ISP = the region column and internet type = the ISP column |
| CommunityDashboard.QuotedCells | src/components/CommunityDashboard.tsx:58 | the cells of a row with a quoted comma are the two halves without quotes, then the other columns |
| CommunityDashboard.QuotedPieces | src/components/CommunityDashboard.tsx:58 | a row with a quoted comma splits into five pieces, the quotes still attached |
| CommunityDashboard.MatchCountIndices | src/components/CommunityDashboard.tsx:82-87 | the match count is the number of reports with the selected region and the given ISP and protocol |
| CommunityDashboard.GetStatus | src/components/CommunityDashboard.tsx:81-92 | the count is the number of matching reports; the status is OK iff it is 0, WARN iff it is 1 or 2, BLOCKED iff it is 3 or more |
| CommunityDashboard.MatchingReportNeverLowers | src/components/CommunityDashboard.tsx:82-91 | one more matching report adds one to the count and never lowers the severity |
| CommunityDashboard.OtherReportNoEffect | src/components/CommunityDashboard.tsx:82-86 | a report for another region, ISP or protocol leaves the cell unchanged |
| CommunityVpnStatus.ClassifyIff | src/components/CommunityVPNStatus.tsx:67-72 | OK iff a working marker occurs; BLOCKED iff none does and the short failure marker occurs (the long one ends with it); UNKNOWN otherwise |
| CommunityVpnStatus.Cells | src/components/CommunityVPNStatus.tsx:54-57 | the cells are the tokeniser's matches, or the comma split when it finds none, one cell per piece |
| CommunityVpnStatus.RowReportFields | src/components/CommunityVPNStatus.tsx:59-80 | a row is skipped exactly when it has under 5 cells or an empty ISP or VPN name; otherwise the fields are cells 0, 1, 2 and 4, and the status is the classification of cell 4 |
| CommunityVpnStatus.RowRoundTrip | src/components/CommunityVPNStatus.tsx:54-80 | reading back the comma-joined row of a report with clean, comma-free fields gives the report, its status classified from column 4, whether the tokeniser returns the five fields or finds nothing |
| CommunityVpnStatus.Reports | src/components/CommunityVPNStatus.tsx:49-81 | at most one report per row |
| CommunityVpnStatus.ReportsAppend | src/components/CommunityVPNStatus.tsx:49-81 | reports come out in row order |
| CommunityVpnStatus.ParseCsv | src/components/CommunityVPNStatus.tsx:41-83 | the loop from index 3 returns the reports of the lines from index 3 on |
| CommunityVpnStatus.ShortTextNoReports | src/components/CommunityVPNStatus.tsx:47-49 | text with fewer than three line breaks yields nothing |
| CommunityVpnStatus.PreambleIgnored | src/components/CommunityVPNStatus.tsx:45-49 | lines 0-2 never yield a report: replacing them changes nothing |
| CommunityVpnStatus.PreambleLines | src/components/CommunityVPNStatus.tsx:42-49 | after three preamble lines, the lines from index 3 are the lines of the rest |
| CommunityVpnStatus.FilterByIspMembers | src/components/CommunityVPNStatus.tsx:89-91 | a selection other than 'All' keeps exactly the reports of that ISP |
| CommunityVpnStatus.FilterByIspAppend | src/components/CommunityVPNStatus.tsx:89-91 | the filter of appended report lists is the append of their filters, so it keeps report order |
| CommunityVpnStatus.FilterByIspAll | src/components/CommunityVPNStatus.tsx:89-91 | the selection 'All' keeps every report |
| CommunityVpnStatus.InsertSorted | src/components/CommunityVPNStatus.tsx:86 | inserting into a strictly sorted list keeps it strictly sorted and adds exactly the new element |
| CommunityVpnStatus.IspList | src/components/CommunityVPNStatus.tsx:86 | the ISP list is strictly sorted |
| CommunityVpnStatus.IspListMembers | src/components/CommunityVPNStatus.tsx:86 | an ISP is listed exactly when some report has it |
| CommunityVpnStatus.IspListDistinct | src/components/CommunityVPNStatus.tsx:86 | no ISP is listed twice |
| CommunityVpnStatus.NamesMembers | src/components/CommunityVPNStatus.tsx:95-98 | a VPN gets counters exactly when some report names it; it then has at least one report and a first status |
| CommunityVpnStatus.NamesDistinct | src/components/CommunityVPNStatus.tsx:95-98 | each VPN name gets one set of counters |
| CommunityVpnStatus.OkBlockedWithinTotal | src/components/CommunityVPNStatus.tsx:99-101 | ok + blocked <= total for every VPN |
| CommunityVpnStatus.FirstStatusKept | src/components/CommunityVPNStatus.tsx:96-97 | `lastStatus` is the status of the first report of the VPN; later reports never change it |
| CommunityVpnStatus.Tally | src/components/CommunityVPNStatus.tsx:95-103 | the reduce creates counters for exactly the reported names, in first-seen order; each holds the name's ok, blocked and total counts and its first status |
| CommunityVpnStatus.TallyKeeps | src/components/CommunityVPNStatus.tsx:95-103 | updating one name's counters keeps every other name's counters right |
| CommunityVpnStatus.TallyStep | src/components/CommunityVPNStatus.tsx:96-101 | one report adds one to its name's total and to the count of its status, and leaves the other names alone |
| CommunityVpnStatus.Entries | src/components/CommunityVPNStatus.tsx:106-107 | one entry per name, in key order |
| CommunityVpnStatus.EntriesAt | src/components/CommunityVPNStatus.tsx:106-107 | entry k carries the counters of name k |
| CommunityVpnStatus.ConsByTotal | src/components/CommunityVPNStatus.tsx:108 | an entry with at least the head's total can go in front of a list ordered by total |
| CommunityVpnStatus.InsertByTotal | src/components/CommunityVPNStatus.tsx:108 | the insertion step keeps totals non-increasing and adds exactly the new entry |
| CommunityVpnStatus.SortByTotal | src/components/CommunityVPNStatus.tsx:108 | the sort returns a permutation with totals non-increasing |
| CommunityVpnStatus.InsertKeepsTies | src/components/CommunityVPNStatus.tsx:108 | among the entries with any one total, the insertion step puts the new entry first and keeps the others in order |
| CommunityVpnStatus.SortKeepsTies | src/components/CommunityVPNStatus.tsx:108 | the sort is stable: entries with equal totals keep their order |
| CommunityVpnStatus.VpnListShape | src/components/CommunityVPNStatus.tsx:106-108 | the list has one entry per VPN of the selected reports, carries that VPN's counts, and has totals non-increasing |
| CommunityVpnStatus.WorkingIff | src/components/CommunityVPNStatus.tsx:147 | a listed VPN shows as working iff its OK reports are at least its BLOCKED ones; ok + blocked <= total and total > 0 |
| VisitorCount.GetIP | src/app/api/visitor-count/route.ts:14-20 | a missing or empty header gives 127.0.0.1; otherwise the result is the untrimmed text before the first comma |
| VisitorCount.FirstPiece | src/app/api/visitor-count/route.ts:17 | the first piece of a split is a prefix ending just before the first separator |
| VisitorCount.SimulatedCount | src/app/api/visitor-count/route.ts:28-33 | the synthetic count is 500 plus the number of whole 15-minute periods since 1 December 2024 (rounded down) |
| VisitorCount.SimulatedAtStart | src/app/api/visitor-count/route.ts:29-32 | the synthetic count is 500 at the start instant |
| VisitorCount.SimulatedMonotone | src/app/api/visitor-count/route.ts:28-33 | the synthetic count never decreases as time passes |
| VisitorCount.Loaded | src/app/api/visitor-count/route.ts:55-65 | a missing or unreadable file starts from count 0 and no hashes |
| VisitorCount.Recorded | src/app/api/visitor-count/route.ts:69-72 | an unseen hash is appended and the count goes up by exactly 1; a seen hash changes nothing |
| VisitorCount.RecordIdempotent | src/app/api/visitor-count/route.ts:69-72 | counting the same visitor a second time changes nothing |
| VisitorCount.RecordKeepsConsistent | src/app/api/visitor-count/route.ts:69-72 | count = number of hashes, all distinct, is preserved |
| VisitorCount.RecordGrows | src/app/api/visitor-count/route.ts:69-72 | a recorded hash is never forgotten and the count never goes down |
| VisitorCount.VisitorData.constructor | src/app/api/visitor-count/route.ts:55 | the request state starts from the given count and hashes |
| VisitorCount.VisitorData.Record | src/app/api/visitor-count/route.ts:69-72 | the in-place push and increment leave the state `Recorded` describes, and report whether the hash was new |
| VisitorCount.Get | src/app/api/visitor-count/route.ts:35-49 | the reply is the larger of the stored and the synthetic count, never below the synthetic count and never negative when no count is stored, with no `new` field |
| VisitorCount.Post | src/app/api/visitor-count/route.ts:51-98 | as written: the count shown is max(stored count after counting, synthetic count), and is the same whether or not the write succeeds; the file is written only for a new hash whose write succeeds; unusable `hashes` gives the synthetic count only; `new` is always false |
| VisitorCount.PostIntended | src/app/api/visitor-count/route.ts:89-93 | as intended: the same reply, with `new` true exactly when this request counted the visitor |
| WebRtcCheck.GatheredDistinct | src/hooks/use-webrtc-check.ts:33-36 | the collected list never holds an address twice |
| WebRtcCheck.GatheredMembers | src/hooks/use-webrtc-check.ts:26-36 | an address is listed exactly when some candidate revealed it |
| WebRtcCheck.GatheredPrefix | src/hooks/use-webrtc-check.ts:33-36 | later candidates only append: the list keeps its first-seen order and never loses an address |
| WebRtcCheck.GatheredUnchanged | src/hooks/use-webrtc-check.ts:26-33 | a candidate with no address, or with a known one, changes nothing |
| WebRtcCheck.Checker.constructor | src/hooks/use-webrtc-check.ts:9-10 | a check starts with `checking` set and no addresses |
| WebRtcCheck.Checker.OnIceCandidate | src/hooks/use-webrtc-check.ts:17-38 | a null candidate ends the check and adds nothing; any other adds its new address, if any, and `leakedIPs` only grows |
| WebRtcCheck.Checker.OnTimeout | src/hooks/use-webrtc-check.ts:43-46 | the timeout ends the check and keeps the list |
| WebRtcCheck.Checker.OnError | src/hooks/use-webrtc-check.ts:48-50 | a set-up failure ends the check and keeps the list |
| LeakTest.LoadingFirst | src/components/LeakTest.tsx:12-21 | while the lookup loads, the loading view is shown whatever else holds |
| LeakTest.ErrorView | src/components/LeakTest.tsx:23-31 | the error view is shown exactly when loading is over and a non-empty error is present |
| LeakTest.LeakShownIff | src/components/LeakTest.tsx:33 | once both checks are done, the leak alert is shown exactly when the list is non-empty, the public address is known and not in the list |
| LeakTest.EmptyListNoLeak | src/components/LeakTest.tsx:77-82 | an empty list is never a leak and shows "No WebRTC Leaks Detected" |
| LeakTest.PublicIpRevealedIsSafe | src/components/LeakTest.tsx:85-101 | a list containing the public address is shown as exposed but safe, not as a leak |
| LeakTest.NoPublicIpNoLeak | src/components/LeakTest.tsx:33 | without a public address no leak is reported |
| KnowledgeBase.DatabaseNamesDistinct | src/components/VPNKnowledgeBase.tsx:17-113 | the table has 15 apps and no two share a name, so the name can key the list |
| KnowledgeBase.FilteredVpns | src/components/VPNKnowledgeBase.tsx:118-120 | the search returns at most the whole table |
| KnowledgeBase.FilteredMembers | src/components/VPNKnowledgeBase.tsx:118-120 | an app is found exactly when its lower-cased name contains the lower-cased term |
| KnowledgeBase.FilteredInTableOrder | src/components/VPNKnowledgeBase.tsx:118-120 | results keep the table's order |
| KnowledgeBase.SearchIgnoresCase | src/components/VPNKnowledgeBase.tsx:119 | case variants of a term find the same apps |
| KnowledgeBase.EmptyTermMatchesAll | src/components/VPNKnowledgeBase.tsx:118-120 | every app matches the empty term |
| KnowledgeBase.EmptyTermShowsNothing | src/components/VPNKnowledgeBase.tsx:152 | with an empty term no card is shown, only the typing hint |
| KnowledgeBase.UnknownAppIff | src/components/VPNKnowledgeBase.tsx:145-150 | the unknown-app notice appears exactly when a non-empty term matches no app |
| KnowledgeBase.CardsIff | src/components/VPNKnowledgeBase.tsx:145-152 | a card is shown exactly for each app matching a non-empty term |
| KnowledgeBase.DisplayIgnoresCase | src/components/VPNKnowledgeBase.tsx:145-184 | case variants of a term show the same panel |
| KnowledgeBase.Badge | src/components/VPNKnowledgeBase.tsx:156-158 | UNSAFE iff destructive, CAUTION iff secondary, SAFE iff default |
| KnowledgeBase.BadgeDistinguishesRisk | src/components/VPNKnowledgeBase.tsx:156-158 | different risk levels get different badges |
| Middleware.RedirectIff | src/middleware.ts:9-16 | the gate redirects exactly for a non-exempt path without the cookie, and always to /login |
| Middleware.ExemptPasses | src/middleware.ts:9-11 | /login, /api/login, /_next and /favicon.ico paths pass with or without the cookie |
| Middleware.CookieValueIgnored | src/middleware.ts:14-18 | any cookie value passes every path: only presence is checked |
| Middleware.RedirectNeverLoops | src/middleware.ts:9-15 | following the redirect never redirects again |
| Middleware.RouteRedirectIff | src/middleware.ts:30 | a request is redirected exactly when the matcher selects it, it is not exempt, and it has no cookie |
| Middleware.ApiBypassesGate | src/middleware.ts:30 | every /api path skips the gate, not only /api/login |
| Middleware.MatcherDotIsWildcard | src/middleware.ts:30 | the `.` in `favicon.ico` matches any character |
| Middleware.HomeNeedsCookie | src/middleware.ts:14-16 | the home page without the cookie redirects to /login |
| Login.OrDefault | src/app/api/login/route.ts:13-14 | a set, non-empty variable is used; an unset or empty one gives the default |
| Login.PostSucceedsIff | src/app/api/login/route.ts:19-32 | login succeeds iff both fields equal the expected pair; failure is 401, success false, no cookie |
| Login.SessionCookieAttributes | src/app/api/login/route.ts:22-27 | success sets auth_token=valid_session, httpOnly, sameSite strict, maxAge 604800, secure iff NODE_ENV is production |
| Login.DefaultCredentials | src/app/api/login/route.ts:13-19 | with the variables unset or empty, admin/password123 and only that pair logs in |
| Login.ConfiguredPasswordReplacesDefault | src/app/api/login/route.ts:14-19 | a configured password disables the default one |
| Login.LoginOpensGate | src/app/api/login/route.ts:22 | the cookie a successful login sets passes the access gate on every path |

## Left out

- The row tokeniser regular expression of the VPN-status reader (CommunityVPNStatus.tsx:54) is the parameter `tokenize`. The model does not check which pieces the regular expression finds.
- The unused `row` match in the dashboard reader (CommunityDashboard.tsx:56) is dead code and is not modelled.
- The IP regular expression of the WebRTC hook is the parameter `extractIP`.
- RTCPeerConnection, the STUN server, `createOffer`, `setTimeout` and `pc.close()` are not modelled. Their callbacks are the event methods of `WebRtcCheck.Checker`, and the order of the events is up to the caller.
- `fetch`, React state and effects are not modelled. The readers take the fetched text as a parameter, and `LeakTestView` takes the hooks' states.
- SHA-256 is the parameter `hashIP`. `Date.now()` is the parameter `now`.
- The file system and `JSON.parse` are not modelled. Their outcome is the `StoredFile` value plus `writeOk`.
- A data file whose `count` is not a number, or whose `hashes` is a string rather than a list, is not modelled.
- `request.json()` failing on a malformed body is not modelled. Its fields come in as `Option` values.
- `toLowerCase` is restricted to ASCII letters; the table names are ASCII.
- The default `sort()` compares UTF-16 code units. The model compares `char` values (Unicode code points). The two orders agree on the Basic Multilingual Plane, which holds ASCII and Myanmar text; they differ only for characters beyond it.
- `CommunityVpnStatus.Entries` lists names in insertion order. This is `Object.entries` order for names that are not array indices; names like "1" would be listed first in JavaScript.
- VPN names that collide with `Object.prototype` members (such as "constructor") break the JavaScript tally. The model treats them like any other name.
- The confidence percentage `Math.round(max / total * 100)` (CommunityVPNStatus.tsx:148) is floating point and is not modelled.
- Colours, icons and wording of the views are not modelled.
- In the knowledge base, each table record carries its advice text, but nothing is proved about the wording of the texts.
- An ISP literally named "All" cannot be selected on its own: the selection 'All' always means every ISP. The model keeps that behaviour and proves nothing more about it.
- The Next.js matcher is modelled as the regular expression's negative look-ahead on the text after the leading `/`. Path normalisation and locale prefixes of the framework are not modelled.
- `CommunityDashboard.ParseCsv` and `CommunityVpnStatus.ParseCsv` return at once when the loop would not run. This is the same result as the source's empty loop.

## Findings

| source | as written | input that shows it | evidently intended | confidence | as-written member | corrected member |
|---|---|---|---|---|---|---|
| src/app/api/visitor-count/route.ts:92 | `new: !data.hashes.includes(hash)` is evaluated after the hash was pushed at line 70, so it is false on every normal reply | the first `POST` from an address with no data file: the count goes from 0 to 1, yet the reply says `new: false` | `new` is true exactly when this request counted the visitor (the hash was not stored before) | not executed | VisitorCount.Post | VisitorCount.PostIntended |
