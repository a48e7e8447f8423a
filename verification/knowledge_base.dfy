/**
 * The app integrity check: a constant table of VPN apps with a risk level,
 * a case-insensitive search over the app names, and what the panel shows
 * for a search term.
 */
module KnowledgeBase {
  import opened Text
  import opened Seqs

  datatype Risk = Safe | Caution | Unsafe

  /** An entry of the table, with the advice text its card shows. */
  datatype VpnApp = VpnApp(name: string, risk: Risk, protocol: string, advice: string)

  /** The table, in the order the panel lists it. */
  const Database: seq<VpnApp> := [
      VpnApp("Mullvad VPN", Safe, "WireGuard / OpenVPN (Bridge)",
        "Cyber Guardian says: \U{2705} Excellent choice! No logs, anonymous account numbers. Very safe."),
      VpnApp("Proton VPN", Safe, "Stealth / WireGuard",
        "Cyber Guardian says: \U{2705} Trusted Swiss privacy. Use the \"Stealth\" protocol setting to bypass blocking."),
      VpnApp("Outline", Safe, "Shadowsocks",
        "Cyber Guardian says: \U{2705} Highly recommended. You control the server. Very hard for the junta to detect."),
      VpnApp("Amnezia VPN", Safe, "AmneziaWG / X-Ray",
        "Cyber Guardian says: \U{2705} Designed for censorship resistance. Excellent for hosting your own server."),
      VpnApp("V2Box", Safe, "V2Ray Client",
        "Cyber Guardian says: \U{2705} Great client for V2Ray. Safe if you use a good server config (VMess/VLESS)."),
      VpnApp("ExpressVPN", Caution, "Lightway (Obfuscated)",
        "Cyber Guardian says: \U{26A0}\U{FE0F} Good security, but a high-profile target. If it connects, it is safe, but it is often blocked."),
      VpnApp("Psiphon", Caution, "SSH / Obfuscation",
        "Cyber Guardian says: \U{26A0}\U{FE0F} Good for emergencies, but they log some data and it can be slow. Use only if others fail."),
      VpnApp("Wire", Caution, "WireGuard",
        "Cyber Guardian says: \U{26A0}\U{FE0F} WireGuard is fast but easily detected. Use only if you are sure it is not being blocked."),
      VpnApp("Turbo VPN", Unsafe, "Unknown / IKEv2",
        "Cyber Guardian says: \U{274C} AVOID. Known for logging user data and showing ads. Not safe for sensitive activities."),
      VpnApp("Super VPN", Unsafe, "Unknown",
        "Cyber Guardian says: \U{274C} DANGEROUS. History of data leaks and malware. Do not use."),
      VpnApp("Thunder VPN", Unsafe, "Unknown",
        "Cyber Guardian says: \U{274C} High Risk. Free VPNs sell your data. Not resistant to DPI."),
      VpnApp("Hula VPN", Unsafe, "Unknown",
        "Cyber Guardian says: \U{274C} Be careful. Free services often log your IP. Use a trusted paid or open-source alternative."),
      VpnApp("Jump Jump VPN", Unsafe, "Unknown",
        "Cyber Guardian says: \U{274C} Unknown security. Likely logs data. Better to use Outline or Proton."),
      VpnApp("X-VPN", Unsafe, "Proprietary",
        "Cyber Guardian says: \U{26A0}\U{FE0F} Hit or miss. Free version is not private. Paid version is okay but there are better options."),
      VpnApp("Now VPN", Unsafe, "Unknown",
        "Cyber Guardian says: \U{274C} Generic free VPN. High risk of logging and tracking.")
    ]

  /** No two apps share a name, so the name can key the displayed list. */
  predicate DistinctNames(apps: seq<VpnApp>)
  {
    forall i, j :: 0 <= i < j < |apps| ==> apps[i].name != apps[j].name
  }

  /** The length and the first letter of a name; they tell the table's names apart. */
  function NameKey(app: VpnApp): (int, char)
  {
    (|app.name|, if app.name == "" then ' ' else app.name[0])
  }

  lemma DatabaseKeys()
    ensures |Database| == 15
    ensures seq(15, k requires 0 <= k < 15 => NameKey(Database[k]))
         == [(11, 'M'), (10, 'P'), (7, 'O'), (11, 'A'), (5, 'V'), (10, 'E'), (7, 'P'), (4, 'W'),
             (9, 'T'), (9, 'S'), (11, 'T'), (8, 'H'), (13, 'J'), (5, 'X'), (7, 'N')]
  {
  }

  lemma DatabaseNamesDistinct()
    ensures |Database| == 15
    ensures DistinctNames(Database)
  {
    DatabaseKeys();
    var keys := seq(15, k requires 0 <= k < 15 => NameKey(Database[k]));
    forall i, j | 0 <= i < j < |Database|
      ensures Database[i].name != Database[j].name
    {
      assert keys[i] != keys[j];
    }
  }

  /** Whether an app's lower-cased name contains the already lower-cased search text. */
  function NameMatches(needle: string): VpnApp -> bool
  {
    (app: VpnApp) => Contains(Lower(app.name), needle)
  }

  /** `filteredVPNs`: the apps whose name contains the term, ignoring ASCII case. */
  function FilteredVpns(term: string): (apps: seq<VpnApp>)
    ensures |apps| <= |Database|
  {
    Filter(Database, NameMatches(Lower(term)))
  }

  /** An app is found exactly when it is in the table and its name contains the term, ignoring case. */
  lemma FilteredMembers(term: string, app: VpnApp)
    ensures app in FilteredVpns(term) <==> app in Database && Contains(Lower(app.name), Lower(term))
  {
    FilterMembers(Database, NameMatches(Lower(term)), app);
  }

  /** The results keep the table's order. */
  lemma FilteredInTableOrder(term: string)
    ensures IsSubsequence(FilteredVpns(term), Database)
  {
    FilterSubsequence(Database, NameMatches(Lower(term)));
  }

  /** Terms that differ only in letter case find the same apps. */
  lemma SearchIgnoresCase(a: string, b: string)
    requires CaseVariants(a, b)
    ensures FilteredVpns(a) == FilteredVpns(b)
  {
    CaseVariantsLower(a, b);
  }

  /** Every app matches the empty term. */
  lemma EmptyTermMatchesAll()
    ensures FilteredVpns("") == Database
  {
    assert Lower("") == "";
    forall app | app in Database
      ensures NameMatches("")(app)
    {
      ContainsEmpty(Lower(app.name));
    }
    FilterAll(Database, NameMatches(""));
  }

  /** What the results area shows. */
  datatype Panel = Panel(unknownApp: bool, cards: seq<VpnApp>, typeHint: bool)

  /**
   * The "Unknown App" notice when a non-empty term matches nothing, the
   * found apps when it matches something, and nothing but the typing hint
   * when the term is empty.
   */
  function Display(term: string): Panel
  {
    var found := FilteredVpns(term);
    if term != "" && |found| == 0 then Panel(true, [], false)
    else Panel(false, if term != "" then found else [], term == "")
  }

  /** With no term nothing is listed, although every app matches it. */
  lemma EmptyTermShowsNothing()
    ensures FilteredVpns("") == Database
    ensures Display("") == Panel(false, [], true)
  {
    EmptyTermMatchesAll();
  }

  /** The unknown-app notice appears exactly when a non-empty term matches no app in the table. */
  lemma UnknownAppIff(term: string)
    ensures Display(term).unknownApp <==>
              term != "" && forall app :: app in Database ==> !Contains(Lower(app.name), Lower(term))
  {
    var found := FilteredVpns(term);
    if term != "" && |found| != 0 {
      FilteredMembers(term, found[0]);
    }
    if term != "" && |found| == 0 {
      forall app | app in Database
        ensures !Contains(Lower(app.name), Lower(term))
      {
        FilteredMembers(term, app);
      }
    }
  }

  /** A card is shown exactly for each app that matches a non-empty term. */
  lemma CardsIff(term: string, app: VpnApp)
    ensures app in Display(term).cards <==>
              term != "" && app in Database && Contains(Lower(app.name), Lower(term))
  {
    FilteredMembers(term, app);
  }

  /** A search shows the same panel for every case variant of the term. */
  lemma DisplayIgnoresCase(a: string, b: string)
    requires CaseVariants(a, b)
    ensures Display(a) == Display(b)
  {
    SearchIgnoresCase(a, b);
  }

  datatype BadgeVariant = Destructive | Secondary | Default

  /** The badge style of a risk level. */
  function Badge(risk: Risk): (v: BadgeVariant)
    ensures v == Destructive <==> risk == Unsafe
    ensures v == Secondary <==> risk == Caution
    ensures v == Default <==> risk == Safe
  {
    match risk
    case Unsafe => Destructive
    case Caution => Secondary
    case Safe => Default
  }

  /** Different risk levels never share a badge style. */
  lemma BadgeDistinguishesRisk(r1: Risk, r2: Risk)
    requires r1 != r2
    ensures Badge(r1) != Badge(r2)
  {
  }
}
