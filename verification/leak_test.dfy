/**
 * The leak test panel: which view it shows for the state of the public
 * address lookup and of the WebRTC check, and when it reports a WebRTC leak.
 */
module LeakTest {
  import opened Wrappers

  /** The public address lookup's answer; only the address matters here. */
  datatype IpInfo = IpInfo(ip: string)

  /** What the WebRTC part of the results shows. */
  datatype WebRtcPanel =
    | Checking
    | NoLeaks
    | PotentialLeak(ips: seq<string>)
    | ExposedSafe(ips: seq<string>)

  /** The whole panel. */
  datatype View =
    | Loading
    | Failed(message: string)
    | Results(publicIp: Option<string>, webrtc: WebRtcPanel)

  /**
   * `isWebRTCLeak`: WebRTC revealed some address, the public address is
   * known, and it is not among the revealed ones.
   */
  function IsWebRTCLeak(leakedIPs: seq<string>, ipInfo: Option<IpInfo>): bool
  {
    |leakedIPs| > 0 && ipInfo.Some? && ipInfo.value.ip !in leakedIPs
  }

  /** An error string counts only when it is non-empty, as in a JavaScript condition. */
  predicate HasError(error: Option<string>)
  {
    error.Some? && error.value != ""
  }

  /** The panel for the two hooks' states, in the order the component tests them. */
  function LeakTestView(ipLoading: bool, ipError: Option<string>, ipInfo: Option<IpInfo>,
                        leakedIPs: seq<string>, webrtcChecking: bool): View
  {
    if ipLoading then Loading
    else if HasError(ipError) then Failed(ipError.value)
    else
      var publicIp := if ipInfo.Some? then Some(ipInfo.value.ip) else None;
      var panel :=
        if webrtcChecking then Checking
        else if |leakedIPs| == 0 then NoLeaks
        else if IsWebRTCLeak(leakedIPs, ipInfo) then PotentialLeak(leakedIPs)
        else ExposedSafe(leakedIPs);
      Results(publicIp, panel)
  }

  /** While the address lookup runs, only the loading view is shown. */
  lemma LoadingFirst(ipError: Option<string>, ipInfo: Option<IpInfo>, leakedIPs: seq<string>, webrtcChecking: bool)
    ensures LeakTestView(true, ipError, ipInfo, leakedIPs, webrtcChecking) == Loading
  {
  }

  /** The error view is shown exactly when the lookup is done and reported an error. */
  lemma ErrorView(ipLoading: bool, ipError: Option<string>, ipInfo: Option<IpInfo>, leakedIPs: seq<string>, webrtcChecking: bool)
    ensures LeakTestView(ipLoading, ipError, ipInfo, leakedIPs, webrtcChecking).Failed?
            <==> !ipLoading && HasError(ipError)
  {
  }

  /** Once both checks are done, a leak is reported exactly when `isWebRTCLeak` holds. */
  lemma LeakShownIff(ipError: Option<string>, ipInfo: Option<IpInfo>, leakedIPs: seq<string>)
    requires !HasError(ipError)
    ensures LeakTestView(false, ipError, ipInfo, leakedIPs, false).webrtc.PotentialLeak?
            <==> IsWebRTCLeak(leakedIPs, ipInfo)
  {
  }

  /** No revealed address never counts as a leak, and shows the all-clear. */
  lemma EmptyListNoLeak(ipError: Option<string>, ipInfo: Option<IpInfo>)
    requires !HasError(ipError)
    ensures !IsWebRTCLeak([], ipInfo)
    ensures LeakTestView(false, ipError, ipInfo, [], false).webrtc == NoLeaks
  {
  }

  /** WebRTC revealing the public address itself is shown as exposed but safe, not as a leak. */
  lemma PublicIpRevealedIsSafe(ipError: Option<string>, info: IpInfo, leakedIPs: seq<string>)
    requires !HasError(ipError)
    requires info.ip in leakedIPs
    ensures !IsWebRTCLeak(leakedIPs, Some(info))
    ensures LeakTestView(false, ipError, Some(info), leakedIPs, false).webrtc == ExposedSafe(leakedIPs)
  {
  }

  /**
   * Without a public address (the lookup gave nothing but no error either)
   * revealed addresses are never called a leak.
   */
  lemma NoPublicIpNoLeak(leakedIPs: seq<string>)
    ensures !IsWebRTCLeak(leakedIPs, None)
  {
  }
}
