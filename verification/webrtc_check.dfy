/**
 * The WebRTC check: while the browser gathers ICE candidates, every address
 * found in a candidate is added to a set, and the list of addresses shown is
 * the set in insertion order. Gathering ends with a null candidate, after a
 * five-second timeout, or at once when setting up the connection fails.
 *
 * The address-matching regular expression is the parameter `extractIP`; the
 * peer connection, the STUN server and the timer are the callers of the
 * event methods.
 */
module WebRtcCheck {
  import opened Wrappers
  import opened Seqs

  /** The addresses the candidates `cands` reveal, each once, in the order first seen. */
  function Gathered(extractIP: string -> Option<string>, cands: seq<string>): seq<string>
  {
    if cands == [] then []
    else
      var earlier := Gathered(extractIP, cands[..|cands| - 1]);
      match extractIP(cands[|cands| - 1])
      case Some(ip) => if ip in earlier then earlier else earlier + [ip]
      case None => earlier
  }

  /** No address is listed twice. */
  lemma {:induction false} GatheredDistinct(extractIP: string -> Option<string>, cands: seq<string>)
    ensures Distinct(Gathered(extractIP, cands))
  {
    if cands != [] {
      GatheredDistinct(extractIP, cands[..|cands| - 1]);
    }
  }

  /** An address is listed exactly when some candidate reveals it. */
  lemma {:induction false} GatheredMembers(extractIP: string -> Option<string>, cands: seq<string>, ip: string)
    ensures ip in Gathered(extractIP, cands) <==> exists c :: c in cands && extractIP(c) == Some(ip)
  {
    if cands != [] {
      var n := |cands| - 1;
      GatheredMembers(extractIP, cands[..n], ip);
      assert cands == cands[..n] + [cands[n]];
      if exists c :: c in cands && extractIP(c) == Some(ip) {
        var c :| c in cands && extractIP(c) == Some(ip);
        if c != cands[n] {
          assert c in cands[..n];
        }
      }
    }
  }

  /** Later candidates only append: what was listed stays listed, in the same place. */
  lemma {:induction false} GatheredPrefix(extractIP: string -> Option<string>, cands: seq<string>, more: seq<string>)
    ensures Gathered(extractIP, cands) <= Gathered(extractIP, cands + more)
  {
    if more == [] {
      assert cands + more == cands;
    } else {
      var n := |more| - 1;
      GatheredPrefix(extractIP, cands, more[..n]);
      assert (cands + more)[..|cands + more| - 1] == cands + more[..n];
    }
  }

  /** A candidate that reveals no address, or an address already listed, changes nothing. */
  lemma GatheredUnchanged(extractIP: string -> Option<string>, cands: seq<string>, c: string)
    requires extractIP(c).None? || extractIP(c).value in Gathered(extractIP, cands)
    ensures Gathered(extractIP, cands + [c]) == Gathered(extractIP, cands)
  {
    assert (cands + [c])[..|cands|] == cands;
  }

  /** The hook's state across the events of one check. */
  class Checker {
    const extractIP: string -> Option<string>
    /** The `ips` set, as the sequence of its elements in insertion order. */
    var ips: seq<string>
    var leakedIPs: seq<string>
    var checking: bool
    /** The candidate texts received so far. */
    ghost var candidates: seq<string>

    ghost predicate Valid()
      reads this
    {
      ips == Gathered(extractIP, candidates) && leakedIPs == ips
    }

    /** `checkWebRTC` starts: `checking` is set and the set is empty. */
    constructor (extractIP: string -> Option<string>)
      ensures Valid()
      ensures this.extractIP == extractIP
      ensures checking && leakedIPs == [] && candidates == []
    {
      this.extractIP := extractIP;
      ips := [];
      leakedIPs := [];
      checking := true;
      candidates := [];
    }

    /**
     * `onicecandidate`: a null candidate ends the check; otherwise a new
     * address found in the candidate text is added and the list republished.
     */
    method OnIceCandidate(candidate: Option<string>)
      requires Valid()
      modifies this
      ensures Valid()
      ensures candidate.None? ==> !checking && candidates == old(candidates) && leakedIPs == old(leakedIPs)
      ensures candidate.Some? ==> checking == old(checking) && candidates == old(candidates) + [candidate.value]
      ensures old(leakedIPs) <= leakedIPs
    {
      if candidate.None? {
        checking := false;
        return;
      }
      var c := candidate.value;
      assert (candidates + [c])[..|candidates|] == candidates;
      candidates := candidates + [c];
      var found := extractIP(c);
      if found.Some? {
        var ip := found.value;
        if ip !in ips {
          ips := ips + [ip];
          leakedIPs := ips;
        }
      }
    }

    /** The five-second timer fires: the connection is closed and the check ends. */
    method OnTimeout()
      requires Valid()
      modifies this
      ensures Valid() && !checking
      ensures leakedIPs == old(leakedIPs) && candidates == old(candidates)
    {
      checking := false;
    }

    /** Setting up the connection failed: the check ends with what was gathered. */
    method OnError()
      requires Valid()
      modifies this
      ensures Valid() && !checking
      ensures leakedIPs == old(leakedIPs) && candidates == old(candidates)
    {
      checking := false;
    }
  }
}
