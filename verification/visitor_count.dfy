/**
 * The visitor counter endpoint: a stored count plus the list of hashed
 * visitor addresses already counted, a synthetic count that grows with the
 * clock, and the reply that shows the larger of the two.
 *
 * The clock is the parameter `now` (milliseconds since the epoch), the
 * SHA-256 digest is the parameter `hashIP`, and the data file is the
 * `StoredFile` read at the start of a request together with `writeOk`,
 * whether writing it back succeeds.
 */
module VisitorCount {
  import opened Wrappers
  import opened Text
  import opened Seqs

  /** The address used when no forwarding header names one. */
  const LocalAddress: string := "127.0.0.1"

  /**
   * `getIP`: the text before the first comma of `x-forwarded-for`, untrimmed;
   * the local address when the header is missing or empty.
   */
  function GetIP(forwarded: Option<string>): (ip: string)
    ensures forwarded.None? || forwarded == Some("") ==> ip == LocalAddress
    ensures forwarded.Some? && forwarded.value != "" ==>
              ',' !in ip && StartsWith(forwarded.value, ip)
              && (|ip| < |forwarded.value| ==> forwarded.value[|ip|] == ',')
  {
    match forwarded
    case Some(f) =>
      if f != "" then
        FirstPiece(f, ',');
        SplitPiecesAvoid(f, ',');
        Split(f, ',')[0]
      else LocalAddress
    case None => LocalAddress
  }

  /** The first piece of a split is the text up to the first separator. */
  lemma {:induction false} FirstPiece(s: string, sep: char)
    ensures StartsWith(s, Split(s, sep)[0])
    ensures |Split(s, sep)[0]| < |s| ==> s[|Split(s, sep)[0]|] == sep
  {
    if s != [] {
      FirstPiece(s[1..], sep);
    }
  }

  /** 1 December 2024, 00:00 UTC, in milliseconds. */
  const Start: int := 1733011200000
  /** Fifteen minutes in milliseconds. */
  const Period: int := 15 * 60 * 1000

  /** `getSimulatedCount`: 500 plus one visitor per whole quarter hour since `Start` (rounded down). */
  function SimulatedCount(now: int): (c: int)
    ensures (c - 500) * Period <= now - Start < (c - 500 + 1) * Period
  {
    500 + (now - Start) / Period
  }

  /** The synthetic count is 500 at the start instant. */
  lemma SimulatedAtStart()
    ensures SimulatedCount(Start) == 500
  {
  }

  /** The synthetic count never goes down as time passes. */
  lemma SimulatedMonotone(t1: int, t2: int)
    requires t1 <= t2
    ensures SimulatedCount(t1) <= SimulatedCount(t2)
  {
  }

  function Max(a: int, b: int): int
  {
    if a >= b then a else b
  }

  /** The stored state: a count and the hashes already counted. */
  datatype Snapshot = Snapshot(count: int, hashes: seq<string>)

  /**
   * What reading the data file gives: no file, a read or parse error, or a
   * parsed object whose `hashes` may be missing or not a list (`None`).
   */
  datatype StoredFile = NoFile | Unreadable | Stored(count: int, hashes: Option<seq<string>>)

  /** The state after a read, or `None` when `hashes` is unusable. Failures start from zero. */
  function Loaded(file: StoredFile): (s: Option<Snapshot>)
    ensures file.NoFile? || file.Unreadable? ==> s == Some(Snapshot(0, []))
  {
    match file
    case Stored(count, hashes) =>
      if hashes.Some? then Some(Snapshot(count, hashes.value)) else None
    case _ => Some(Snapshot(0, []))
  }

  /** The state after counting `hash`: a new hash is appended and counted, a known one changes nothing. */
  function Recorded(s: Snapshot, hash: string): (t: Snapshot)
    ensures hash in t.hashes
    ensures hash in s.hashes ==> t == s
    ensures hash !in s.hashes ==> t.count == s.count + 1 && t.hashes == s.hashes + [hash]
  {
    if hash in s.hashes then s else Snapshot(s.count + 1, s.hashes + [hash])
  }

  /** A consistent state counts each of its distinct hashes once. */
  predicate Consistent(s: Snapshot)
  {
    s.count == |s.hashes| && Distinct(s.hashes)
  }

  /** Counting the same visitor again changes nothing. */
  lemma RecordIdempotent(s: Snapshot, hash: string)
    ensures Recorded(Recorded(s, hash), hash) == Recorded(s, hash)
  {
  }

  /** Counting keeps a consistent state consistent. */
  lemma RecordKeepsConsistent(s: Snapshot, hash: string)
    requires Consistent(s)
    ensures Consistent(Recorded(s, hash))
  {
  }

  /** Counting never forgets a hash and never lowers the count. */
  lemma RecordGrows(s: Snapshot, hash: string, other: string)
    requires other in s.hashes
    ensures other in Recorded(s, hash).hashes
    ensures Recorded(s, hash).count >= s.count
  {
  }

  /** The state of one request, updated in place as the handler does. */
  class VisitorData {
    var count: int
    var hashes: seq<string>

    constructor (count: int, hashes: seq<string>)
      ensures this.count == count && this.hashes == hashes
    {
      this.count := count;
      this.hashes := hashes;
    }

    function State(): Snapshot
      reads this
    {
      Snapshot(count, hashes)
    }

    /** Counts the visitor: an unseen hash is appended to the list and the count goes up by one; a seen hash changes nothing. */
    method Record(hash: string) returns (added: bool)
      modifies this
      ensures State() == Recorded(old(State()), hash)
      ensures added <==> hash !in old(hashes)
    {
      added := hash !in hashes;
      if added {
        hashes := hashes + [hash];
        count := count + 1;
      }
    }
  }

  /** The JSON reply: the count shown, and the `new` field when the handler sends one. */
  datatype Reply = Reply(count: int, isNew: Option<bool>)

  /** `GET`: the larger of the stored and the synthetic count. */
  function Get(file: StoredFile, now: int): (r: Reply)
    ensures r.isNew.None?
    ensures r.count >= SimulatedCount(now)
    ensures file.Stored? ==> r.count >= file.count
    ensures !file.Stored? ==> r.count >= 0
    ensures r.count == SimulatedCount(now) || r.count == (if file.Stored? then file.count else 0)
  {
    var count := if file.Stored? then file.count else 0;
    Reply(Max(count, SimulatedCount(now)), None)
  }

  /**
   * `POST` as written: count the caller's hashed address, try to write the
   * state back, and reply with the larger count and `new` computed after the
   * insertion. `written` is what reaches the data file.
   */
  method Post(forwarded: Option<string>, hashIP: string -> string, file: StoredFile, now: int, writeOk: bool)
    returns (reply: Reply, written: Option<Snapshot>)
    ensures var hash := hashIP(GetIP(forwarded));
            match Loaded(file)
            case None => reply == Reply(SimulatedCount(now), None) && written.None?
            case Some(s) =>
              && reply.count == Max(Recorded(s, hash).count, SimulatedCount(now))
              && reply.isNew == Some(false)
              && written == (if hash !in s.hashes && writeOk then Some(Recorded(s, hash)) else None)
  {
    var ip := GetIP(forwarded);
    var hash := hashIP(ip);
    var data := new VisitorData(0, []);
    match file {
      case Stored(count, hashes) =>
        if hashes.None? {
          // reading `data.hashes.includes` throws: the catch-all reply
          reply := Reply(SimulatedCount(now), None);
          written := None;
          return;
        }
        data.count := count;
        data.hashes := hashes.value;
      case _ =>
    }
    var added := data.Record(hash);
    written := if added && writeOk then Some(data.State()) else None;
    reply := Reply(Max(data.count, SimulatedCount(now)), Some(hash !in data.hashes));
  }

  /**
   * `POST` as evidently intended: `new` tells whether this request counted
   * the visitor, so it is computed before the insertion.
   */
  method PostIntended(forwarded: Option<string>, hashIP: string -> string, file: StoredFile, now: int, writeOk: bool)
    returns (reply: Reply, written: Option<Snapshot>)
    ensures var hash := hashIP(GetIP(forwarded));
            match Loaded(file)
            case None => reply == Reply(SimulatedCount(now), None) && written.None?
            case Some(s) =>
              && reply.count == Max(Recorded(s, hash).count, SimulatedCount(now))
              && reply.isNew == Some(hash !in s.hashes)
              && written == (if hash !in s.hashes && writeOk then Some(Recorded(s, hash)) else None)
  {
    var ip := GetIP(forwarded);
    var hash := hashIP(ip);
    var data := new VisitorData(0, []);
    match file {
      case Stored(count, hashes) =>
        if hashes.None? {
          reply := Reply(SimulatedCount(now), None);
          written := None;
          return;
        }
        data.count := count;
        data.hashes := hashes.value;
      case _ =>
    }
    var added := data.Record(hash);
    written := if added && writeOk then Some(data.State()) else None;
    reply := Reply(Max(data.count, SimulatedCount(now)), Some(added));
  }
}
