/** Queries over a snapshot of the complaint collection: the store's lookup
    by key, the tracking scan, the electrician's queue, the dashboard counts
    and the per-electrician performance figures. Every view recomputes these
    from the whole snapshot. */
module Queries {
  import opened Options
  import opened Tickets
  import opened Session

  /** Keys appear in strictly increasing order; in particular they are
      pairwise distinct. */
  ghost predicate KeysIncreasing(s: seq<Doc>) {
    forall i, j :: 0 <= i < j < |s| ==> s[i].key < s[j].key
  }

  /** The store's fetch by key: the position of the document with that key. */
  function IndexOfKey(s: seq<Doc>, key: nat): (r: Option<nat>)
    ensures r.Some? ==> r.value < |s| && s[r.value].key == key
    ensures r.None? ==> forall j :: 0 <= j < |s| ==> s[j].key != key
  {
    if s == [] then None
    else if s[0].key == key then Some(0)
    else
      match IndexOfKey(s[1..], key)
      case None => None
      case Some(i) => Some(i + 1)
  }

  // ---------------------------------------------------------------------
  // Tracking
  // ---------------------------------------------------------------------

  /** The tracking comparison: both sides upper-cased. */
  predicate IdMatches(d: Doc, trackingNumber: string) {
    Upper(d.ticket.ticketId) == Upper(trackingNumber)
  }

  /** The position of the LAST document whose identifier matches, if any. */
  function LastMatch(s: seq<Doc>, trackingNumber: string): (r: Option<nat>)
    ensures r.Some? ==> r.value < |s| && IdMatches(s[r.value], trackingNumber)
    ensures r.Some? ==> forall j :: r.value < j < |s| ==> !IdMatches(s[j], trackingNumber)
    ensures r.None? ==> forall j :: 0 <= j < |s| ==> !IdMatches(s[j], trackingNumber)
  {
    if s == [] then None
    else if IdMatches(s[|s| - 1], trackingNumber) then Some(|s| - 1)
    else LastMatch(s[..|s| - 1], trackingNumber)
  }

  datatype TrackMessage = EnterNumber | NotFound | Shown

  /** The tracking handler: with no store or an empty tracking number it
      asks for a number and shows nothing; otherwise it scans the whole
      snapshot, each match overwriting the previous one, and shows the last
      match or reports "not found". */
  method Track(snapshot: seq<Doc>, online: bool, trackingNumber: string)
    returns (found: Option<Doc>, message: TrackMessage)
    ensures !online || trackingNumber == "" ==> found == None && message == EnterNumber
    ensures online && trackingNumber != "" ==>
      match LastMatch(snapshot, trackingNumber)
      case None => found == None && message == NotFound
      case Some(i) => found == Some(snapshot[i]) && message == Shown
  {
    if !online || trackingNumber == "" {
      return None, EnterNumber;
    }
    found := None;
    ghost var at: Option<nat> := None;
    var i := 0;
    while i < |snapshot|
      invariant 0 <= i <= |snapshot|
      invariant at == LastMatch(snapshot[..i], trackingNumber)
      invariant match at
        case None => found == None
        case Some(k) => k < i && found == Some(snapshot[k])
    {
      assert snapshot[..i + 1][..i] == snapshot[..i];
      if Upper(snapshot[i].ticket.ticketId) == Upper(trackingNumber) {
        found := Some(snapshot[i]);
        at := Some(i);
      }
      i := i + 1;
    }
    assert snapshot[..i] == snapshot;
    message := if found == None then NotFound else Shown;
  }

  /** Tracking is case-insensitive: two inputs equal up to upper-casing
      ("muz-1234" and "MUZ-1234") resolve to the same record. */
  lemma {:induction false} TrackCaseInsensitive(s: seq<Doc>, a: string, b: string)
    requires Upper(a) == Upper(b)
    ensures LastMatch(s, a) == LastMatch(s, b)
  {
    if s != [] {
      TrackCaseInsensitive(s[..|s| - 1], a, b);
    }
  }

  /** A document appended to the snapshot is found by its own identifier,
      whatever the snapshot already held: the last match wins. */
  lemma TrackFindsAppended(s: seq<Doc>, d: Doc, trackingNumber: string)
    requires IdMatches(d, trackingNumber)
    ensures LastMatch(s + [d], trackingNumber) == Some(|s|)
  {
  }

  /** When exactly one document matches, tracking returns it, whatever the
      snapshot order. */
  lemma TrackFindsOnlyMatch(s: seq<Doc>, i: nat, trackingNumber: string)
    requires i < |s| && IdMatches(s[i], trackingNumber)
    requires forall j :: 0 <= j < |s| && j != i ==> !IdMatches(s[j], trackingNumber)
    ensures LastMatch(s, trackingNumber) == Some(i)
  {
  }

  // ---------------------------------------------------------------------
  // The electrician's queue
  // ---------------------------------------------------------------------

  /** The documents assigned to `username`, in snapshot order. */
  function Queue(s: seq<Doc>, username: string): (q: seq<Doc>)
    ensures |q| <= |s|
    ensures forall d :: d in q <==> d in s && d.ticket.assignedTo == Some(username)
  {
    if s == [] then []
    else (if s[0].ticket.assignedTo == Some(username) then [s[0]] else []) + Queue(s[1..], username)
  }

  /** The queue keeps snapshot order: on a store whose keys increase, the
      queue's keys increase too. */
  lemma {:induction false} QueueKeepsOrder(s: seq<Doc>, username: string)
    requires KeysIncreasing(s)
    ensures KeysIncreasing(Queue(s, username))
  {
    if s != [] {
      QueueKeepsOrder(s[1..], username);
      var rest := Queue(s[1..], username);
      if s[0].ticket.assignedTo == Some(username) {
        HeadKeyBelowTail(s);
        ConsKeepsIncreasing(s[0], rest);
      } else {
        assert Queue(s, username) == rest;
      }
    }
  }

  lemma HeadKeyBelowTail(s: seq<Doc>)
    requires s != [] && KeysIncreasing(s)
    ensures forall d :: d in s[1..] ==> s[0].key < d.key
  {
    forall d | d in s[1..]
      ensures s[0].key < d.key
    {
      var j :| 0 <= j < |s[1..]| && s[1..][j] == d;
      assert s[j + 1] == d;
    }
  }

  lemma ConsKeepsIncreasing(x: Doc, rest: seq<Doc>)
    requires KeysIncreasing(rest)
    requires forall d :: d in rest ==> x.key < d.key
    ensures KeysIncreasing([x] + rest)
  {
    var q := [x] + rest;
    forall i, j | 0 <= i < j < |q|
      ensures q[i].key < q[j].key
    {
      if i == 0 {
        assert q[j] == rest[j - 1];
      } else {
        assert q[i] == rest[i - 1] && q[j] == rest[j - 1];
      }
    }
  }

  // ---------------------------------------------------------------------
  // Counts
  // ---------------------------------------------------------------------

  /** `filter(c => c.status === st).length` */
  function CountStatus(s: seq<Doc>, st: Status): (n: nat)
    ensures n <= |s|
  {
    if s == [] then 0 else (if s[0].ticket.status == st then 1 else 0) + CountStatus(s[1..], st)
  }

  /** Every document has exactly one of the four statuses. */
  lemma {:induction false} StatusPartition(s: seq<Doc>)
    ensures CountStatus(s, Pending) + CountStatus(s, InProgress) + CountStatus(s, Resolved)
            + CountStatus(s, Deleted) == |s|
  {
    if s != [] {
      StatusPartition(s[1..]);
    }
  }

  /** How the count of one status moves when one document is replaced: the
      old document leaves its status's count, the new one enters its own. */
  lemma {:induction false} CountStatusUpdate(s: seq<Doc>, i: nat, d: Doc, st: Status)
    requires i < |s|
    ensures CountStatus(s[i := d], st) + (if s[i].ticket.status == st then 1 else 0)
            == CountStatus(s, st) + (if d.ticket.status == st then 1 else 0)
  {
    if i == 0 {
      assert s[i := d][1..] == s[1..];
    } else {
      CountStatusUpdate(s[1..], i - 1, d, st);
      assert s[i := d][1..] == s[1..][i - 1 := d];
    }
  }

  /** The admin dashboard's four stat cards. */
  datatype Totals = Totals(total: nat, pending: nat, inProgress: nat, resolved: nat)

  /** The stat cards for a snapshot. Deleted tickets are in the total but in
      none of the three status cards, which is the whole gap between them. */
  function DashboardTotals(s: seq<Doc>): (t: Totals)
    ensures t.total == |s|
    ensures t.pending + t.inProgress + t.resolved + CountStatus(s, Deleted) == t.total
    ensures t.pending + t.inProgress + t.resolved <= t.total
  {
    StatusPartition(s);
    Totals(|s|, CountStatus(s, Pending), CountStatus(s, InProgress), CountStatus(s, Resolved))
  }

  // ---------------------------------------------------------------------
  // Electrician performance
  // ---------------------------------------------------------------------

  /** One row of the performance table. */
  datatype Perf = Perf(assignedCount: nat, solvedCount: nat, pendingCount: nat)

  /** The figures for one electrician: tickets assigned to them; of those,
      the Resolved ones; and the Pending or In Progress ones. The conjunction
      `assignedTo === u && status === st` is counted as the status count of
      the queue. What separates assigned from solved + pending is exactly the
      assigned tickets that were later deleted. */
  function PerfOf(s: seq<Doc>, username: string): (p: Perf)
    ensures p.assignedCount == |Queue(s, username)|
    ensures p.solvedCount + p.pendingCount + CountStatus(Queue(s, username), Deleted) == p.assignedCount
    ensures p.solvedCount + p.pendingCount <= p.assignedCount
  {
    var q := Queue(s, username);
    StatusPartition(q);
    Perf(|q|, CountStatus(q, Resolved), CountStatus(q, Pending) + CountStatus(q, InProgress))
  }

  /** The usernames of a roster. */
  function Usernames(roster: seq<Account>): set<string> {
    set a | a in roster :: a.username
  }

  /** The performance table: one entry per roster username, each holding that
      electrician's figures (a later account with the same username
      overwrites an earlier one, as assigning into an object does). */
  function Performance(s: seq<Doc>, roster: seq<Account>): (m: map<string, Perf>)
    ensures m.Keys == Usernames(roster)
    ensures forall u :: u in m ==> m[u] == PerfOf(s, u)
  {
    if roster == [] then map[]
    else
      var init := roster[..|roster| - 1];
      var last := roster[|roster| - 1];
      assert roster == init + [last];
      assert Usernames(roster) == Usernames(init) + {last.username};
      Performance(s, init)[last.username := PerfOf(s, last.username)]
  }

  /** A queue holds no Pending ticket on a store where every ticket keeps the
      invariant, since a Pending ticket has no assignee. */
  lemma {:induction false} QueueHasNoPending(s: seq<Doc>, username: string)
    requires forall i :: 0 <= i < |s| ==> TicketInvariant(s[i].ticket)
    ensures CountStatus(Queue(s, username), Pending) == 0
  {
    if s != [] {
      QueueHasNoPending(s[1..], username);
      var head := if s[0].ticket.assignedTo == Some(username) then [s[0]] else [];
      assert Queue(s, username) == head + Queue(s[1..], username);
      if head != [] {
        assert TicketInvariant(s[0].ticket);
        var q := Queue(s, username);
        assert q[0] == s[0] && s[0].ticket.status != Pending;
        assert q[1..] == Queue(s[1..], username);
        assert CountStatus(q, Pending) == CountStatus(q[1..], Pending);
      } else {
        assert Queue(s, username) == Queue(s[1..], username);
      }
    }
  }

  /** The performance table's "pending" column only ever counts In Progress
      tickets: assigned tickets are never Pending. */
  lemma PerfPendingIsInProgress(s: seq<Doc>, username: string)
    requires forall i :: 0 <= i < |s| ==> TicketInvariant(s[i].ticket)
    ensures PerfOf(s, username).pendingCount == CountStatus(Queue(s, username), InProgress)
  {
    QueueHasNoPending(s, username);
  }
}
