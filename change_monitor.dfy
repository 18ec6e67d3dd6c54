/**
 * One cycle of `monitor_streamers` (app/twitch_streamlink_proxy.py): poll the
 * online status of every registered streamer, trigger one media-server scan
 * per streamer whose status is new or flipped, and keep the poll as the next
 * snapshot. A failed poll is replaced by the previous snapshot.
 */
module ChangeMonitor {

  /** The result of `get_online_status` for one cycle: the status map, or any raised exception. */
  datatype Poll = Polled(status: map<string, bool>) | PollFailed

  /** The streamers that trigger a scan: in `current`, and absent from `previous` or with a different status. */
  function Transitions(previous: map<string, bool>, current: map<string, bool>): (changed: set<string>)
    ensures changed <= current.Keys
    ensures forall n :: n in previous && n !in current ==> n !in changed
  {
    set n | n in current && (n !in previous || previous[n] != current[n])
  }

  /** The map a cycle diffs against and keeps: the poll, or on failure the previous snapshot. */
  function Observed(previous: map<string, bool>, poll: Poll): map<string, bool> {
    match poll
    case Polled(status) => status
    case PollFailed => previous
  }

  /**
   * One iteration of the monitor loop: walk the current map, trigger a scan
   * for each streamer that changed, and return the names, the number of scans
   * and the new snapshot.
   */
  method RunCycle(previous: map<string, bool>, poll: Poll) returns (notified: set<string>, scans: nat, next: map<string, bool>)
    ensures next == Observed(previous, poll)
    ensures notified == Transitions(previous, next)
    ensures scans == |notified|
    ensures poll.PollFailed? ==> scans == 0 && next == previous
  {
    var current := Observed(previous, poll);
    notified, scans := {}, 0;
    var pending := current.Keys;
    while pending != {}
      invariant Walked(previous, current, pending, notified, scans)
      decreases pending
    {
      pending, notified, scans := Visit(previous, current, pending, notified, scans);
    }
    assert Transitions(previous, current) - {} == Transitions(previous, current);
    next := current;
    if poll.PollFailed? {
      UnchangedStatusFiresNothing(previous);
    }
  }

  /** The walk so far: the streamers not yet visited are `pending`; the changed ones among the rest are `notified`. */
  ghost predicate Walked(previous: map<string, bool>, current: map<string, bool>, pending: set<string>,
                         notified: set<string>, scans: nat)
  {
    && pending <= current.Keys
    && notified == Transitions(previous, current) - pending
    && scans == |notified|
  }

  /** The loop body: visit one pending streamer and trigger a scan if it changed. */
  method Visit(previous: map<string, bool>, current: map<string, bool>, pending: set<string>,
               notified: set<string>, scans: nat)
    returns (pending': set<string>, notified': set<string>, scans': nat)
    requires pending != {} && Walked(previous, current, pending, notified, scans)
    ensures pending' < pending && Walked(previous, current, pending', notified', scans')
  {
    var n :| n in pending;
    VisitStep(previous, current, pending, notified, n);
    notified', scans' := notified, scans;
    if n !in previous || previous[n] != current[n] {
      notified' := notified + {n};
      scans' := scans + 1;
    }
    pending' := pending - {n};
  }

  /** Visiting one pending streamer adds it to the notified ones exactly when it changed. */
  lemma VisitStep(previous: map<string, bool>, current: map<string, bool>, pending: set<string>,
                  notified: set<string>, n: string)
    requires pending <= current.Keys && notified == Transitions(previous, current) - pending && n in pending
    ensures n !in notified
    ensures (n !in previous || previous[n] != current[n]) ==>
              notified + {n} == Transitions(previous, current) - (pending - {n})
    ensures !(n !in previous || previous[n] != current[n]) ==>
              notified == Transitions(previous, current) - (pending - {n})
  {
  }

  /** Diffing a snapshot against itself finds nothing. */
  lemma UnchangedStatusFiresNothing(status: map<string, bool>)
    ensures Transitions(status, status) == {}
  {
  }

  /** A cycle fires nothing exactly when every polled streamer was already known with the same status. */
  lemma NoScanIffAgrees(previous: map<string, bool>, current: map<string, bool>)
    ensures Transitions(previous, current) == {} <==>
              forall n :: n in current ==> n in previous && previous[n] == current[n]
  {
    if Transitions(previous, current) == {} {
      forall n | n in current
        ensures n in previous && previous[n] == current[n]
      {
        assert n !in Transitions(previous, current);
      }
    }
  }

  /** At most one scan per polled streamer. */
  lemma {:induction false} ScansBoundedByPoll(previous: map<string, bool>, current: map<string, bool>)
    ensures |Transitions(previous, current)| <= |current|
  {
    SubsetCardinality(Transitions(previous, current), current.Keys);
  }

  lemma {:induction false} SubsetCardinality(a: set<string>, b: set<string>)
    requires a <= b
    ensures |a| <= |b|
  {
    if a != {} {
      var x :| x in a;
      SubsetCardinality(a - {x}, b - {x});
    }
  }

  /** The snapshot after a sequence of cycles, starting from the empty dict. */
  function Snapshot(polls: seq<Poll>): map<string, bool> {
    if polls == [] then map[] else Observed(Snapshot(polls[..|polls| - 1]), polls[|polls| - 1])
  }

  /** The total number of scans a sequence of cycles triggers, starting from the empty dict. */
  function TotalScans(polls: seq<Poll>): nat {
    if polls == [] then 0
    else
      var previous := Snapshot(polls[..|polls| - 1]);
      TotalScans(polls[..|polls| - 1]) + |Transitions(previous, Observed(previous, polls[|polls| - 1]))|
  }

  /** The monitor loop over a finite sequence of polls: scans per cycle, their total, and the last snapshot. */
  method Monitor(polls: seq<Poll>) returns (perCycle: seq<nat>, total: nat, snapshot: map<string, bool>)
    ensures |perCycle| == |polls|
    ensures forall i :: 0 <= i < |polls| ==>
              perCycle[i] == |Transitions(Snapshot(polls[..i]), Snapshot(polls[..i + 1]))|
    ensures total == TotalScans(polls)
    ensures snapshot == Snapshot(polls)
  {
    perCycle, total, snapshot := [], 0, map[];
    var i := 0;
    while i < |polls|
      invariant 0 <= i <= |polls|
      invariant |perCycle| == i
      invariant forall j :: 0 <= j < i ==>
                  perCycle[j] == |Transitions(Snapshot(polls[..j]), Snapshot(polls[..j + 1]))|
      invariant snapshot == Snapshot(polls[..i])
      invariant total == TotalScans(polls[..i])
    {
      CycleStep(polls, i);
      var notified, scans, next := RunCycle(snapshot, polls[i]);
      perCycle := perCycle + [scans];
      total := total + scans;
      snapshot := next;
      i := i + 1;
    }
    assert polls[..i] == polls;
  }

  /** Cycle `i` diffs the snapshot after the first `i` polls against the one after `i + 1`, and adds that many scans. */
  lemma CycleStep(polls: seq<Poll>, i: nat)
    requires i < |polls|
    ensures Snapshot(polls[..i + 1]) == Observed(Snapshot(polls[..i]), polls[i])
    ensures TotalScans(polls[..i + 1])
              == TotalScans(polls[..i]) + |Transitions(Snapshot(polls[..i]), Snapshot(polls[..i + 1]))|
  {
    assert polls[..i + 1][..i] == polls[..i];
  }

  /** A failed poll is invisible: dropping it changes neither the final snapshot nor the scan count. */
  lemma {:induction false} FailedPollIsInvisible(polls: seq<Poll>, i: nat)
    requires i < |polls| && polls[i] == PollFailed
    ensures Snapshot(polls[..i] + polls[i + 1..]) == Snapshot(polls)
    ensures TotalScans(polls[..i] + polls[i + 1..]) == TotalScans(polls)
  {
    var prefix := polls[..|polls| - 1];
    var dropped := polls[..i] + polls[i + 1..];
    if i == |polls| - 1 {
      assert dropped == prefix;
      UnchangedStatusFiresNothing(Snapshot(prefix));
    } else {
      FailedPollIsInvisible(prefix, i);
      var last := polls[|polls| - 1];
      assert dropped == (prefix[..i] + prefix[i + 1..]) + [last];
      assert dropped[..|dropped| - 1] == prefix[..i] + prefix[i + 1..];
    }
  }

  /**
   * Polls `{A: true}`, then a failure, then `{A: false, B: true}`: one scan for
   * A's first appearance, none for the failure, one each for A's flip and B's
   * first appearance.
   */
  lemma ThreeCycleExample()
    ensures var polls := [Polled(map["A" := true]), PollFailed, Polled(map["A" := false, "B" := true])];
            && |Transitions(Snapshot(polls[..0]), Snapshot(polls[..1]))| == 1
            && |Transitions(Snapshot(polls[..1]), Snapshot(polls[..2]))| == 0
            && |Transitions(Snapshot(polls[..2]), Snapshot(polls[..3]))| == 2
            && TotalScans(polls) == 3
  {
    var polls := [Polled(map["A" := true]), PollFailed, Polled(map["A" := false, "B" := true])];
    var s1 := map["A" := true];
    var s3 := map["A" := false, "B" := true];
    assert polls[..1][..0] == [] && polls[..2][..1] == polls[..1] && polls[..3][..2] == polls[..2];
    assert Snapshot(polls[..1]) == s1;
    assert Snapshot(polls[..2]) == s1;
    assert Snapshot(polls[..3]) == s3;
    assert Transitions(map[], s1) == {"A"};
    assert Transitions(s1, s1) == {};
    assert Transitions(s1, s3) == {"A", "B"};
    assert TotalScans(polls[..1]) == 1;
    assert TotalScans(polls[..2]) == 1;
    assert TotalScans(polls[..3]) == 3;
    assert polls[..3] == polls;
  }
}
