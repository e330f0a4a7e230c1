/** The round-robin scan of the INS's pollset query over its worker threads' sockets. */
module Pollset {
  import opened Queues
  import opened Dyadic

  /** The poll bits; the last two are not passed on. */
  datatype PollFlag = In | RdNorm | Hup | Out | WrNorm | Err | Pri | Nval | RdBand | WrBand

  const Reported: set<PollFlag> := {In, RdNorm, Hup, Out, WrNorm, Err, Pri, Nval}

  type Events = set<PollFlag>

  datatype Item = Item(slot: nat, events: Events)

  /** The slot `k` steps after `c` on a circle of `n`. */
  function Slot(c: nat, k: nat, n: nat): (p: nat)
    requires c < n && k <= n
    ensures p < n
  {
    if c + k < n then c + k else c + k - n
  }

  lemma SlotIsModulo(c: nat, k: nat, n: nat)
    requires c < n && k <= n
    ensures Slot(c, k, n) == (c + k) % n
  {
    DivisionUnique(c + k, n, if c + k < n then 0 else 1, Slot(c, k, n));
  }

  /** The ready slots among the first `k` from `c` on, in that order. */
  function ReadyFrom(revents: seq<Events>, c: nat, k: nat): seq<Item>
    requires c < |revents| && k <= |revents|
  {
    if k == 0 then []
    else
      var p := Slot(c, k - 1, |revents|);
      ReadyFrom(revents, c, k - 1) + if revents[p] == {} then [] else [Item(p, revents[p] * Reported)]
  }

  function Ready(revents: seq<Events>): set<nat> {
    set p: nat | p < |revents| && revents[p] != {}
  }

  /** How far slot `p` is from the cursor `c`. */
  function Dist(c: nat, p: nat, n: nat): (d: nat)
    requires c < n && p < n
    ensures d < n && Slot(c, d, n) == p
  {
    if p >= c then p - c else p + n - c
  }

  lemma DistSlot(c: nat, k: nat, n: nat)
    requires c < n && k < n
    ensures Dist(c, Slot(c, k, n), n) == k
  {}

  /** The slots of the items. */
  ghost function Slots(items: seq<Item>): set<nat> {
    set i | 0 <= i < |items| :: items[i].slot
  }

  /** Ready slots nearer to the cursor than `k`. */
  ghost function Near(revents: seq<Events>, c: nat, k: nat): set<nat>
    requires c < |revents|
  {
    set p: nat | p < |revents| && revents[p] != {} && Dist(c, p, |revents|) < k
  }

  /** The scanned items are the near ready slots, each once and nearest first. */
  ghost predicate InOrder(items: seq<Item>, c: nat, n: nat)
    requires c < n
  {
    && (forall i :: 0 <= i < |items| ==> items[i].slot < n)
    && forall i, j :: 0 <= i < j < |items| ==> Dist(c, items[i].slot, n) < Dist(c, items[j].slot, n)
  }

  lemma {:induction false} ReadyFromSlots(revents: seq<Events>, c: nat, k: nat)
    requires c < |revents| && k <= |revents|
    ensures Slots(ReadyFrom(revents, c, k)) == Near(revents, c, k)
    ensures |Slots(ReadyFrom(revents, c, k))| == |ReadyFrom(revents, c, k)|
    ensures InOrder(ReadyFrom(revents, c, k), c, |revents|)
  {
    if k > 0 {
      ReadyFromSlots(revents, c, k - 1);
      var was, p := ReadyFrom(revents, c, k - 1), Slot(c, k - 1, |revents|);
      DistSlot(c, k - 1, |revents|);
      NearStep(revents, c, k);
      assert p !in Near(revents, c, k - 1);
      if revents[p] != {} {
        var x := Item(p, revents[p] * Reported);
        assert ReadyFrom(revents, c, k) == was + [x];
        SlotsAppend(was, x);
        OrderAppend(revents, was, x, c, k);
      } else {
        assert ReadyFrom(revents, c, k) == was;
      }
    }
  }

  lemma NearStep(revents: seq<Events>, c: nat, k: nat)
    requires c < |revents| && 1 <= k <= |revents|
    ensures
      var p := Slot(c, k - 1, |revents|);
      Near(revents, c, k) == Near(revents, c, k - 1) + if revents[p] == {} then {} else {p}
  {
    var p := Slot(c, k - 1, |revents|);
    DistSlot(c, k - 1, |revents|);
    forall q: nat | q < |revents| && Dist(c, q, |revents|) == k - 1 ensures q == p {}
  }

  lemma OrderAppend(revents: seq<Events>, was: seq<Item>, x: Item, c: nat, k: nat)
    requires c < |revents| && 1 <= k <= |revents| && InOrder(was, c, |revents|)
    requires Slots(was) == Near(revents, c, k - 1) && x.slot == Slot(c, k - 1, |revents|)
    ensures InOrder(was + [x], c, |revents|)
  {
    DistSlot(c, k - 1, |revents|);
    forall i | 0 <= i < |was| ensures Dist(c, was[i].slot, |revents|) < k - 1 {
      assert was[i].slot in Slots(was);
    }
  }

  lemma SlotsAppend(items: seq<Item>, x: Item)
    requires x.slot !in Slots(items)
    ensures Slots(items + [x]) == Slots(items) + {x.slot} && |Slots(items + [x])| == |Slots(items)| + 1
  {
    var t := items + [x];
    forall q ensures q in Slots(t) <==> q in Slots(items) || q == x.slot {
      if q in Slots(items) {
        var i :| 0 <= i < |items| && items[i].slot == q;
        assert t[i].slot == q;
      }
      if q == x.slot {
        assert t[|items|].slot == q;
      }
    }
    assert Slots(t) == Slots(items) + {x.slot};
  }

  /** A full turn finds all the ready slots, so as many as `poll` counted. */
  lemma FullTurn(revents: seq<Events>, c: nat)
    requires c < |revents|
    ensures |ReadyFrom(revents, c, |revents|)| == |Ready(revents)|
  {
    ReadyFromSlots(revents, c, |revents|);
    assert Near(revents, c, |revents|) == Ready(revents);
  }

  lemma {:induction false} ReadyFromPrefix(revents: seq<Events>, c: nat, j: nat, k: nat)
    requires c < |revents| && j <= k <= |revents|
    ensures ReadyFrom(revents, c, j) <= ReadyFrom(revents, c, k)
    decreases k
  {
    if j < k {
      ReadyFromPrefix(revents, c, j, k - 1);
    }
  }

  /** The item carries the flags of its slot but for the two of the priority bands. */
  predicate PassesFlags(revents: seq<Events>, x: Item) {
    x.slot < |revents| &&
    var got, was := x.events, revents[x.slot];
    && (In in got <==> In in was) && (RdNorm in got <==> RdNorm in was)
    && (Hup in got <==> Hup in was) && (Out in got <==> Out in was)
    && (WrNorm in got <==> WrNorm in was) && (Err in got <==> Err in was)
    && (Pri in got <==> Pri in was) && (Nval in got <==> Nval in was)
    && RdBand !in got && WrBand !in got
  }

  ghost predicate AllPass(revents: seq<Events>, items: seq<Item>) {
    forall i :: 0 <= i < |items| ==> PassesFlags(revents, items[i])
  }

  /** Every item of a report passes on the flags that `poll` returned. */
  lemma ReportFlags(revents: seq<Events>, c: nat, max: nat)
    requires c < |revents|
    ensures AllPass(revents, Report(revents, c, max))
  {
    ReadyFromMasked(revents, c, |revents|);
    var items := Report(revents, c, max);
    forall i | 0 <= i < |items| ensures PassesFlags(revents, items[i]) {
      assert Masked(revents, items[i]);
    }
  }

  /** What a query reports with room for `max` items. */
  function Report(revents: seq<Events>, c: nat, max: nat): seq<Item>
    requires c < |revents|
  {
    var all := ReadyFrom(revents, c, |revents|);
    all[..Min(|all|, max)]
  }

  /** How far the scan moves: until the report is full, or all the way round. */
  function Steps(revents: seq<Events>, c: nat, max: nat, k: nat): (r: nat)
    requires c < |revents| && k <= |revents|
    ensures k <= r <= |revents|
    decreases |revents| - k
  {
    if k == |revents| || |ReadyFrom(revents, c, k)| >= Min(|Ready(revents)|, max) then k
    else Steps(revents, c, max, k + 1)
  }

  /** Where the scan stops it has collected the report. */
  lemma Stops(revents: seq<Events>, c: nat, max: nat, k: nat)
    requires c < |revents| && k <= |revents| && |ReadyFrom(revents, c, k)| <= max
    requires k == |revents| || |ReadyFrom(revents, c, k)| >= Min(|Ready(revents)|, max)
    ensures ReadyFrom(revents, c, k) == Report(revents, c, max)
    ensures |Report(revents, c, max)| == Min(|Ready(revents)|, max)
  {
    FullTurn(revents, c);
    ReadyFromPrefix(revents, c, k, |revents|);
  }

  /** `poll_events` of the first `k` slots from `c` on is up to date, that of the others as it was. */
  ghost predicate Stored(was: seq<Events>, now: seq<Events>, revents: seq<Events>, c: nat, k: nat)
    requires c < |revents|
  {
    && |was| == |now| == |revents|
    && forall p: nat :: p < |revents| ==>
         now[p] == if Dist(c, p, |revents|) < k then revents[p] * Reported else was[p]
  }

  lemma StoredMore(was: seq<Events>, now: seq<Events>, revents: seq<Events>, c: nat, k: nat)
    requires c < |revents| && k < |revents| && Stored(was, now, revents, c, k)
    ensures
      var p := Slot(c, k, |revents|);
      Stored(was, now[p := revents[p] * Reported], revents, c, k + 1)
  {
    DistSlot(c, k, |revents|);
  }

  /** The threads of the items carry the events reported. */
  ghost predicate Marked(now: seq<Events>, items: seq<Item>) {
    forall j :: 0 <= j < |items| ==> items[j].slot < |now| && now[items[j].slot] == items[j].events
  }

  lemma {:induction false} StoredMarked(was: seq<Events>, now: seq<Events>, revents: seq<Events>, c: nat, k: nat)
    requires c < |revents| && k <= |revents| && Stored(was, now, revents, c, k)
    ensures Marked(now, ReadyFrom(revents, c, k))
  {
    ReadyFromSlots(revents, c, k);
    ReadyFromMasked(revents, c, k);
    var items := ReadyFrom(revents, c, k);
    forall j | 0 <= j < |items| ensures items[j].slot < |now| && now[items[j].slot] == items[j].events {
      assert Masked(revents, items[j]) && items[j].slot in Slots(items);
    }
  }

  predicate Masked(revents: seq<Events>, x: Item) {
    x.slot < |revents| && x.events == revents[x.slot] * Reported
  }

  lemma {:induction false} ReadyFromMasked(revents: seq<Events>, c: nat, k: nat)
    requires c < |revents| && k <= |revents|
    ensures forall j :: 0 <= j < |ReadyFrom(revents, c, k)| ==> Masked(revents, ReadyFrom(revents, c, k)[j])
  {
    if k > 0 {
      ReadyFromMasked(revents, c, k - 1);
    }
  }

  /** The static data of `xe_pollset_query`, and the threads' `poll_events`. */
  class Scanner {
    var curPos: nat
    const pollEvents: array<Events>

    constructor (threads: nat)
      requires threads > 0
      ensures curPos == 0 && pollEvents.Length == threads && fresh(pollEvents)
    {
      curPos := 0;
      pollEvents := new Events[threads](_ => {});
    }

    /** The body of the scan loop at one slot. */
    method ScanOne(revents: seq<Events>, items: seq<Item>) returns (r: seq<Item>)
      requires |revents| == pollEvents.Length > 0 && curPos <= |revents|
      modifies this, pollEvents
      ensures var p := Wrap(old(curPos), |revents|);
        && r == items + (if revents[p] == {} then [] else [Item(p, revents[p] * Reported)])
        && curPos == p + 1
        && pollEvents[..] == old(pollEvents[..])[p := revents[p] * Reported]
    {
      curPos := Wrap(curPos, |revents|);
      r := items;
      pollEvents[curPos] := {};
      assert revents[curPos] == {} ==> revents[curPos] * Reported == {};
      if revents[curPos] != {} {
        var events := revents[curPos] * Reported;
        r := r + [Item(curPos, events)];
        pollEvents[curPos] := events;
      }
      curPos := curPos + 1;
    }

    /**
      The scan after `poll` has filled in `revents` and returned the number of slots with
      events. The cursor may stand one past the last slot.
     */
    method Query(revents: seq<Events>, pollct: nat, max: nat) returns (items: seq<Item>)
      requires |revents| == pollEvents.Length > 0 && curPos <= |revents|
      requires pollct == |Ready(revents)|
      modifies this, pollEvents
      ensures curPos <= |revents|
      ensures
        var c := Wrap(old(curPos), |revents|);
        && items == Report(revents, c, max) && |items| == Min(pollct, max)
        && Wrap(curPos, |revents|) == Slot(c, Steps(revents, c, max, 0), |revents|)
      ensures Marked(pollEvents[..], items) && AllPass(revents, items)
      ensures
        var c := Wrap(old(curPos), |revents|);
        Stored(old(pollEvents[..]), pollEvents[..], revents, c, Steps(revents, c, max, 0))
    {
      ghost var c := Wrap(curPos, |revents|);
      ghost var k;
      items, k := Scan(revents, pollct, max, c);
      Stops(revents, c, max, k);
      ReportFlags(revents, c, max);
      StoredMarked(old(pollEvents[..]), pollEvents[..], revents, c, k);
    }

    /** The scan loop, which looks at `k` slots. */
    method Scan(revents: seq<Events>, pollct: nat, max: nat, ghost c: nat) returns (items: seq<Item>, ghost k: nat)
      requires |revents| == pollEvents.Length > 0 && curPos <= |revents| && c == Wrap(curPos, |revents|)
      requires pollct == |Ready(revents)|
      modifies this, pollEvents
      ensures k <= |revents| && curPos <= |revents| && Wrap(curPos, |revents|) == Slot(c, k, |revents|)
      ensures items == ReadyFrom(revents, c, k) && |items| <= max && k == Steps(revents, c, max, 0)
      ensures k == |revents| || |items| >= Min(pollct, max)
      ensures Stored(old(pollEvents[..]), pollEvents[..], revents, c, k)
    {
      var n := |revents|;
      items := [];
      var i := 0;
      while i < n && |items| < pollct && |items| < max
        invariant 0 <= i <= n && items == ReadyFrom(revents, c, i)
        invariant curPos <= n && Wrap(curPos, n) == Slot(c, i, n)
        invariant Steps(revents, c, max, 0) == Steps(revents, c, max, i)
        invariant |items| <= max
        invariant Stored(old(pollEvents[..]), pollEvents[..], revents, c, i)
      {
        OneStep(revents, c, max, i);
        StoredMore(old(pollEvents[..]), pollEvents[..], revents, c, i);
        items := ScanOne(revents, items);
        i := i + 1;
      }
      k := i;
    }
  }

  /** `cur_pos % MAX_THREAD_COUNT`, for a cursor at most one past the end. */
  function Wrap(p: nat, n: nat): (r: nat)
    requires p <= n && 0 < n
    ensures r < n && r == p % n
  {
    if p == n then 0 else p
  }

  lemma OneStep(revents: seq<Events>, c: nat, max: nat, k: nat)
    requires c < |revents| && k < |revents|
    requires |ReadyFrom(revents, c, k)| < Min(|Ready(revents)|, max)
    ensures Steps(revents, c, max, k) == Steps(revents, c, max, k + 1)
    ensures
      var p := Slot(c, k, |revents|);
      && ReadyFrom(revents, c, k + 1)
         == ReadyFrom(revents, c, k) + (if revents[p] == {} then [] else [Item(p, revents[p] * Reported)])
      && Slot(c, k + 1, |revents|) == Wrap(p + 1, |revents|)
  {}

  // ----- Fairness

  function NextCursor(revents: seq<Events>, c: nat, max: nat): (c': nat)
    requires c < |revents|
    ensures c' < |revents|
  {
    Slot(c, Steps(revents, c, max, 0), |revents|)
  }

  lemma {:induction false} StepsStop(revents: seq<Events>, c: nat, max: nat, k: nat)
    requires c < |revents| && k <= |revents| && |ReadyFrom(revents, c, k)| <= max
    ensures
      var s := Steps(revents, c, max, k);
      && |ReadyFrom(revents, c, s)| <= max
      && (s == |revents| || |ReadyFrom(revents, c, s)| >= Min(|Ready(revents)|, max))
    decreases |revents| - k
  {
    if k < |revents| && |ReadyFrom(revents, c, k)| < Min(|Ready(revents)|, max) {
      StepsStop(revents, c, max, k + 1);
    }
  }

  lemma {:induction false} AtMostOnePerStep(revents: seq<Events>, c: nat, k: nat)
    requires c < |revents| && k <= |revents|
    ensures |ReadyFrom(revents, c, k)| <= k
  {
    if k > 0 {
      AtMostOnePerStep(revents, c, k - 1);
    }
  }

  /** The items of a report are ready slots, nearest first; it misses none when there is room. */
  lemma ReportCorrect(revents: seq<Events>, c: nat, max: nat)
    requires c < |revents|
    ensures
      var items := Report(revents, c, max);
      && |items| == Min(|Ready(revents)|, max) && InOrder(items, c, |revents|)
      && Slots(items) == Near(revents, c, Steps(revents, c, max, 0)) && Slots(items) <= Ready(revents)
  {
    StepsStop(revents, c, max, 0);
    var k := Steps(revents, c, max, 0);
    Stops(revents, c, max, k);
    ReadyFromSlots(revents, c, k);
  }

  /** A ready slot that a query misses comes nearer to the cursor by the full report at least. */
  lemma MissedComesNearer(revents: seq<Events>, c: nat, max: nat, x: nat)
    requires c < |revents| && x in Ready(revents) && x !in Slots(Report(revents, c, max))
    ensures Dist(NextCursor(revents, c, max), x, |revents|) + max <= Dist(c, x, |revents|)
  {
    var k, n := Steps(revents, c, max, 0), |revents|;
    ReportCorrect(revents, c, max);
    assert Dist(c, x, n) >= k;
    RoomForAll(revents, c, max, x);
    StepsStop(revents, c, max, 0);
    Stops(revents, c, max, k);
    AtMostOnePerStep(revents, c, k);
  }

  lemma RoomForAll(revents: seq<Events>, c: nat, max: nat, x: nat)
    requires c < |revents| && x in Ready(revents)
    ensures |Report(revents, c, max)| < max ==> x in Slots(Report(revents, c, max))
  {
    var all := ReadyFrom(revents, c, |revents|);
    ReadyFromSlots(revents, c, |revents|);
    assert x in Slots(all);
    if |Report(revents, c, max)| < max {
      assert Report(revents, c, max) == all;
    }
  }

  /** Some query of the run reports slot `x`. */
  ghost predicate ReportedIn(rs: seq<seq<Events>>, c: nat, max: nat, x: nat)
    requires forall i :: 0 <= i < |rs| ==> c < |rs[i]| && |rs[i]| == |rs[0]|
    decreases |rs|
  {
    rs != [] &&
    (x in Slots(Report(rs[0], c, max)) || ReportedIn(rs[1..], NextCursor(rs[0], c, max), max, x))
  }

  lemma {:induction false} ReportedBefore(rs: seq<seq<Events>>, n: nat, c: nat, max: nat, x: nat)
    requires c < n && x < n && forall i :: 0 <= i < |rs| ==> |rs[i]| == n && x in Ready(rs[i])
    requires |rs| * max > Dist(c, x, n)
    ensures ReportedIn(rs, c, max, x)
    decreases |rs|
  {
    if x !in Slots(Report(rs[0], c, max)) {
      MissedComesNearer(rs[0], c, max, x);
      assert (|rs| - 1) * max == |rs| * max - max;
      ReportedBefore(rs[1..], n, NextCursor(rs[0], c, max), max, x);
    }
  }

  /**
    Fairness: over any run of queries, wherever the cursor stands, a socket that stays ready is
    reported within as many queries as it takes to report all threads.
   */
  lemma Fairness(rs: seq<seq<Events>>, n: nat, c: nat, max: nat, x: nat)
    requires c < n && x < n && max >= 1
    requires forall i :: 0 <= i < |rs| ==> |rs[i]| == n && x in Ready(rs[i])
    requires |rs| >= (n + max - 1) / max
    ensures ReportedIn(rs, c, max, x)
  {
    CeilingCovers(n, max, |rs|);
    ReportedBefore(rs, n, c, max, x);
  }

  lemma CeilingCovers(n: nat, max: nat, q: nat)
    requires max >= 1 && q >= (n + max - 1) / max
    ensures q * max >= n
  {
    var d := (n + max - 1) / max;
    assert d * max + max > n + max - 1;
    assert q * max == d * max + (q - d) * max;
  }
}
