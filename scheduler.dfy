/** The round-robin service scheduler `ExecuteService` (commands.c:277-308),
    as a function of the service states and the cursor `ServiceRunning`.

    The services form a ring of `n` slots. A call starts at the cursor (the
    sentinel position `n` wraps to 0), walks forward past stopped services,
    runs the first service that is not stopped for one state step, and leaves
    the cursor just after it. When every service is stopped it runs nothing
    and the cursor stays where the walk started. */
module Scheduler {
  import opened Bytes
  import opened Definitions

  /** The slot `d` steps after `w` on a ring of `n` slots. */
  function Cyc(w: nat, d: nat, n: nat): (r: nat)
    requires w < n && d <= n
    ensures r < n
  {
    if w + d < n then w + d else w + d - n
  }

  /** The number of steps from `w` forward to `k` on a ring of `n` slots. */
  function Dist(w: nat, k: nat, n: nat): (d: nat)
    requires w < n && k < n
    ensures d < n && Cyc(w, d, n) == k
    ensures forall e :: 0 <= e < n && Cyc(w, e, n) == k ==> e == d
  {
    if w <= k then k - w else k + n - w
  }

  /** Where a walk starts: a cursor on the sentinel wraps to the first slot. */
  function Wrap(cursor: nat, n: nat): nat
  {
    if cursor == n then 0 else cursor
  }

  /** The first service at least `d` steps from `w` that is not stopped. */
  function Probe(states: seq<byte>, w: nat, d: nat): (r: Option<nat>)
    requires w < |states| && d <= |states|
    ensures r.Some? ==> r.value < |states|
    decreases |states| - d
  {
    if d == |states| then None
    else if states[Cyc(w, d, |states|)] != Stopped then Some(Cyc(w, d, |states|))
    else Probe(states, w, d + 1)
  }

  /** The service a call with cursor `cursor` runs, if any. */
  function Pick(states: seq<byte>, cursor: nat): Option<nat>
    requires 0 < |states| && cursor <= |states|
  {
    Probe(states, Wrap(cursor, |states|), 0)
  }

  /** The service states and the cursor. */
  datatype Ring = Ring(states: seq<byte>, cursor: nat)

  /** One call of `ExecuteService`: `count` is `ServiceCount` (0 before the
      first `Initialize`, the number of services after it) and `runs[i]` is
      the step function of service `i`. */
  function Schedule(states: seq<byte>, runs: seq<byte -> byte>, count: nat, cursor: nat): (r: Ring)
    requires |runs| == |states| && cursor <= |states| && (count == 0 || count == |states|)
    ensures |r.states| == |states| && r.cursor <= |states|
  {
    if count == 0 then Ring(states, cursor)
    else match Pick(states, cursor)
      case None => Ring(states, Wrap(cursor, |states|))
      case Some(k) => Ring(states[k := runs[k](states[k])], k + 1)
  }

  /** `Probe` finds the nearest service that is not stopped: every slot it
      walks past is stopped, and it finds none only when all are. */
  lemma {:induction false} ProbeFirst(states: seq<byte>, w: nat, d: nat)
    requires w < |states| && d <= |states|
    ensures var n := |states|;
      match Probe(states, w, d)
      case Some(k) =>
        && d <= Dist(w, k, n) && states[k] != Stopped
        && forall e :: d <= e < Dist(w, k, n) ==> states[Cyc(w, e, n)] == Stopped
      case None => forall e :: d <= e < n ==> states[Cyc(w, e, n)] == Stopped
    decreases |states| - d
  {
    if d < |states| {
      ProbeFirst(states, w, d + 1);
    }
  }

  /** The walk reaches a busy service `k` when every slot between is
      stopped. */
  lemma {:induction false} ProbeReaches(states: seq<byte>, w: nat, d: nat, k: nat)
    requires w < |states| && k < |states| && d <= Dist(w, k, |states|)
    requires states[k] != Stopped
    requires forall e :: d <= e < Dist(w, k, |states|) ==> states[Cyc(w, e, |states|)] == Stopped
    ensures Probe(states, w, d) == Some(k)
    decreases |states| - d
  {
    if d < Dist(w, k, |states|) {
      ProbeReaches(states, w, d + 1, k);
    }
  }

  /** A call runs service `k` exactly when `k` is not stopped and every slot
      from the cursor up to `k` is. */
  lemma PickIsFirstBusy(states: seq<byte>, cursor: nat, k: nat)
    requires 0 < |states| && cursor <= |states| && k < |states|
    ensures var n := |states|; var w := Wrap(cursor, n);
      Pick(states, cursor) == Some(k)
      <==> (states[k] != Stopped && forall e :: 0 <= e < Dist(w, k, n) ==> states[Cyc(w, e, n)] == Stopped)
  {
    var n := |states|;
    var w := Wrap(cursor, n);
    ProbeFirst(states, w, 0);
    if states[k] != Stopped && forall e :: 0 <= e < Dist(w, k, n) ==> states[Cyc(w, e, n)] == Stopped {
      ProbeReaches(states, w, 0, k);
    }
  }

  /** A call runs nothing exactly when every service is stopped. */
  lemma PickNoneIffAllStopped(states: seq<byte>, cursor: nat)
    requires 0 < |states| && cursor <= |states|
    ensures Pick(states, cursor) == None <==> forall i :: 0 <= i < |states| ==> states[i] == Stopped
  {
    var n := |states|;
    var w := Wrap(cursor, n);
    ProbeFirst(states, w, 0);
    if Pick(states, cursor) == None {
      forall i | 0 <= i < n ensures states[i] == Stopped {
        assert Cyc(w, Dist(w, i, n), n) == i;
      }
    }
  }

  /** A stopped service is never run. */
  lemma StoppedNeverRuns(states: seq<byte>, cursor: nat, i: nat)
    requires 0 < |states| && cursor <= |states| && i < |states| && states[i] == Stopped
    ensures Pick(states, cursor) != Some(i)
  {
    PickIsFirstBusy(states, cursor, i);
  }

  /** A call changes the state of the service it runs and of no other, and
      moves the cursor just past it; with no service busy it changes no
      state and only wraps the cursor, so a second call does the same. */
  lemma ScheduleEffect(states: seq<byte>, runs: seq<byte -> byte>, cursor: nat)
    requires 0 < |states| && |runs| == |states| && cursor <= |states|
    ensures var r := Schedule(states, runs, |states|, cursor);
      match Pick(states, cursor)
      case Some(k) =>
        && r.states[k] == runs[k](states[k]) && r.cursor == k + 1
        && forall i :: 0 <= i < |states| && i != k ==> r.states[i] == states[i]
      case None =>
        && r == Ring(states, Wrap(cursor, |states|))
        && Schedule(r.states, runs, |states|, r.cursor) == r
  {
    if Pick(states, cursor) == None {
      PickNoneIffAllStopped(states, cursor);
      PickNoneIffAllStopped(states, Wrap(cursor, |states|));
    }
  }

  /** `t` consecutive calls once every service is counted. */
  function Ticks(states: seq<byte>, runs: seq<byte -> byte>, cursor: nat, t: nat): (r: Ring)
    requires |runs| == |states| && cursor <= |states|
    ensures |r.states| == |states| && r.cursor <= |states|
    decreases t
  {
    if t == 0 then Ring(states, cursor)
    else
      var r := Schedule(states, runs, |states|, cursor);
      Ticks(r.states, runs, r.cursor, t - 1)
  }

  /** No starvation: a service that is not stopped is run within `n`
      consecutive calls, whatever the other services do meanwhile; more
      precisely, within as many calls as it is slots ahead of the cursor. */
  lemma {:induction false} NoStarvation(states: seq<byte>, runs: seq<byte -> byte>, cursor: nat, i: nat)
    returns (t: nat)
    requires |runs| == |states| && cursor <= |states| && i < |states|
    requires states[i] != Stopped
    ensures t <= Dist(Wrap(cursor, |states|), i, |states|) < |states|
    ensures var r := Ticks(states, runs, cursor, t); Pick(r.states, r.cursor) == Some(i)
    decreases Dist(Wrap(cursor, |states|), i, |states|)
  {
    var n := |states|;
    var w := Wrap(cursor, n);
    ProbeFirst(states, w, 0);
    PickNoneIffAllStopped(states, cursor);
    match Pick(states, cursor)
    case None =>
      assert false;
    case Some(k) =>
      if k == i {
        t := 0;
      } else {
        var r := Schedule(states, runs, n, cursor);
        ScheduleEffect(states, runs, cursor);
        assert Wrap(r.cursor, n) == Cyc(w, Dist(w, k, n) + 1, n);
        assert Dist(Wrap(r.cursor, n), i, n) == Dist(w, i, n) - Dist(w, k, n) - 1;
        var t' := NoStarvation(r.states, runs, r.cursor, i);
        t := t' + 1;
      }
  }
}
