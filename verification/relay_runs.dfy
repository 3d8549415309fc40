/**
 * Whole runs of the relayer: any number of syncs over a growing log, with any adapter. The relayer promises
 * that its checkpoint makes anchoring happen at most once.
 */
module RelayRuns {
  import opened CanonicalJson
  import opened ProofService
  import opened Wrappers
  import opened RootRelayer

  /** Each sync sees the log of the one before, possibly extended. */
  ghost predicate AppendOnly(logs: seq<seq<ChainEvent>>) {
    forall i, j | 0 <= i <= j < |logs| :: logs[i] <= logs[j]
  }

  /** The state after one sync per log. */
  ghost function RunSyncs(amounts: AmountReader, adapter: Adapter, logs: seq<seq<ChainEvent>>): State {
    if logs == [] then INITIAL
    else SyncStep(amounts, adapter, RunSyncs(amounts, adapter, logs[..|logs| - 1]), logs[|logs| - 1]).state
  }

  /** Sync k of a run. */
  ghost function SyncOf(amounts: AmountReader, adapter: Adapter, logs: seq<seq<ChainEvent>>, k: nat): Progress
    requires k < |logs|
  {
    SyncStep(amounts, adapter, RunSyncs(amounts, adapter, logs[..k]), logs[k])
  }

  ghost predicate Distinct(s: seq<nat>) {
    forall i, j | 0 <= i < j < |s| :: s[i] != s[j]
  }

  ghost predicate Increasing(s: seq<nat>) {
    forall i, j | 0 <= i < j < |s| :: s[i] < s[j]
  }

  ghost predicate Acts(amounts: AmountReader, e: ChainEvent) {
    RouteOf(amounts, e.kind, e.data).Call?
  }

  ghost predicate Throwing(amounts: AmountReader, e: ChainEvent) {
    RouteOf(amounts, e.kind, e.data).Malformed?
  }

  /** The positions in lo..hi whose events call Casper. */
  ghost function Acting(amounts: AmountReader, log: seq<ChainEvent>, lo: nat, hi: nat): (s: seq<nat>)
    requires lo <= hi <= |log|
    ensures forall x | x in s :: lo <= x < hi
    decreases hi
  {
    if lo == hi then []
    else Acting(amounts, log, lo, hi - 1) + (if Acts(amounts, log[hi - 1]) then [hi - 1] else [])
  }

  ghost predicate AllAct(amounts: AmountReader, log: seq<ChainEvent>, at: seq<nat>) {
    forall i | 0 <= i < |at| :: at[i] < |log| && Acts(amounts, log[at[i]])
  }

  /** The calls of the events at some positions. */
  ghost function CallsAt(amounts: AmountReader, log: seq<ChainEvent>, at: seq<nat>): seq<CasperCall>
    requires AllAct(amounts, log, at)
  {
    seq(|at|, i requires 0 <= i < |at| => RouteOf(amounts, log[at[i]].kind, log[at[i]].data).call)
  }

  lemma {:induction false} ActingIsExact(amounts: AmountReader, log: seq<ChainEvent>, lo: nat, hi: nat)
    requires lo <= hi <= |log|
    ensures Increasing(Acting(amounts, log, lo, hi))
    ensures forall x :: x in Acting(amounts, log, lo, hi) <==> lo <= x < hi && Acts(amounts, log[x])
    decreases hi
  {
    hide RouteOf;
    if lo < hi {
      ActingIsExact(amounts, log, lo, hi - 1);
      var init, s := Acting(amounts, log, lo, hi - 1), Acting(amounts, log, lo, hi);
      assert forall x :: x in s <==> x in init || (x == hi - 1 && Acts(amounts, log[hi - 1]));
      forall i, j | 0 <= i < j < |s| ensures s[i] < s[j] {
        assert s[i] == init[i] && init[i] in init;
        assert s[j] == if j < |init| then init[j] else hi - 1;
      }
    }
  }

  lemma {:induction false} ActingSplits(amounts: AmountReader, log: seq<ChainEvent>, lo: nat, mid: nat, hi: nat)
    requires lo <= mid <= hi <= |log|
    ensures Acting(amounts, log, lo, hi) == Acting(amounts, log, lo, mid) + Acting(amounts, log, mid, hi)
    decreases hi
  {
    if mid < hi {
      ActingSplits(amounts, log, lo, mid, hi - 1);
    }
  }

  lemma {:induction false} ActingOfPrefix(amounts: AmountReader, log: seq<ChainEvent>, longer: seq<ChainEvent>,
                                          lo: nat, hi: nat)
    requires lo <= hi <= |log| && log <= longer
    ensures Acting(amounts, log, lo, hi) == Acting(amounts, longer, lo, hi)
    decreases hi
  {
    if lo < hi {
      ActingOfPrefix(amounts, log, longer, lo, hi - 1);
    }
  }

  // ---- What one sync's loop does -----------------------------------------------------------------

  lemma EventActs(amounts: AmountReader, adapter: Adapter, e: ChainEvent, at: nat, p: Progress)
    requires !p.threw
    ensures var q := RouteEvent(amounts, adapter, e.kind, e.data, at, p);
      && q.state.sources == p.state.sources + (if Acts(amounts, e) then [at] else [])
      && q.state.checkpoint == p.state.checkpoint
      && (Throwing(amounts, e) ==> q.threw)
      && (q.threw ==> Throwing(amounts, e) || Acts(amounts, e))
      && (!q.threw ==> q.tally.Total() == p.tally.Total() + 1)
  {
    hide RouteOf;
  }

  /**
   * The loop calls Casper for exactly the acting events up to the place where it stops; it stops before
   * the end only at an event that throws, and every event it passes is counted once.
   */
  lemma {:induction false} LoopActs(amounts: AmountReader, adapter: Adapter, log: seq<ChainEvent>,
                                    lo: nat, hi: nat, p: Progress) returns (stop: nat)
    requires lo <= hi <= |log| && !p.threw
    ensures lo <= stop <= hi
    ensures var q := RouteRange(amounts, adapter, log, lo, hi, p);
      && q.state.sources == p.state.sources + Acting(amounts, log, lo, stop)
      && q.state.checkpoint == p.state.checkpoint
      && (q.threw ==> lo < stop && (Throwing(amounts, log[stop - 1]) || Acts(amounts, log[stop - 1])))
      && (!q.threw ==> stop == hi && q.tally.Total() == p.tally.Total() + (hi - lo))
      && forall i | lo <= i < stop && (q.threw ==> i < stop - 1) :: !Throwing(amounts, log[i])
    decreases hi
  {
    hide RouteEvent, Acts, Throwing;
    if lo == hi {
      stop := lo;
    } else {
      stop := LoopActs(amounts, adapter, log, lo, hi - 1, p);
      var q := RouteRange(amounts, adapter, log, lo, hi - 1, p);
      if !q.threw {
        EventActs(amounts, adapter, log[hi - 1], hi - 1, q);
        stop := hi;
      }
    }
  }

  /** The calls of a state are those of its sources, in order. */
  ghost predicate CallsMatch(amounts: AmountReader, log: seq<ChainEvent>, s: State) {
    && AllAct(amounts, log, s.sources)
    && s.calls == CallsAt(amounts, log, s.sources)
  }

  lemma {:induction false} LoopCallsMatch(amounts: AmountReader, adapter: Adapter, log: seq<ChainEvent>,
                                          lo: nat, hi: nat, p: Progress)
    requires lo <= hi <= |log| && CallsMatch(amounts, log, p.state)
    ensures CallsMatch(amounts, log, RouteRange(amounts, adapter, log, lo, hi, p).state)
    decreases hi
  {
    hide RouteOf;
    if lo < hi {
      LoopCallsMatch(amounts, adapter, log, lo, hi - 1, p);
      var q := RouteRange(amounts, adapter, log, lo, hi - 1, p);
      if !q.threw && Acts(amounts, log[hi - 1]) {
        var more := q.state.sources + [hi - 1];
        assert AllAct(amounts, log, more);
        assert CallsAt(amounts, log, more) ==
          CallsAt(amounts, log, q.state.sources) + [RouteOf(amounts, log[hi - 1].kind, log[hi - 1].data).call];
      }
    }
  }

  lemma CallsMatchPrefix(amounts: AmountReader, log: seq<ChainEvent>, longer: seq<ChainEvent>, s: State)
    requires log <= longer && CallsMatch(amounts, log, s)
    ensures CallsMatch(amounts, longer, s)
  {
    hide RouteOf;
    forall i | 0 <= i < |s.sources| ensures longer[s.sources[i]] == log[s.sources[i]] {
      assert AllAct(amounts, log, s.sources);
    }
    assert CallsAt(amounts, longer, s.sources) == CallsAt(amounts, log, s.sources);
  }

  lemma OneChainSyncs(log: seq<ChainEvent>, lo: nat)
    requires OneChain(log) && lo <= |log|
    ensures SingleChain(Records(log, lo))
  {
  }

  // ---- Runs --------------------------------------------------------------------------------------

  ghost predicate Satellite(logs: seq<seq<ChainEvent>>) {
    AppendOnly(logs) && forall i | 0 <= i < |logs| :: OneChain(logs[i])
  }

  lemma SatellitePrefix(logs: seq<seq<ChainEvent>>, n: nat)
    requires Satellite(logs) && n < |logs|
    ensures Satellite(logs[..n]) && OneChain(logs[n])
    ensures n > 0 ==> logs[n - 1] <= logs[n]
  {
    hide OneChain;
  }

  /** No sync of the run threw. */
  ghost predicate Smooth(amounts: AmountReader, adapter: Adapter, logs: seq<seq<ChainEvent>>) {
    forall k | 0 <= k < |logs| :: !SyncOf(amounts, adapter, logs, k).threw
  }

  /** Sync k threw after it had already called Casper. */
  ghost predicate Dirty(amounts: AmountReader, adapter: Adapter, logs: seq<seq<ChainEvent>>, k: nat)
    requires k < |logs|
  {
    var p := SyncOf(amounts, adapter, logs, k);
    p.threw && p.state.sources != RunSyncs(amounts, adapter, logs[..k]).sources
  }

  lemma Prefixes(amounts: AmountReader, adapter: Adapter, logs: seq<seq<ChainEvent>>, n: nat, k: nat)
    requires k < n <= |logs|
    ensures logs[..n][..k] == logs[..k]
    ensures SyncOf(amounts, adapter, logs[..n], k) == SyncOf(amounts, adapter, logs, k)
    ensures Dirty(amounts, adapter, logs[..n], k) <==> Dirty(amounts, adapter, logs, k)
    ensures RunSyncs(amounts, adapter, logs[..k + 1]) == SyncOf(amounts, adapter, logs, k).state
  {
    hide SyncStep;
    assert logs[..n][..k] == logs[..k];
    assert logs[..k + 1][..k] == logs[..k];
  }

  /**
   * In a run whose syncs do not throw, Casper has received exactly one call for each acting event of the
   * log, in log order: neither the places where the syncs cut the log nor the replies matter.
   */
  lemma {:induction false} SmoothRunIsExact(amounts: AmountReader, adapter: Adapter, logs: seq<seq<ChainEvent>>)
    requires Satellite(logs) && Smooth(amounts, adapter, logs) && logs != []
    ensures var s, log := RunSyncs(amounts, adapter, logs), logs[|logs| - 1];
      && s.checkpoint == |log|
      && s.sources == Acting(amounts, log, 0, |log|)
      && CallsMatch(amounts, log, s)
    decreases |logs|
  {
    hide RouteRange, AllAct, CallsAt, Acting, Satellite, OneChain;
    SatellitePrefix(logs, |logs| - 1);
    var n := |logs| - 1;
    var before, log := RunSyncs(amounts, adapter, logs[..n]), logs[n];
    assert logs[..n + 1] == logs;
    if n > 0 {
      forall k | 0 <= k < n ensures !SyncOf(amounts, adapter, logs[..n], k).threw {
        Prefixes(amounts, adapter, logs, n, k);
      }
      SmoothRunIsExact(amounts, adapter, logs[..n]);
      ActingOfPrefix(amounts, logs[n - 1], log, 0, |logs[n - 1]|);
      CallsMatchPrefix(amounts, logs[n - 1], log, before);
    }
    StartsEmpty(amounts, adapter);
    NothingYet(amounts, log);
    assert !SyncOf(amounts, adapter, logs, n).threw;
    OneChainSyncs(log, before.checkpoint);
    var start := Progress(before, ZERO, false);
    LoopCallsMatch(amounts, adapter, log, before.checkpoint, |log|, start);
    var stop := LoopActs(amounts, adapter, log, before.checkpoint, |log|, start);
    ActingSplits(amounts, log, 0, before.checkpoint, |log|);
  }

  lemma NothingYet(amounts: AmountReader, log: seq<ChainEvent>)
    ensures CallsMatch(amounts, log, INITIAL) && Acting(amounts, log, 0, 0) == []
  {
  }

  /** A sync that does not throw counts every fresh event under exactly one heading. */
  lemma SyncAccounts(amounts: AmountReader, adapter: Adapter, s: State, log: seq<ChainEvent>)
    requires s.checkpoint <= |log| && !SyncStep(amounts, adapter, s, log).threw
    ensures var p := SyncStep(amounts, adapter, s, log);
      p.tally.Total() == p.state.checkpoint - s.checkpoint && p.state.checkpoint == |log|
  {
    hide RouteRange, Acting, Throwing, Acts, SingleChain;
    if s.checkpoint < |log| {
      var stop := LoopActs(amounts, adapter, log, s.checkpoint, |log|, Progress(s, ZERO, false));
    }
  }

  /** The counters of all syncs of a run, added up. */
  ghost function RunTotal(amounts: AmountReader, adapter: Adapter, logs: seq<seq<ChainEvent>>): nat {
    if logs == [] then 0
    else RunTotal(amounts, adapter, logs[..|logs| - 1]) + SyncOf(amounts, adapter, logs, |logs| - 1).tally.Total()
  }

  /** Over a run whose syncs do not throw, the counters add up to the checkpoint: every event is counted once. */
  lemma {:induction false} RunAccounts(amounts: AmountReader, adapter: Adapter, logs: seq<seq<ChainEvent>>)
    requires Satellite(logs) && Smooth(amounts, adapter, logs)
    ensures RunTotal(amounts, adapter, logs) == RunSyncs(amounts, adapter, logs).checkpoint
    ensures RunSyncs(amounts, adapter, logs).checkpoint == if logs == [] then 0 else |logs[|logs| - 1]|
    decreases |logs|
  {
    hide SyncStep, Satellite, OneChain;
    if logs != [] {
      var n := |logs| - 1;
      SatellitePrefix(logs, n);
      forall k | 0 <= k < n ensures !SyncOf(amounts, adapter, logs[..n], k).threw {
        Prefixes(amounts, adapter, logs, n, k);
      }
      RunAccounts(amounts, adapter, logs[..n]);
      assert !SyncOf(amounts, adapter, logs, n).threw;
      SyncAccounts(amounts, adapter, RunSyncs(amounts, adapter, logs[..n]), logs[n]);
    }
  }

  // ---- At most once, exactly when ----------------------------------------------------------------

  /** While no sync has been dirty, sources are distinct positions below the checkpoint. */
  lemma {:induction false} CleanRuns(amounts: AmountReader, adapter: Adapter, logs: seq<seq<ChainEvent>>)
    requires Satellite(logs) && forall k | 0 <= k < |logs| :: !Dirty(amounts, adapter, logs, k)
    ensures var s := RunSyncs(amounts, adapter, logs);
      && Distinct(s.sources)
      && (forall x | x in s.sources :: x < s.checkpoint)
      && (logs == [] ==> s.checkpoint == 0)
      && (logs != [] ==> s.checkpoint <= |logs[|logs| - 1]|)
    decreases |logs|
  {
    hide SyncStep, Satellite;
    if logs != [] {
      var n := |logs| - 1;
      SatellitePrefix(logs, n);
      forall k | 0 <= k < n ensures !Dirty(amounts, adapter, logs[..n], k) {
        Prefixes(amounts, adapter, logs, n, k);
      }
      CleanRuns(amounts, adapter, logs[..n]);
      assert !Dirty(amounts, adapter, logs, n);
      LastSyncDistinct(amounts, adapter, RunSyncs(amounts, adapter, logs[..n]), logs[n]);
    }
  }

  /** One more sync over distinct sources below the checkpoint keeps them distinct, thrown or not. */
  lemma LastSyncDistinct(amounts: AmountReader, adapter: Adapter, s: State, log: seq<ChainEvent>)
    requires Distinct(s.sources) && (forall x | x in s.sources :: x < s.checkpoint) && s.checkpoint <= |log|
    ensures var p := SyncStep(amounts, adapter, s, log);
      && Distinct(p.state.sources)
      && (!p.threw ==> p.state.checkpoint == |log| && forall x | x in p.state.sources :: x < |log|)
      && (p.threw ==> p.state.checkpoint == s.checkpoint)
  {
    hide RouteRange, Acting, Throwing, Acts, Distinct;
    if s.checkpoint < |log| {
      var stop := LoopActs(amounts, adapter, log, s.checkpoint, |log|, Progress(s, ZERO, false));
      var more := Acting(amounts, log, s.checkpoint, stop);
      ActingDistinct(amounts, log, s.checkpoint, stop);
      DistinctAppend(s.sources, more, s.checkpoint);
      BelowAppend(s.sources, more, |log|);
    }
  }

  lemma ActingDistinct(amounts: AmountReader, log: seq<ChainEvent>, lo: nat, hi: nat)
    requires lo <= hi <= |log|
    ensures Distinct(Acting(amounts, log, lo, hi))
  {
    ActingIsExact(amounts, log, lo, hi);
    hide Acting, Acts;
  }

  lemma BelowAppend(a: seq<nat>, b: seq<nat>, hi: nat)
    requires (forall x | x in a :: x < hi) && (forall y | y in b :: y < hi)
    ensures forall x | x in a + b :: x < hi
  {
  }

  lemma DistinctAppend(a: seq<nat>, b: seq<nat>, c: nat)
    requires Distinct(a) && Distinct(b)
    requires (forall x | x in a :: x < c) && (forall y | y in b :: c <= y)
    ensures Distinct(a + b)
  {
    forall i, j | 0 <= i < j < |a + b| ensures (a + b)[i] != (a + b)[j] {
      if i < |a| <= j {
        assert a[i] in a && b[j - |a|] in b;
      }
    }
  }

  /** After a dirty sync the next one repeats its first call. */
  lemma DirtyRepeats(amounts: AmountReader, adapter: Adapter, s: State, log: seq<ChainEvent>, longer: seq<ChainEvent>)
    requires s.checkpoint <= |log| && log <= longer && OneChain(longer)
    requires var p := SyncStep(amounts, adapter, s, log); p.threw && p.state.sources != s.sources
    ensures var p := SyncStep(amounts, adapter, s, log);
      !Distinct(SyncStep(amounts, adapter, p.state, longer).state.sources)
  {
    hide RouteRange, Acting, Acts, Throwing, OneChain, SingleChain, Distinct;
    var c := s.checkpoint;
    var p := SyncStep(amounts, adapter, s, log);
    var stop := LoopActs(amounts, adapter, log, c, |log|, Progress(s, ZERO, false));
    OneChainSyncs(longer, c);
    var q := SyncStep(amounts, adapter, p.state, longer);
    var again := LoopActs(amounts, adapter, longer, c, |longer|, Progress(p.state, ZERO, false));
    hide SyncStep;
    var once, more := Acting(amounts, log, c, stop), Acting(amounts, longer, c, again);
    FirstActing(amounts, log, c, stop);
    var first := once[0];
    assert forall i | c <= i <= first :: longer[i] == log[i];
    assert first < again;
    var j := PlaceOf(amounts, longer, c, again, first);
    assert q.state.sources == s.sources + once + more;
    Repeated(s.sources, once, more, j);
  }

  lemma PlaceOf(amounts: AmountReader, log: seq<ChainEvent>, lo: nat, hi: nat, x: nat) returns (j: nat)
    requires lo <= x < hi <= |log| && Acts(amounts, log[x])
    ensures j < |Acting(amounts, log, lo, hi)| && Acting(amounts, log, lo, hi)[j] == x
  {
    ActingIsExact(amounts, log, lo, hi);
    hide Acting, Acts;
    j :| 0 <= j < |Acting(amounts, log, lo, hi)| && Acting(amounts, log, lo, hi)[j] == x;
  }

  lemma Repeated(a: seq<nat>, once: seq<nat>, more: seq<nat>, j: nat)
    requires once != [] && j < |more| && more[j] == once[0]
    ensures !Distinct(a + once + more)
  {
    var s := a + once + more;
    assert s[|a|] == once[0] == s[|a| + |once| + j];
  }

  /** The first acting position is one that acts, and nothing acts before it. */
  lemma FirstActing(amounts: AmountReader, log: seq<ChainEvent>, lo: nat, hi: nat)
    requires lo <= hi <= |log| && Acting(amounts, log, lo, hi) != []
    ensures var first := Acting(amounts, log, lo, hi)[0];
      && lo <= first < hi && Acts(amounts, log[first])
      && forall i | lo <= i < first :: !Acts(amounts, log[i])
  {
    hide RouteOf;
    var s := Acting(amounts, log, lo, hi);
    ActingIsExact(amounts, log, lo, hi);
    assert s[0] in s;
    assert forall x | x in s :: s[0] <= x;
  }

  lemma SyncGrows(amounts: AmountReader, adapter: Adapter, s: State, log: seq<ChainEvent>)
    ensures s.sources <= SyncStep(amounts, adapter, s, log).state.sources
    ensures s.checkpoint <= |log| ==> SyncStep(amounts, adapter, s, log).state.checkpoint <= |log|
  {
    hide RouteRange, Acting, Throwing, Acts, SingleChain;
    if s.checkpoint < |log| {
      var stop := LoopActs(amounts, adapter, log, s.checkpoint, |log|, Progress(s, ZERO, false));
    }
  }

  /** Sources are only ever appended. */
  lemma {:induction false} SourcesGrow(amounts: AmountReader, adapter: Adapter, logs: seq<seq<ChainEvent>>, k: nat)
    requires k <= |logs|
    ensures RunSyncs(amounts, adapter, logs[..k]).sources <= RunSyncs(amounts, adapter, logs).sources
    decreases |logs|
  {
    hide SyncStep;
    if k == |logs| {
      assert logs[..k] == logs;
    } else {
      var n := |logs| - 1;
      SourcesGrow(amounts, adapter, logs[..n], k);
      assert logs[..n][..k] == logs[..k];
      SyncGrows(amounts, adapter, RunSyncs(amounts, adapter, logs[..n]), logs[n]);
    }
  }

  lemma {:induction false} CheckpointInLog(amounts: AmountReader, adapter: Adapter, logs: seq<seq<ChainEvent>>)
    requires AppendOnly(logs)
    ensures RunSyncs(amounts, adapter, logs).checkpoint <= (if logs == [] then 0 else |logs[|logs| - 1]|)
    decreases |logs|
  {
    hide SyncStep;
    if logs != [] {
      var n := |logs| - 1;
      CheckpointInLog(amounts, adapter, logs[..n]);
      assert n > 0 ==> logs[n - 1] <= logs[n];
      SyncGrows(amounts, adapter, RunSyncs(amounts, adapter, logs[..n]), logs[n]);
    }
  }

  /** The Casper calls that the events at positions lo..hi lead to. */
  ghost function CallsOf(amounts: AmountReader, log: seq<ChainEvent>, lo: nat, hi: nat): seq<CasperCall>
    requires lo <= hi <= |log|
    decreases hi
  {
    if lo == hi then []
    else CallsOf(amounts, log, lo, hi - 1) +
         if Acts(amounts, log[hi - 1]) then [RouteOf(amounts, log[hi - 1].kind, log[hi - 1].data).call] else []
  }

  /** The event at t makes a sync throw: it is malformed, or Casper throws at the call it leads to. */
  ghost predicate Stops(amounts: AmountReader, adapter: Adapter, calls: seq<CasperCall>, log: seq<ChainEvent>, lo: nat,
                        t: nat)
    requires lo <= t < |log|
  {
    Throwing(amounts, log[t]) ||
    (Acts(amounts, log[t]) && adapter(calls + CallsOf(amounts, log, lo, t + 1)) == Throws)
  }

  ghost predicate FirstStop(amounts: AmountReader, adapter: Adapter, calls: seq<CasperCall>, log: seq<ChainEvent>,
                            lo: nat, t: int) {
    lo <= t < |log| && Stops(amounts, adapter, calls, log, lo, t) &&
    forall u | lo <= u < t :: !Stops(amounts, adapter, calls, log, lo, u)
  }

  /**
   * In terms of the log and the replies: the first fresh event that makes the sync throw has an acting event
   * before it among the fresh ones, or acts itself.
   */
  ghost predicate Breaks(amounts: AmountReader, adapter: Adapter, s: State, log: seq<ChainEvent>) {
    exists t :: FirstStop(amounts, adapter, s.calls, log, s.checkpoint, t) &&
      exists i | s.checkpoint <= i <= t :: Acts(amounts, log[i])
  }

  /** The loop stops at the first event that makes it throw, having made the calls of the events before. */
  lemma {:induction false} LoopStops(amounts: AmountReader, adapter: Adapter, log: seq<ChainEvent>, lo: nat, hi: nat,
                                     s: State)
    requires lo <= hi <= |log|
    ensures var q := RouteRange(amounts, adapter, log, lo, hi, Progress(s, ZERO, false));
      && (!q.threw ==>
            && q.state.calls == s.calls + CallsOf(amounts, log, lo, hi)
            && q.state.sources == s.sources + Acting(amounts, log, lo, hi)
            && forall t | lo <= t < hi :: !Stops(amounts, adapter, s.calls, log, lo, t))
      && (q.threw ==>
            exists t ::
              && t < hi && FirstStop(amounts, adapter, s.calls, log, lo, t)
              && q.state.sources == s.sources + Acting(amounts, log, lo, t + 1))
    decreases hi
  {
    hide RouteOf;
    if lo < hi {
      LoopStops(amounts, adapter, log, lo, hi - 1, s);
      var q := RouteRange(amounts, adapter, log, lo, hi - 1, Progress(s, ZERO, false));
      if !q.threw {
        var e := log[hi - 1];
        EventStops(amounts, adapter, e, hi - 1, q);
        if Acts(amounts, e) {
          assert s.calls + CallsOf(amounts, log, lo, hi) ==
            q.state.calls + [RouteOf(amounts, e.kind, e.data).call];
        }
        hide Throwing, Acts, RouteEvent;
        assert Stops(amounts, adapter, s.calls, log, lo, hi - 1) ==>
          FirstStop(amounts, adapter, s.calls, log, lo, hi - 1);
      }
    }
  }

  lemma EventStops(amounts: AmountReader, adapter: Adapter, e: ChainEvent, at: nat, p: Progress)
    requires !p.threw
    ensures var q := RouteEvent(amounts, adapter, e.kind, e.data, at, p);
      var more := if Acts(amounts, e) then [RouteOf(amounts, e.kind, e.data).call] else [];
      && q.state.calls == p.state.calls + more
      && q.state.sources == p.state.sources + (if Acts(amounts, e) then [at] else [])
      && (q.threw <==> Throwing(amounts, e) || (Acts(amounts, e) && adapter(p.state.calls + more) == Throws))
  {
    hide RouteOf;
  }

  /** What a sync that throws after a call looks like from outside. */
  lemma BreaksIsDirty(amounts: AmountReader, adapter: Adapter, logs: seq<seq<ChainEvent>>, k: nat)
    requires Satellite(logs) && k < |logs|
    ensures Dirty(amounts, adapter, logs, k) <==>
      Breaks(amounts, adapter, RunSyncs(amounts, adapter, logs[..k]), logs[k])
  {
    hide RouteRange, RunSyncs, SingleChain, OneChain, Stops, Acting;
    SatellitePrefix(logs, k);
    var s, log := RunSyncs(amounts, adapter, logs[..k]), logs[k];
    if s.checkpoint < |log| {
      OneChainSyncs(log, s.checkpoint);
      LoopStops(amounts, adapter, log, s.checkpoint, |log|, s);
      forall t | FirstStop(amounts, adapter, s.calls, log, s.checkpoint, t)
        ensures Acting(amounts, log, s.checkpoint, t + 1) != [] <==>
          exists i | s.checkpoint <= i <= t :: Acts(amounts, log[i])
      {
        SomeActing(amounts, log, s.checkpoint, t + 1);
      }
    }
  }

  lemma SomeActing(amounts: AmountReader, log: seq<ChainEvent>, lo: nat, hi: nat)
    requires lo <= hi <= |log|
    ensures Acting(amounts, log, lo, hi) != [] <==> exists i | lo <= i < hi :: Acts(amounts, log[i])
  {
    ActingIsExact(amounts, log, lo, hi);
    hide Acting, Acts;
    var s := Acting(amounts, log, lo, hi);
    assert s != [] ==> s[0] in s;
  }

  /**
   * No event leads to two Casper calls in a run if and only if no sync but the last breaks after a call.
   */
  lemma AtMostOnceExactly(amounts: AmountReader, adapter: Adapter, logs: seq<seq<ChainEvent>>)
    requires Satellite(logs)
    ensures Distinct(RunSyncs(amounts, adapter, logs).sources) <==>
      forall k | 0 <= k < |logs| - 1 :: !Breaks(amounts, adapter, RunSyncs(amounts, adapter, logs[..k]), logs[k])
  {
    hide Distinct, Dirty, RunSyncs, Satellite, Breaks;
    forall k | 0 <= k < |logs| - 1
      ensures Dirty(amounts, adapter, logs, k) <==>
        Breaks(amounts, adapter, RunSyncs(amounts, adapter, logs[..k]), logs[k])
    {
      BreaksIsDirty(amounts, adapter, logs, k);
    }
    if forall k | 0 <= k < |logs| - 1 :: !Dirty(amounts, adapter, logs, k) {
      CleanUntilLast(amounts, adapter, logs);
    } else {
      var k :| 0 <= k < |logs| - 1 && Dirty(amounts, adapter, logs, k);
      DirtyShows(amounts, adapter, logs, k);
    }
  }

  lemma CleanUntilLast(amounts: AmountReader, adapter: Adapter, logs: seq<seq<ChainEvent>>)
    requires Satellite(logs) && forall k | 0 <= k < |logs| - 1 :: !Dirty(amounts, adapter, logs, k)
    ensures Distinct(RunSyncs(amounts, adapter, logs).sources)
  {
    hide SyncStep, Satellite, Dirty;
    if logs != [] {
      var n := |logs| - 1;
      SatellitePrefix(logs, n);
      forall k | 0 <= k < n ensures !Dirty(amounts, adapter, logs[..n], k) {
        Prefixes(amounts, adapter, logs, n, k);
      }
      CleanRuns(amounts, adapter, logs[..n]);
      LastSyncDistinct(amounts, adapter, RunSyncs(amounts, adapter, logs[..n]), logs[n]);
    }
  }

  lemma DirtyShows(amounts: AmountReader, adapter: Adapter, logs: seq<seq<ChainEvent>>, k: nat)
    requires Satellite(logs) && k < |logs| - 1 && Dirty(amounts, adapter, logs, k)
    ensures !Distinct(RunSyncs(amounts, adapter, logs).sources)
  {
    hide SyncStep, RouteOf, OneChain, RunSyncs;
    Prefixes(amounts, adapter, logs, |logs|, k);
    Prefixes(amounts, adapter, logs, |logs|, k + 1);
    CheckpointInLog(amounts, adapter, logs[..k]);
    SourcesGrow(amounts, adapter, logs, k + 2);
    StartsEmpty(amounts, adapter);
    DirtyRepeats(amounts, adapter, RunSyncs(amounts, adapter, logs[..k]), logs[k], logs[k + 1]);
  }

  lemma StartsEmpty(amounts: AmountReader, adapter: Adapter)
    ensures RunSyncs(amounts, adapter, []) == INITIAL
  {
  }

  // ---- What a repeated call does -------------------------------------------------------------------

  /** Thrown or not, the calls of a run are those of its sources. */
  lemma {:induction false} RunCallsMatch(amounts: AmountReader, adapter: Adapter, logs: seq<seq<ChainEvent>>)
    requires Satellite(logs) && logs != []
    ensures CallsMatch(amounts, logs[|logs| - 1], RunSyncs(amounts, adapter, logs))
    decreases |logs|
  {
    hide RouteRange, AllAct, CallsAt, Acting, Satellite, OneChain, SingleChain;
    var n := |logs| - 1;
    SatellitePrefix(logs, n);
    var before, log := RunSyncs(amounts, adapter, logs[..n]), logs[n];
    if n > 0 {
      RunCallsMatch(amounts, adapter, logs[..n]);
      CallsMatchPrefix(amounts, logs[n - 1], log, before);
    }
    StartsEmpty(amounts, adapter);
    NothingYet(amounts, log);
    if before.checkpoint <= |log| {
      LoopCallsMatch(amounts, adapter, log, before.checkpoint, |log|, Progress(before, ZERO, false));
    }
  }

  /** Casper accepts a receipt or a draw once: the registry knows its id, the note is consumed. */
  ghost predicate RefusesRepeats(adapter: Adapter) {
    forall calls: seq<CasperCall>, i | 0 <= i < |calls| - 1 && calls[i] == calls[|calls| - 1] &&
      !calls[i].RepayCredit? && adapter(calls[..i + 1]) == Ok :: adapter(calls) != Ok
  }

  /**
   * In every run, retried or not, an event takes effect on Casper twice only if it is a repayment: of two calls
   * that one receipt or one draw led to, at most one succeeds.
   */
  lemma OnlyRepaymentsRepeat(amounts: AmountReader, adapter: Adapter, logs: seq<seq<ChainEvent>>)
    requires Satellite(logs) && RefusesRepeats(adapter)
    ensures var s := RunSyncs(amounts, adapter, logs);
      && |s.sources| == |s.calls|
      && forall i, j | 0 <= i < j < |s.calls| && s.sources[i] == s.sources[j] &&
           adapter(s.calls[..i + 1]) == Ok && adapter(s.calls[..j + 1]) == Ok ::
           s.calls[i] == s.calls[j] && s.calls[i].RepayCredit?
  {
    var s := RunSyncs(amounts, adapter, logs);
    if logs == [] {
      StartsEmpty(amounts, adapter);
    } else {
      RunCallsMatch(amounts, adapter, logs);
    }
    hide RunSyncs, Satellite, RouteOf;
    forall i, j | 0 <= i < j < |s.calls| && s.sources[i] == s.sources[j] &&
      adapter(s.calls[..i + 1]) == Ok && adapter(s.calls[..j + 1]) == Ok
      ensures s.calls[i] == s.calls[j] && s.calls[i].RepayCredit?
    {
      assert s.calls[..j + 1][..i + 1] == s.calls[..i + 1];
    }
  }

  /** An agent's outstanding exposure after some calls: each repayment lowers it, never below zero. */
  ghost function Outstanding(amounts: AmountReader, calls: seq<CasperCall>, agentId: Option<Json>, start: nat): int {
    if calls == [] then start
    else
      var before := Outstanding(amounts, calls[..|calls| - 1], agentId, start);
      match calls[|calls| - 1]
      case RepayCredit(agent, repaid) =>
        if agent != agentId || amounts(repaid) == None then before
        else if amounts(repaid).value > before then 0 else before - amounts(repaid).value
      case SubmitReceipt(_) => before
      case ConfirmDraw(_, _) => before
  }

  /**
   * A repayment followed by a draw whose amount is no integer: retrying the sync repays again. The second
   * repayment lowers the exposure further exactly when it is not zero and less than what was owed.
   */
  lemma RetryRepaysTwice(amounts: AmountReader, adapter: Adapter, log: seq<ChainEvent>, agent: Json, paid: Json,
                         amount: Json, owed: nat)
    requires log == [ChainEvent("base", "CreditRepaid", map["agent_id" := agent, "amount" := paid]),
                     ChainEvent("base", "CreditDrawn", map["amount" := amount])]
    requires agent != Null && paid != Null && amounts(Some(paid)).Some?
    requires amount != Null && amounts(Some(amount)) == None
    requires adapter([RepayCredit(Some(agent), Some(paid))]) != Throws
    ensures var repay := RepayCredit(Some(agent), Some(paid));
      var n := amounts(Some(paid)).value;
      && RunSyncs(amounts, adapter, [log, log]) == State(0, [repay, repay], [0, 0])
      && (Outstanding(amounts, [repay, repay], Some(agent), owed) !=
            Outstanding(amounts, [repay], Some(agent), owed) <==>
          n != 0 && n < owed)
  {
    var repay := RepayCredit(Some(agent), Some(paid));
    RepeatedRepayment(amounts, Some(agent), Some(paid), owed);
    hide Outstanding, RunSyncs, SyncStep;
    assert [log, log][..1] == [log] && [log][..0] == [];
    StartsEmpty(amounts, adapter);
    RunLast(amounts, adapter, [], log);
    RunLast(amounts, adapter, [log], log);
    assert [] + [log] == [log] && [log] + [log] == [log, log];
    RepayThenThrow(amounts, adapter, log, agent, paid, amount, INITIAL);
    assert [] + [repay] == [repay] && [] + [0] == [0];
    RepayThenThrow(amounts, adapter, log, agent, paid, amount, RunSyncs(amounts, adapter, [log]));
  }

  lemma RunLast(amounts: AmountReader, adapter: Adapter, logs: seq<seq<ChainEvent>>, log: seq<ChainEvent>)
    ensures RunSyncs(amounts, adapter, logs + [log]) ==
      SyncStep(amounts, adapter, RunSyncs(amounts, adapter, logs), log).state
  {
    hide SyncStep;
    assert (logs + [log])[..|logs|] == logs;
  }

  lemma RepeatedRepayment(amounts: AmountReader, agentId: Option<Json>, repaid: Option<Json>, owed: nat)
    requires amounts(repaid).Some?
    ensures var repay, n := RepayCredit(agentId, repaid), amounts(repaid).value;
      Outstanding(amounts, [repay, repay], agentId, owed) != Outstanding(amounts, [repay], agentId, owed) <==>
      n != 0 && n < owed
  {
    var repay := RepayCredit(agentId, repaid);
    assert [repay, repay][..1] == [repay] && [repay][..0] == [];
  }

  lemma RepayThenThrow(amounts: AmountReader, adapter: Adapter, log: seq<ChainEvent>, agent: Json, paid: Json,
                       amount: Json, s: State)
    requires log == [ChainEvent("base", "CreditRepaid", map["agent_id" := agent, "amount" := paid]),
                     ChainEvent("base", "CreditDrawn", map["amount" := amount])]
    requires agent != Null && paid != Null
    requires amount != Null && amounts(Some(amount)) == None && s.checkpoint == 0
    ensures SyncStep(amounts, adapter, s, log).state ==
            State(0, s.calls + [RepayCredit(Some(agent), Some(paid))], s.sources + [0])
  {
    OneChainSyncs(log, 0);
    var start := Progress(s, ZERO, false);
    assert RouteRange(amounts, adapter, log, 0, 0, start) == start;
    assert RouteOf(amounts, log[0].kind, log[0].data) == Call(RepayCredit(Some(agent), Some(paid)));
    assert RouteOf(amounts, log[1].kind, log[1].data) == Malformed;
    var once := RouteRange(amounts, adapter, log, 0, 1, start);
    assert once.state == State(0, s.calls + [RepayCredit(Some(agent), Some(paid))], s.sources + [0]);
    assert RouteRange(amounts, adapter, log, 0, 2, start).threw;
    assert RouteRange(amounts, adapter, log, 0, 2, start).state == once.state;
  }
}
