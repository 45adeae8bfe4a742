/**
 * The readiness check of `waitForTorBootstrap` in `src/torManager.js`: a starting Tor process
 * is ready once its output shows the bootstrap-complete marker, and has failed when it exits
 * or outlives its deadline first.
 */
module TorBootstrap {
  import opened JsText

  const BOOTSTRAP_MARKER: string := "Bootstrapped 100%"

  /** What a starting Tor process can do: write a chunk of output, exit, or outlive its deadline. */
  datatype ProcessEvent = Output(text: string) | Exited | DeadlinePassed

  datatype BootstrapOutcome = Bootstrapped | BootstrapFailed | StillStarting

  /** No exit or deadline among the first `k` events. */
  predicate OnlyOutputBefore(events: seq<ProcessEvent>, k: int)
    requires 0 <= k <= |events|
  {
    forall j :: 0 <= j < k ==> events[j].Output?
  }

  /**
   * `waitForTorBootstrap` as written: the promise settles at the first decisive event, and a
   * chunk is decisive when that chunk on its own includes the marker.
   */
  function WaitForTorBootstrap(events: seq<ProcessEvent>): BootstrapOutcome {
    if events == [] then StillStarting
    else match events[0]
      case Output(text) =>
        if Includes(text, BOOTSTRAP_MARKER) then Bootstrapped else WaitForTorBootstrap(events[1..])
      case Exited => BootstrapFailed
      case DeadlinePassed => BootstrapFailed
  }

  /**
   * Bootstrap succeeds exactly when some chunk holding the whole marker arrives before the
   * process exits or the deadline passes.
   */
  lemma {:induction false} WaitForTorBootstrapReady(events: seq<ProcessEvent>)
    ensures WaitForTorBootstrap(events) == Bootstrapped <==>
      exists k :: 0 <= k < |events| && OnlyOutputBefore(events, k) && events[k].Output?
                  && Includes(events[k].text, BOOTSTRAP_MARKER)
  {
    if events != [] {
      WaitForTorBootstrapReady(events[1..]);
      if WaitForTorBootstrap(events) == Bootstrapped && !(events[0].Output? && Includes(events[0].text, BOOTSTRAP_MARKER)) {
        var k :| 0 <= k < |events[1..]| && OnlyOutputBefore(events[1..], k) && events[1..][k].Output?
                  && Includes(events[1..][k].text, BOOTSTRAP_MARKER);
        assert OnlyOutputBefore(events, k + 1) by {
          forall j | 0 <= j < k + 1 ensures events[j].Output? {
            if j > 0 { assert events[j] == events[1..][j - 1]; }
          }
        }
      }
      if exists k :: 0 <= k < |events| && OnlyOutputBefore(events, k) && events[k].Output?
                     && Includes(events[k].text, BOOTSTRAP_MARKER) {
        var k :| 0 <= k < |events| && OnlyOutputBefore(events, k) && events[k].Output?
                  && Includes(events[k].text, BOOTSTRAP_MARKER);
        if k > 0 {
          assert events[0].Output?;
          assert OnlyOutputBefore(events[1..], k - 1) by {
            forall j | 0 <= j < k - 1 ensures events[1..][j].Output? {
              assert events[1..][j] == events[j + 1];
            }
          }
          assert events[1..][k - 1] == events[k];
        }
      }
    }
  }

  /** No chunk among the first `k` events holds the whole marker. */
  predicate NoMarkerBefore(events: seq<ProcessEvent>, k: int)
    requires 0 <= k <= |events|
  {
    forall j :: 0 <= j < k ==> events[j].Output? ==> !Includes(events[j].text, BOOTSTRAP_MARKER)
  }

  /**
   * Bootstrap fails exactly when the process exits or the deadline passes before any chunk
   * holding the whole marker has arrived.
   */
  lemma {:induction false} WaitForTorBootstrapFails(events: seq<ProcessEvent>)
    ensures WaitForTorBootstrap(events) == BootstrapFailed <==>
      exists k :: 0 <= k < |events| && OnlyOutputBefore(events, k) && NoMarkerBefore(events, k)
                  && !events[k].Output?
  {
    if events != [] {
      var tl := events[1..];
      WaitForTorBootstrapFails(tl);
      if WaitForTorBootstrap(events) == BootstrapFailed && events[0].Output? {
        var k :| 0 <= k < |tl| && OnlyOutputBefore(tl, k) && NoMarkerBefore(tl, k) && !tl[k].Output?;
        forall j | 1 <= j < k + 1 ensures events[j] == tl[j - 1] {
        }
        assert OnlyOutputBefore(events, k + 1);
        assert NoMarkerBefore(events, k + 1);
        assert !events[k + 1].Output?;
      }
      if exists k :: 0 <= k < |events| && OnlyOutputBefore(events, k) && NoMarkerBefore(events, k)
                     && !events[k].Output? {
        var k :| 0 <= k < |events| && OnlyOutputBefore(events, k) && NoMarkerBefore(events, k)
                  && !events[k].Output?;
        if k > 0 {
          forall j | 0 <= j < k - 1 ensures tl[j] == events[j + 1] {
          }
          assert OnlyOutputBefore(tl, k - 1);
          assert NoMarkerBefore(tl, k - 1);
          assert tl[k - 1] == events[k];
        }
      }
    }
  }

  /**
   * The marker is missed when Tor's output reaches the proxy split inside the marker: the
   * stream holds "Bootstrapped 100%", no single chunk does, so the creation times out.
   */
  lemma MarkerSplitAcrossChunksIsMissed()
    ensures Includes("Bootstrapped 10" + "0% (done)", BOOTSTRAP_MARKER)
    ensures WaitForTorBootstrap([Output("Bootstrapped 10"), Output("0% (done)"), DeadlinePassed]) == BootstrapFailed
  {
    assert OccursAt("Bootstrapped 10" + "0% (done)", BOOTSTRAP_MARKER, 0);
    var events := [Output("Bootstrapped 10"), Output("0% (done)"), DeadlinePassed];
    assert events[1..] == [Output("0% (done)"), DeadlinePassed];
    assert events[1..][1..] == [DeadlinePassed];
  }

  /** The last `n` characters of `s` (all of `s` when it is shorter). */
  function Tail(s: string, n: nat): (r: string)
    ensures |r| <= n && |r| <= |s| && r == s[|s| - |r|..]
    ensures |s| >= n ==> |r| == n
  {
    if |s| <= n then s else s[|s| - n..]
  }

  /**
   * The corrected scan: each chunk is searched together with the last |marker| - 1
   * characters seen before it, so a marker split across chunks is still found.
   */
  function WaitForTorBootstrapCarrying(events: seq<ProcessEvent>, carry: string): BootstrapOutcome {
    if events == [] then StillStarting
    else match events[0]
      case Output(text) =>
        var window := carry + text;
        if Includes(window, BOOTSTRAP_MARKER) then Bootstrapped
        else WaitForTorBootstrapCarrying(events[1..], Tail(window, |BOOTSTRAP_MARKER| - 1))
      case Exited => BootstrapFailed
      case DeadlinePassed => BootstrapFailed
  }

  /**
   * The reference behaviour: bootstrap succeeds at the first chunk after which everything
   * the process has written so far (`seen` and the chunk) includes the marker.
   */
  function WaitForMarkerInStream(events: seq<ProcessEvent>, seen: string): BootstrapOutcome {
    if events == [] then StillStarting
    else match events[0]
      case Output(text) =>
        if Includes(seen + text, BOOTSTRAP_MARKER) then Bootstrapped
        else WaitForMarkerInStream(events[1..], seen + text)
      case Exited => BootstrapFailed
      case DeadlinePassed => BootstrapFailed
  }

  /** An occurrence at or after `off` is an occurrence in the suffix `s[off..]`, and back. */
  lemma OccursAtSuffix(s: string, m: string, off: nat, i: int)
    requires off <= i && off <= |s|
    ensures OccursAt(s, m, i) <==> OccursAt(s[off..], m, i - off)
  {
    if OccursAt(s, m, i) {
      assert s[off..][i - off..i - off + |m|] == s[i..i + |m|];
    }
    if OccursAt(s[off..], m, i - off) {
      assert s[off..][i - off..i - off + |m|] == s[i..i + |m|];
    }
  }

  /**
   * When `seen` does not include `m`, `seen + t` includes `m` exactly when the last
   * |m| - 1 characters of `seen` followed by `t` do.
   */
  lemma {:induction false} WindowSuffices(seen: string, t: string, m: string)
    requires m != [] && !Includes(seen, m)
    ensures Includes(seen + t, m) <==> Includes(Tail(seen, |m| - 1) + t, m)
  {
    var tail := Tail(seen, |m| - 1);
    var off := |seen| - |tail|;
    assert (seen + t)[off..] == tail + t;
    if Includes(seen + t, m) {
      var i :| 0 <= i <= |seen + t| - |m| && OccursAt(seen + t, m, i);
      if i < off {
        assert i + |m| <= |seen|;
        assert (seen + t)[i..i + |m|] == seen[i..i + |m|];
        assert OccursAt(seen, m, i);
        assert false;
      }
      OccursAtSuffix(seen + t, m, off, i);
    }
    if Includes(tail + t, m) {
      var i :| 0 <= i <= |tail + t| - |m| && OccursAt(tail + t, m, i);
      OccursAtSuffix(seen + t, m, off, i + off);
    }
  }

  lemma TailOfTail(seen: string, t: string, n: nat)
    ensures Tail(Tail(seen, n) + t, n) == Tail(seen + t, n)
  {
    var tail := Tail(seen, n);
    var off := |seen| - |tail|;
    assert (seen + t)[off..] == tail + t;
  }

  /**
   * The corrected scan, carrying the last |marker| - 1 characters, decides exactly as a scan
   * of the whole output stream would.
   */
  lemma {:induction false} CarryingMatchesStream(events: seq<ProcessEvent>, seen: string)
    requires !Includes(seen, BOOTSTRAP_MARKER)
    ensures WaitForTorBootstrapCarrying(events, Tail(seen, |BOOTSTRAP_MARKER| - 1))
            == WaitForMarkerInStream(events, seen)
  {
    if events != [] && events[0].Output? {
      var t := events[0].text;
      var n := |BOOTSTRAP_MARKER| - 1;
      WindowSuffices(seen, t, BOOTSTRAP_MARKER);
      if !Includes(seen + t, BOOTSTRAP_MARKER) {
        TailOfTail(seen, t, n);
        CarryingMatchesStream(events[1..], seen + t);
      }
    }
  }

  /** Scanning from the start of the stream, the corrected scan finds every marker the stream holds. */
  lemma CarryingFromStart(events: seq<ProcessEvent>)
    ensures WaitForTorBootstrapCarrying(events, "") == WaitForMarkerInStream(events, "")
    ensures WaitForTorBootstrap(events) == Bootstrapped ==> WaitForTorBootstrapCarrying(events, "") == Bootstrapped
  {
    CarryingMatchesStream(events, "");
    PerChunkImpliesStream(events, "");
  }

  /** A marker within one chunk is a marker in the stream: the as-written scan only ever misses. */
  lemma {:induction false} PerChunkImpliesStream(events: seq<ProcessEvent>, seen: string)
    ensures WaitForTorBootstrap(events) == Bootstrapped ==> WaitForMarkerInStream(events, seen) == Bootstrapped
  {
    if events != [] && events[0].Output? {
      var t := events[0].text;
      if Includes(t, BOOTSTRAP_MARKER) {
        var i :| 0 <= i <= |t| - |BOOTSTRAP_MARKER| && OccursAt(t, BOOTSTRAP_MARKER, i);
        OccursAtSuffix(seen + t, BOOTSTRAP_MARKER, |seen|, i + |seen|);
        assert (seen + t)[|seen|..] == t;
      } else {
        PerChunkImpliesStream(events[1..], seen + t);
      }
    }
  }

  /** The stream of `MarkerSplitAcrossChunksIsMissed` bootstraps under the corrected scan. */
  lemma SplitMarkerFoundByCarrying()
    ensures WaitForTorBootstrapCarrying([Output("Bootstrapped 10"), Output("0% (done)"), DeadlinePassed], "") == Bootstrapped
  {
    var events := [Output("Bootstrapped 10"), Output("0% (done)"), DeadlinePassed];
    CarryingMatchesStream(events, "");
    assert "" + "Bootstrapped 10" == "Bootstrapped 10";
    assert events[1..] == [Output("0% (done)"), DeadlinePassed];
    assert OccursAt("Bootstrapped 10" + "0% (done)", BOOTSTRAP_MARKER, 0);
  }
}
