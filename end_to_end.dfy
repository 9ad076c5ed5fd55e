/**
 * The server and the client together: the steps the instrumented search
 * queues (app.py), handed out by /solving-progress polls, replayed by the
 * page's poll loop (static/js/script.js).
 */
module EndToEnd {
  import opened Protocol
  import opened ClientReplay
  import opened ClientPage
  import opened ServerSessions
  import opened ServerSearch

  /**
   * Polling an id the table does not hold changes nothing on the server, and
   * the client's tick stops its loop with "Session not found" without
   * replaying anything or showing a result.
   */
  lemma UnknownSessionStops(pg: Page, t: Table, id: string)
    requires id !in t && !pg.stopped && pg.pollCount < MaxPolls
    ensures var (t', reply) := Poll(t, id);
      var n := TickSpec(pg, Received(ClientView(reply)));
      && t' == t
      && n.stopped && n.errorText == Some(SessionNotFoundError) && !n.loading
      && n.panel == pg.panel && n.display.None?
  {
    ErrorNeverDelivers(pg, ClientView(Poll(t, id).1));
  }

  /**
   * The numbered trace of a search from the empty assignment is one the
   * client replays without throwing: every step can be logged, no
   * reject_word step carries a grid, and the step types are the trace's.
   */
  lemma TraceReplaysCleanly(p: Problem)
    requires WellFormed(p)
    ensures var trace := Search(p, map[]).trace;
      var steps := Numbered(trace, 1);
      && AllLoggable(steps)
      && (forall k :: 0 <= k < |steps| && steps[k].stepType == RejectWord ==> steps[k].data.grid.None?)
      && Types(steps) == Kinds(trace)
  {
    SearchShaped(p, map[]);
  }

  /**
   * Replaying the whole numbered trace from zeroed counters throws nothing,
   * and each counter ends at the count of its step type in the trace.
   */
  lemma ReplayCounters(panel: Panel, p: Problem)
    requires WellFormed(p)
    requires |panel.log| <= MaxLogEntries && panel.stats == ZeroStats
    ensures var trace := Search(p, map[]).trace;
      var rp := Replay(panel, Numbered(trace, 1));
      && !rp.failed
      && rp.panel.stats == Stats(Count(trace, TryWord), Count(trace, Backtrack), Count(trace, PlaceWord))
  {
    var steps := Numbered(Search(p, map[]).trace, 1);
    TraceReplaysCleanly(p);
    ReplayEffect(panel, steps);
    assert steps[..Counted(steps)] == steps;
    FoldStatsCounts(ZeroStats, Types(steps));
  }

  /**
   * After that replay every try was placed or rejected, a failed search
   * undid every placement, a successful one kept one placement per
   * variable, and no cell is marked as an error.
   */
  lemma ReplayMatchesSearch(panel: Panel, p: Problem)
    requires WellFormed(p)
    requires |panel.log| <= MaxLogEntries && panel.stats == ZeroStats && NoErrorMarks(panel.visGrid)
    ensures var o := Search(p, map[]);
      var s := Replay(panel, Numbered(o.trace, 1)).panel.stats;
      && s.attempts == s.placements + Count(o.trace, RejectWord)
      && (o.result.None? ==> s.placements == s.backtracks)
      && (o.result.Some? ==> s.placements == s.backtracks + |p.domains|)
      && NoErrorMarks(Replay(panel, Numbered(o.trace, 1)).panel.visGrid)
  {
    ReplayCounters(panel, p);
    SearchCounts(p, map[]);
    TraceReplaysCleanly(p);
    ErrorMarksNeedRejectGrid(panel, Numbered(Search(p, map[]).trace, 1));
  }

  /**
   * The polls run against the session while the search queues its steps:
   * when the session's queue starts and ends empty, the polls handed out
   * exactly the queued trace, in order.
   */
  lemma HandedOutIsTrace(t: Table, id: string, evs: seq<Event>, p: Problem)
    requires WellFormed(p) && id in t && t[id].steps == []
    requires QueuedSteps(evs) == Numbered(Search(p, map[]).trace, 1)
    requires var t' := RunEvents(t, id, evs).0; id in t' && t'[id].steps == []
    ensures RunEvents(t, id, evs).1 == Numbered(Search(p, map[]).trace, 1)
  {
    NoStepLostOrRepeated(t, id, evs);
    var (t', out) := RunEvents(t, id, evs);
    assert out + [] == out;
  }

  // ------------------------------------------------------------------
  // The client's counters over a whole poll loop
  // ------------------------------------------------------------------

  /** The steps the fetched responses carry, in order. */
  function Delivered(fs: seq<Fetched>): seq<Step>
    decreases |fs|
  {
    if fs == [] then []
    else (if fs[0].Received? then fs[0].response.steps else []) + Delivered(fs[1..])
  }

  /** Responses without error, only the last of which may say complete. */
  predicate Ordinary(fs: seq<Fetched>)
  {
    forall k :: 0 <= k < |fs| ==>
      && fs[k].Received? && !Truthy(fs[k].response.error)
      && (fs[k].response.complete ==> k == |fs| - 1)
  }

  lemma LoggableSplit(a: seq<Step>, b: seq<Step>)
    requires AllLoggable(a + b)
    ensures AllLoggable(a) && AllLoggable(b)
  {
    forall k | 0 <= k < |a| ensures Loggable(a[k]) { assert a[k] == (a + b)[k]; }
    forall k | 0 <= k < |b| ensures Loggable(b[k]) { assert b[k] == (a + b)[|a| + k]; }
  }

  /**
   * Within the poll ceiling, a run of ordinary responses whose steps can all
   * be logged moves the counters by every step delivered, whatever way the
   * server split them into batches.
   */
  lemma {:induction false} RunCountsDelivered(pg: Page, fs: seq<Fetched>)
    requires PollInvariant(pg) && !pg.stopped && pg.pollCount + |fs| <= MaxPolls
    requires Ordinary(fs) && AllLoggable(Delivered(fs))
    ensures RunCounted(pg, fs) == Delivered(fs)
    decreases |fs|
  {
    if fs != [] {
      var r := fs[0].response;
      LoggableSplit(r.steps, Delivered(fs[1..]));
      LoggedPrefix(r.steps);
      assert r.steps[..|r.steps|] == r.steps;
      var n := TickSpec(pg, fs[0]);
      if |fs| > 1 {
        assert !r.complete;
        IncompleteKeepsPolling(pg, r);
        TickKeepsInvariant(pg, fs[0]);
        assert Ordinary(fs[1..]) by {
          forall k | 0 <= k < |fs[1..]|
            ensures fs[1..][k].Received? && !Truthy(fs[1..][k].response.error)
            ensures fs[1..][k].response.complete ==> k == |fs[1..]| - 1
          {
            assert fs[1..][k] == fs[k + 1];
          }
        }
        RunCountsDelivered(n, fs[1..]);
      }
    }
  }

  /**
   * After a generation starts, polls that deliver the search's numbered
   * trace in any batching leave each counter at the count of its step type
   * in the trace, with tries equal to placements plus rejections, and with
   * placements equal to backtracks (no solution) or to backtracks plus the
   * number of variables (solved).
   */
  lemma ClientCountsSearch(pg: Page, reply: GenerateReply, p: Problem, fs: seq<Fetched>)
    requires reply.Started? && WellFormed(p)
    requires |fs| <= MaxPolls && Ordinary(fs)
    requires Delivered(fs) == Numbered(Search(p, map[]).trace, 1)
    ensures var o := Search(p, map[]);
      var s := RunTicks(GenerateSpec(pg, reply), fs).panel.stats;
      && s == Stats(Count(o.trace, TryWord), Count(o.trace, Backtrack), Count(o.trace, PlaceWord))
      && s.attempts == s.placements + Count(o.trace, RejectWord)
      && (o.result.None? ==> s.placements == s.backtracks)
      && (o.result.Some? ==> s.placements == s.backtracks + |p.domains|)
  {
    var g := GenerateSpec(pg, reply);
    GenerateStartsPolling(pg, reply);
    TraceReplaysCleanly(p);
    RunCountsDelivered(g, fs);
    SessionCountersAreCounts(pg, reply, fs);
    SearchCounts(p, map[]);
  }
}
