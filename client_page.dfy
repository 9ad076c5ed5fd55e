/**
 * The browser client's page state (the globals of static/js/script.js plus the
 * poll loop's `pollCount` and interval) and the operations that change it:
 * step replay, the progress poll tick, starting a generation, the form and
 * download guards and the view toggle.
 *
 * Each method is proved against a function on a `Page` value; the lemmas below
 * the class state what those functions promise over whole poll runs.
 */
module ClientPage {
  import opened Protocol
  import opened ClientReplay

  /** The poll ceiling of startProgressPolling. */
  const MaxPolls: nat := 200

  const TimeoutMessage: string := "Solving timed out. Try a different combination."
  const SelectBothMessage: string := "Please select both structure and word list."
  const UnknownErrorMessage: string := "Unknown error occurred"
  const NoImageMessage: string := "No image available to download"
  /** The message of the TypeError a select_variable step without `variable` raises. */
  const MissingVariableMessage: string := "Cannot read properties of undefined (reading 'i')"

  datatype View = GridView | ImageView

  /** The view toggle always switches to the other view. */
  function Flip(v: View): (r: View)
    ensures r != v
  {
    if v == GridView then ImageView else GridView
  }

  lemma ToggleRestoresView(v: View)
    ensures Flip(Flip(v)) == v
  {
  }

  /** What one tick's fetch of /solving-progress yields: a parsed body or a thrown error. */
  datatype Fetched = Received(response: ProgressResponse) | Threw(message: string)

  /** What the /generate request yields. */
  datatype GenerateReply =
    | Started(sessionId: string)          // {success: true, session_id}
    | Refused(error: Option<string>)      // a body without success
    | RequestThrew(message: string)       // fetch or JSON parsing threw

  // ---------------------------------------------------------------------------
  // The replayed panel: counters, log and visualisation grid
  // ---------------------------------------------------------------------------

  datatype Panel = Panel(stats: Stats, log: seq<LogEntry>, visGrid: Option<seq<seq<VisCell>>>)

  /**
   * processStep: count the step, log it, and redraw the grid when the step
   * carries one. The second component is false when logging threw, in which
   * case the counters have moved but the log and grid have not.
   */
  function ProcessStepSpec(p: Panel, step: Step): (Panel, bool)
  {
    var stats := CountStep(p.stats, step.stepType);
    match LogEntryOf(step)
    case None => (p.(stats := stats), false)
    case Some(e) =>
      var log := LastN(p.log + [e], MaxLogEntries);
      var vis := if step.data.grid.Some?
                 then Some(RenderGrid(step.data.grid.value, step.stepType, step.data))
                 else p.visGrid;
      (Panel(stats, log, vis), true)
  }

  datatype Replayed = Replayed(panel: Panel, failed: bool)

  /** Replaying the steps of one response in array order, stopping at the first throw. */
  function Replay(p: Panel, steps: seq<Step>): Replayed
    decreases |steps|
  {
    if steps == [] then Replayed(p, false)
    else
      var (q, ok) := ProcessStepSpec(p, steps[0]);
      if ok then Replay(q, steps[1..]) else Replayed(q, true)
  }

  /** How many steps of a response reach updateSolvingStats (the throwing one included). */
  function Counted(steps: seq<Step>): (n: nat)
    ensures n <= |steps|
    decreases |steps|
  {
    if steps == [] then 0
    else if !Loggable(steps[0]) then 1
    else 1 + Counted(steps[1..])
  }

  /** How many steps of a response are replayed completely. */
  function Logged(steps: seq<Step>): (n: nat)
    ensures n <= |steps|
    decreases |steps|
  {
    if steps == [] || !Loggable(steps[0]) then 0 else 1 + Logged(steps[1..])
  }

  lemma {:induction false} LoggedPrefix(steps: seq<Step>)
    ensures AllLoggable(steps[..Logged(steps)])
    ensures AllLoggable(steps) <==> Logged(steps) == |steps|
    ensures AllLoggable(steps) ==> Counted(steps) == |steps|
    decreases |steps|
  {
    if steps != [] {
      var rest := steps[1..];
      LoggedPrefix(rest);
      if Loggable(steps[0]) {
        var nl := Logged(rest);
        assert steps[..1 + nl] == [steps[0]] + rest[..nl];
        forall k | 0 <= k < 1 + nl ensures Loggable(steps[k]) {
          if k > 0 { assert steps[k] == rest[..nl][k - 1]; }
        }
        if AllLoggable(steps) {
          forall k | 0 <= k < |rest| ensures Loggable(rest[k]) { assert rest[k] == steps[k + 1]; }
        }
        if !AllLoggable(rest) {
          var k :| 0 <= k < |rest| && !Loggable(rest[k]);
          assert steps[k + 1] == rest[k];
        }
      }
    }
  }

  lemma {:induction false} ReplayFails(p: Panel, steps: seq<Step>)
    ensures Replay(p, steps).failed <==> !AllLoggable(steps)
    decreases |steps|
  {
    if steps != [] {
      LoggedPrefix(steps);
      LoggedPrefix(steps[1..]);
      if Loggable(steps[0]) {
        ReplayFails(ProcessStepSpec(p, steps[0]).0, steps[1..]);
      }
    }
  }

  lemma {:induction false} ReplayStats(p: Panel, steps: seq<Step>)
    ensures Replay(p, steps).panel.stats == FoldStats(p.stats, Types(steps[..Counted(steps)]))
    decreases |steps|
  {
    if steps == [] {
      assert steps[..0] == [];
    } else {
      var s := steps[0];
      var q := ProcessStepSpec(p, s).0;
      assert q.stats == CountStep(p.stats, s.stepType);
      if !Loggable(s) {
        assert Types(steps[..1]) == [s.stepType];
        assert [s.stepType][1..] == [];
      } else {
        var rest := steps[1..];
        ReplayStats(q, rest);
        var nc := Counted(rest);
        assert steps[..1 + nc] == [s] + rest[..nc];
        assert Types(steps[..1 + nc]) == [s.stepType] + Types(rest[..nc]);
        assert ([s.stepType] + Types(rest[..nc]))[1..] == Types(rest[..nc]);
      }
    }
  }

  /** The entries of a loggable step followed by loggable steps. */
  lemma EntriesCons(steps: seq<Step>, nl: nat)
    requires steps != [] && Loggable(steps[0])
    requires nl < |steps| && AllLoggable(steps[1..][..nl])
    ensures AllLoggable(steps[..1 + nl])
    ensures Entries(steps[..1 + nl]) == [LogEntryOf(steps[0]).value] + Entries(steps[1..][..nl])
  {
    assert steps[..1 + nl] == [steps[0]] + steps[1..][..nl];
    EntriesAppend([steps[0]], steps[1..][..nl]);
  }

  lemma {:induction false} ReplayLog(p: Panel, steps: seq<Step>)
    requires |p.log| <= MaxLogEntries
    ensures AllLoggable(steps[..Logged(steps)])
    ensures Replay(p, steps).panel.log ==
      LastN(p.log + Entries(steps[..Logged(steps)]), MaxLogEntries)
    decreases |steps|
  {
    if steps == [] || !Loggable(steps[0]) {
      assert steps[..0] == [];
      assert p.log + Entries(steps[..0]) == p.log;
    } else {
      var e := LogEntryOf(steps[0]).value;
      var q := ProcessStepSpec(p, steps[0]).0;
      assert q.log == LastN(p.log + [e], MaxLogEntries);
      ReplayLog(q, steps[1..]);
      var tail := Entries(steps[1..][..Logged(steps[1..])]);
      EntriesCons(steps, Logged(steps[1..]));
      LastNConcat(p.log, [e], tail, MaxLogEntries);
      assert p.log + [e] + tail == p.log + ([e] + tail);
    }
  }

  /**
   * Replaying a response moves the counters by exactly the steps that reached
   * updateSolvingStats, in order; the log becomes the last 50 of the old log
   * followed by the entries of the completely replayed steps; and replay fails
   * exactly when some step cannot be logged.
   */
  lemma ReplayEffect(p: Panel, steps: seq<Step>)
    requires |p.log| <= MaxLogEntries
    ensures AllLoggable(steps[..Logged(steps)])
    ensures Replay(p, steps).failed <==> !AllLoggable(steps)
    ensures Replay(p, steps).panel.stats == FoldStats(p.stats, Types(steps[..Counted(steps)]))
    ensures Replay(p, steps).panel.log ==
      LastN(p.log + Entries(steps[..Logged(steps)]), MaxLogEntries)
    ensures |Replay(p, steps).panel.log| <= MaxLogEntries
    ensures AllLoggable(steps) ==> Counted(steps) == Logged(steps) == |steps|
  {
    LoggedPrefix(steps);
    ReplayFails(p, steps);
    ReplayStats(p, steps);
    ReplayLog(p, steps);
  }

  /** A panel whose grid came from no step is never redrawn by steps without a grid. */
  lemma {:induction false} NoGridNoRedraw(p: Panel, steps: seq<Step>)
    requires forall k :: 0 <= k < |steps| ==> steps[k].data.grid.None?
    ensures Replay(p, steps).panel.visGrid == p.visGrid
    decreases |steps|
  {
    if steps != [] {
      NoGridNoRedraw(ProcessStepSpec(p, steps[0]).0, steps[1..]);
    }
  }

  /** No cell of the visualisation grid shows the error status. */
  ghost predicate NoErrorMarks(vis: Option<seq<seq<VisCell>>>)
  {
    vis.Some? ==>
      forall a, b :: 0 <= a < |vis.value| && 0 <= b < |vis.value[a]| ==>
        vis.value[a][b].mark.status != Some(Error)
  }

  /**
   * The error status is drawn only by a reject_word step that carries a grid:
   * replaying steps none of which is such a step never shows it.
   */
  lemma {:induction false} ErrorMarksNeedRejectGrid(p: Panel, steps: seq<Step>)
    requires NoErrorMarks(p.visGrid)
    requires forall k :: 0 <= k < |steps| ==>
      steps[k].stepType == RejectWord ==> steps[k].data.grid.None?
    ensures NoErrorMarks(Replay(p, steps).panel.visGrid)
    decreases |steps|
  {
    if steps != [] {
      var s := steps[0];
      var q := ProcessStepSpec(p, s).0;
      if s.data.grid.Some? && LogEntryOf(s).Some? {
        var vis := RenderGrid(s.data.grid.value, s.stepType, s.data);
        assert q.visGrid == Some(vis);
        assert StatusOf(s.stepType) != Some(Error);
      }
      assert NoErrorMarks(q.visGrid);
      ErrorMarksNeedRejectGrid(q, steps[1..]);
    }
  }

  // ---------------------------------------------------------------------------
  // The page and the poll tick
  // ---------------------------------------------------------------------------

  /**
   * The page state: the panel, the poll loop (its session, `pollCount`,
   * whether its interval is cleared, and the number of fetches it issued),
   * the loading overlay, the error banner, the displayed result, the image
   * data kept for download and the current view.
   */
  datatype Page = Page(
    panel: Panel,
    pollSession: Option<string>,
    pollCount: nat,
    stopped: bool,
    fetches: nat,
    loading: bool,
    errorText: Option<string>,
    display: Option<FinalResult>,
    imageData: Option<string>,
    view: View)

  /** The page as loaded: no poll loop running, nothing shown. */
  const InitialPage: Page :=
    Page(Panel(ZeroStats, [], None), None, 0, true, 0, false, None, None, None, GridView)

  /** showError: the banner shows the message and the result display is hidden. */
  function ShowError(pg: Page, message: string): Page
  {
    pg.(errorText := Some(message), display := None)
  }

  /** The poll loop's failure path: clear the interval, hide the overlay, show the error. */
  function StopWithError(pg: Page, message: string): Page
  {
    ShowError(pg.(stopped := true, loading := false), message)
  }

  /** displayFinalCrossword after the result arrives: grid shown, view reset, overlay hidden. */
  function Deliver(pg: Page, result: FinalResult): Page
  {
    pg.(imageData := Some(result.image), display := Some(result), view := GridView, loading := false)
  }

  /** What a tick does with a fetched response body. */
  function Consume(pg: Page, r: ProgressResponse): Page
  {
    if Truthy(r.error) then StopWithError(pg, r.error.value)
    else
      var rp := Replay(pg.panel, r.steps);
      var pg2 := pg.(panel := rp.panel);
      if rp.failed then StopWithError(pg2, MissingVariableMessage)
      else if !r.complete then pg2
      else if r.result.Some? then Deliver(pg2.(stopped := true), r.result.value)
      else pg2.(stopped := true)
  }

  /** One firing of the poll interval, given what its fetch would yield. */
  function TickSpec(pg: Page, f: Fetched): Page
  {
    if pg.stopped then pg
    else if pg.pollCount + 1 > MaxPolls then
      StopWithError(pg.(pollCount := pg.pollCount + 1), TimeoutMessage)
    else
      var pg1 := pg.(pollCount := pg.pollCount + 1, fetches := pg.fetches + 1);
      match f
      case Threw(m) => StopWithError(pg1, m)
      case Received(r) => Consume(pg1, r)
  }

  /** Consecutive ticks, one per element of `fs`. */
  function RunTicks(pg: Page, fs: seq<Fetched>): Page
    decreases |fs|
  {
    if fs == [] then pg else RunTicks(TickSpec(pg, fs[0]), fs[1..])
  }

  /** The message a failed /generate request shows. */
  function GenerateError(reply: GenerateReply): string
    requires !reply.Started?
  {
    match reply
    case Refused(e) => if Truthy(e) then e.value else UnknownErrorMessage
    case RequestThrew(m) => m
  }

  /**
   * generateCrossword: show the overlay, hide the error, reset the counters;
   * on success clear the panel and start a fresh poll loop for the returned
   * session, otherwise hide the overlay and show the error.
   */
  function GenerateSpec(pg: Page, reply: GenerateReply): Page
  {
    var pg0 := pg.(loading := true, errorText := None, panel := pg.panel.(stats := ZeroStats));
    match reply
    case Started(id) =>
      pg0.(panel := Panel(ZeroStats, [], None), pollSession := Some(id),
           pollCount := 0, stopped := false, fetches := 0)
    case _ => ShowError(pg0.(loading := false), GenerateError(reply))
  }

  /** handleFormSubmit: both selections must be non-empty before generating. */
  function SubmitSpec(pg: Page, structure: string, words: string, reply: GenerateReply): Page
  {
    if structure == "" || words == "" then ShowError(pg, SelectBothMessage)
    else GenerateSpec(pg, reply)
  }

  /** The poll loop's bookkeeping is consistent and the log is within bounds. */
  ghost predicate PollInvariant(pg: Page)
  {
    && pg.fetches <= pg.pollCount
    && pg.fetches <= MaxPolls
    && pg.pollCount <= MaxPolls + 1
    && (pg.pollCount > MaxPolls ==> pg.stopped)
    && |pg.panel.log| <= MaxLogEntries
  }

  // ---------------------------------------------------------------------------
  // The page as an object: the script's globals, changed in place
  // ---------------------------------------------------------------------------

  class Client {
    var solvingStats: Stats
    var log: seq<LogEntry>
    var visGrid: Option<seq<seq<VisCell>>>
    var pollSession: Option<string>
    var pollCount: nat
    var stopped: bool
    ghost var fetches: nat
    var loading: bool
    var errorText: Option<string>
    var display: Option<FinalResult>
    var currentImageData: Option<string>
    var currentView: View

    function PanelOf(): Panel
      reads this
    {
      Panel(solvingStats, log, visGrid)
    }

    ghost function Snapshot(): Page
      reads this
    {
      Page(PanelOf(), pollSession, pollCount, stopped, fetches, loading,
           errorText, display, currentImageData, currentView)
    }

    constructor ()
      ensures Snapshot() == InitialPage
    {
      solvingStats := ZeroStats;
      log := [];
      visGrid := None;
      pollSession := None;
      pollCount := 0;
      stopped := true;
      fetches := 0;
      loading := false;
      errorText := None;
      display := None;
      currentImageData := None;
      currentView := GridView;
    }

    /** updateSolvingStats: bump the counter the step type names. */
    method UpdateSolvingStats(step: Step)
      modifies this`solvingStats
      ensures solvingStats == CountStep(old(solvingStats), step.stepType)
    {
      match step.stepType {
        case TryWord => solvingStats := solvingStats.(attempts := solvingStats.attempts + 1);
        case PlaceWord => solvingStats := solvingStats.(placements := solvingStats.placements + 1);
        case Backtrack => solvingStats := solvingStats.(backtracks := solvingStats.backtracks + 1);
        case SelectVariable =>
        case RejectWord =>
      }
    }

    /**
     * updateSolvingLog: append the step's entry, then drop the oldest entry
     * while more than 50 remain. Fails, leaving the log alone, when the entry
     * cannot be built.
     */
    method UpdateSolvingLog(step: Step) returns (ok: bool)
      modifies this`log
      ensures ok == Loggable(step)
      ensures log == if ok then LastN(old(log) + [LogEntryOf(step).value], MaxLogEntries) else old(log)
    {
      var e := LogEntryOf(step);
      if e.None? {
        return false;
      }
      log := log + [e.value];
      ghost var full := log;
      ghost var dropped: nat := 0;
      while |log| > MaxLogEntries
        invariant dropped <= |full| && log == full[dropped..]
        invariant |log| >= Min(|full|, MaxLogEntries)
        decreases |log|
      {
        log := log[1..];
        dropped := dropped + 1;
      }
      ok := true;
    }

    /** updateVisualizationGrid: redraw the whole snapshot with the step's highlight. */
    method UpdateVisualizationGrid(grid: Grid, t: StepType, data: StepData)
      modifies this`visGrid
      ensures visGrid == Some(RenderGrid(grid, t, data))
    {
      visGrid := Some(RenderGrid(grid, t, data));
    }

    /** processStep: counters, then log, then (for a step with a grid) the grid. */
    method ProcessStep(step: Step) returns (ok: bool)
      modifies this`solvingStats, this`log, this`visGrid
      ensures (PanelOf(), ok) == ProcessStepSpec(old(PanelOf()), step)
    {
      UpdateSolvingStats(step);
      ok := UpdateSolvingLog(step);
      if !ok {
        return;
      }
      if step.data.grid.Some? {
        UpdateVisualizationGrid(step.data.grid.value, step.stepType, step.data);
      }
    }

    /** The `for (const step of data.steps)` loop: every step in order, up to a throw. */
    method ReplaySteps(steps: seq<Step>) returns (failed: bool)
      modifies this`solvingStats, this`log, this`visGrid
      ensures Replayed(PanelOf(), failed) == Replay(old(PanelOf()), steps)
    {
      var k := 0;
      while k < |steps|
        invariant 0 <= k <= |steps|
        invariant Replay(PanelOf(), steps[k..]) == Replay(old(PanelOf()), steps)
      {
        var ok := ProcessStep(steps[k]);
        if !ok {
          return true;
        }
        assert steps[k..][1..] == steps[k + 1..];
        k := k + 1;
      }
      failed := false;
    }

    /** showError: show the message in the banner and hide the result display. */
    method ShowError(message: string)
      modifies this`errorText, this`display
      ensures errorText == Some(message) && display.None?
    {
      errorText := Some(message);
      display := None;
    }

    /** The poll loop's catch: clear the interval, hide the overlay, show the error. */
    method ShowFailure(message: string)
      modifies this`stopped, this`loading, this`errorText, this`display
      ensures stopped && !loading && errorText == Some(message) && display.None?
    {
      stopped := true;
      loading := false;
      ShowError(message);
    }

    /**
     * One firing of the poll interval (startProgressPolling's callback), with
     * `f` standing for what its fetch yields; once the interval is cleared the
     * callback no longer runs.
     */
    method Tick(f: Fetched)
      modifies this
      ensures Snapshot() == TickSpec(old(Snapshot()), f)
    {
      if stopped {
        return;
      }
      pollCount := pollCount + 1;
      if pollCount > MaxPolls {
        ShowFailure(TimeoutMessage);
        return;
      }
      fetches := fetches + 1;
      match f {
        case Threw(m) =>
          ShowFailure(m);
        case Received(r) =>
          HandleResponse(r);
      }
    }

    /** The `.then(data => ...)` handler of a poll's fetch. */
    method HandleResponse(r: ProgressResponse)
      modifies this
      ensures Snapshot() == Consume(old(Snapshot()), r)
    {
      if Truthy(r.error) {
        ShowFailure(r.error.value);
        return;
      }
      var failed := ReplaySteps(r.steps);
      if failed {
        ShowFailure(MissingVariableMessage);
        return;
      }
      if r.complete {
        stopped := true;
        if Truthy(r.error) {
          // script.js:268-270 shows data.error here, but a truthy error
          // was already thrown at script.js:253-254: this branch is dead.
          assert false;
        } else if r.result.Some? {
          currentImageData := Some(r.result.value.image);
          display := Some(r.result.value);
          currentView := GridView;
          loading := false;
        }
      }
    }

    /** generateCrossword with the /generate reply `reply`. */
    method Generate(reply: GenerateReply)
      modifies this
      ensures Snapshot() == GenerateSpec(old(Snapshot()), reply)
    {
      loading := true;
      errorText := None;
      solvingStats := ZeroStats;
      match reply {
        case Started(id) =>
          // showSolvingVisualization, then startProgressPolling(id)
          log := [];
          visGrid := None;
          pollSession := Some(id);
          pollCount := 0;
          stopped := false;
          fetches := 0;
        case Refused(_) =>
          loading := false;
          ShowError(GenerateError(reply));
        case RequestThrew(_) =>
          loading := false;
          ShowError(GenerateError(reply));
      }
    }

    /** handleFormSubmit with the two selected file names. */
    method HandleFormSubmit(structure: string, words: string, reply: GenerateReply)
      modifies this
      ensures Snapshot() == SubmitSpec(old(Snapshot()), structure, words, reply)
    {
      if structure == "" || words == "" {
        ShowError(SelectBothMessage);
        return;
      }
      Generate(reply);
    }

    /** toggleView: switch between the grid and the image view. */
    method ToggleView()
      modifies this`currentView
      ensures currentView == Flip(old(currentView))
    {
      if currentView == GridView {
        currentView := ImageView;
      } else {
        currentView := GridView;
      }
    }

    /**
     * downloadImage: without image data show an error and download nothing;
     * otherwise return the base64 payload of the data URI it downloads.
     */
    method DownloadImage() returns (payload: Option<string>)
      modifies this`errorText, this`display
      ensures Truthy(currentImageData) ==> payload == currentImageData
                                           && errorText == old(errorText) && display == old(display)
      ensures !Truthy(currentImageData) ==> payload.None? && errorText == Some(NoImageMessage) && display.None?
    {
      if !Truthy(currentImageData) {
        ShowError(NoImageMessage);
        return None;
      }
      payload := currentImageData;
    }
  }

  // ---------------------------------------------------------------------------
  // What the poll loop promises
  // ---------------------------------------------------------------------------

  /** A fresh poll loop satisfies the invariant. */
  lemma GenerateStartsPolling(pg: Page, reply: GenerateReply)
    requires reply.Started?
    ensures var g := GenerateSpec(pg, reply);
      && PollInvariant(g) && !g.stopped && g.pollCount == 0 && g.fetches == 0
      && g.panel == Panel(ZeroStats, [], None) && g.errorText.None?
  {
  }

  /** A tick keeps the invariant: at most 200 fetches, and the log within 50 entries. */
  lemma TickKeepsInvariant(pg: Page, f: Fetched)
    requires PollInvariant(pg)
    ensures PollInvariant(TickSpec(pg, f))
  {
    if !pg.stopped && pg.pollCount + 1 <= MaxPolls && f.Received? && !Truthy(f.response.error) {
      ReplayEffect(pg.panel, f.response.steps);
    }
  }

  lemma {:induction false} RunKeepsInvariant(pg: Page, fs: seq<Fetched>)
    requires PollInvariant(pg)
    ensures PollInvariant(RunTicks(pg, fs))
    ensures RunTicks(pg, fs).fetches <= MaxPolls
    decreases |fs|
  {
    if fs != [] {
      TickKeepsInvariant(pg, fs[0]);
      RunKeepsInvariant(TickSpec(pg, fs[0]), fs[1..]);
    }
  }

  /** After any stop (ceiling, error, throw or completion) no tick does anything. */
  lemma {:induction false} StoppedStaysPut(pg: Page, fs: seq<Fetched>)
    requires pg.stopped
    ensures RunTicks(pg, fs) == pg
    decreases |fs|
  {
    if fs != [] {
      StoppedStaysPut(TickSpec(pg, fs[0]), fs[1..]);
    }
  }

  /**
   * The tick on which `pollCount` passes 200 fetches nothing, stops the loop
   * and shows the timeout message.
   */
  lemma TimeoutTick(pg: Page, f: Fetched)
    requires !pg.stopped && pg.pollCount == MaxPolls
    ensures var n := TickSpec(pg, f);
      && n.stopped && n.pollCount == MaxPolls + 1 && n.fetches == pg.fetches
      && n.errorText == Some(TimeoutMessage) && !n.loading
      && n.panel == pg.panel && n.display.None?
  {
  }

  /** Whatever the server answers, a running loop has stopped after 201 - pollCount ticks. */
  lemma {:induction false} PollingTerminates(pg: Page, fs: seq<Fetched>)
    requires PollInvariant(pg)
    requires pg.pollCount + |fs| > MaxPolls
    ensures RunTicks(pg, fs).stopped
    decreases |fs|
  {
    if pg.stopped {
      StoppedStaysPut(pg, fs);
    } else {
      var n := TickSpec(pg, fs[0]);
      TickKeepsInvariant(pg, fs[0]);
      assert n.stopped || n.pollCount == pg.pollCount + 1;
      PollingTerminates(n, fs[1..]);
    }
  }

  /** A fresh loop issues at most 200 fetches and has stopped after 201 ticks. */
  lemma FreshLoopBounded(pg: Page, reply: GenerateReply, fs: seq<Fetched>)
    requires reply.Started?
    ensures RunTicks(GenerateSpec(pg, reply), fs).fetches <= MaxPolls
    ensures |fs| > MaxPolls ==> RunTicks(GenerateSpec(pg, reply), fs).stopped
  {
    GenerateStartsPolling(pg, reply);
    RunKeepsInvariant(GenerateSpec(pg, reply), fs);
    if |fs| > MaxPolls {
      PollingTerminates(GenerateSpec(pg, reply), fs);
    }
  }

  /**
   * A response carrying a (truthy) error stops the loop with that error before
   * any step is replayed, and never delivers a result, even when it also says
   * complete and carries one.
   */
  lemma ErrorNeverDelivers(pg: Page, r: ProgressResponse)
    requires !pg.stopped && pg.pollCount < MaxPolls
    requires Truthy(r.error)
    ensures var n := TickSpec(pg, Received(r));
      && n.stopped && n.errorText == r.error && !n.loading
      && n.display.None? && n.imageData == pg.imageData
      && n.panel == pg.panel
  {
  }

  /**
   * A completing response without error: all its steps are replayed in order
   * (counters folded, log trimmed to the latest 50) before the loop stops, and
   * its result, when present, is delivered and the grid view selected.
   */
  lemma CompleteAfterReplay(pg: Page, r: ProgressResponse)
    requires PollInvariant(pg) && !pg.stopped && pg.pollCount < MaxPolls
    requires !Truthy(r.error) && r.complete && AllLoggable(r.steps)
    ensures var n := TickSpec(pg, Received(r));
      && n.stopped
      && n.panel.stats == FoldStats(pg.panel.stats, Types(r.steps))
      && n.panel.log == LastN(pg.panel.log + Entries(r.steps), MaxLogEntries)
      && (r.result.Some? ==> n.display == r.result && n.imageData == Some(r.result.value.image)
                             && n.view == GridView && !n.loading)
      && (r.result.None? ==> n.display == pg.display && n.loading == pg.loading
                             && n.errorText == pg.errorText)
  {
    ReplayEffect(pg.panel, r.steps);
    assert r.steps[..|r.steps|] == r.steps;
  }

  /** A response that is neither an error nor complete keeps the loop running. */
  lemma IncompleteKeepsPolling(pg: Page, r: ProgressResponse)
    requires PollInvariant(pg) && !pg.stopped && pg.pollCount < MaxPolls
    requires !Truthy(r.error) && !r.complete && AllLoggable(r.steps)
    ensures var n := TickSpec(pg, Received(r));
      && !n.stopped && n.pollCount == pg.pollCount + 1 && n.fetches == pg.fetches + 1
      && n.panel.stats == FoldStats(pg.panel.stats, Types(r.steps))
      && n.errorText == pg.errorText && n.display == pg.display
  {
    ReplayEffect(pg.panel, r.steps);
    assert r.steps[..|r.steps|] == r.steps;
  }

  /** The steps whose counters a tick moved. */
  function TickCounted(pg: Page, f: Fetched): seq<Step>
  {
    if !pg.stopped && pg.pollCount + 1 <= MaxPolls && f.Received? && !Truthy(f.response.error)
    then f.response.steps[..Counted(f.response.steps)]
    else []
  }

  /** The steps whose counters a run of ticks moved, in the order they arrived. */
  function RunCounted(pg: Page, fs: seq<Fetched>): seq<Step>
    decreases |fs|
  {
    if fs == [] then [] else TickCounted(pg, fs[0]) + RunCounted(TickSpec(pg, fs[0]), fs[1..])
  }

  /** The counters after a run are the fold of every counted step, in receipt order. */
  lemma {:induction false} RunStatsFold(pg: Page, fs: seq<Fetched>)
    requires PollInvariant(pg)
    ensures RunTicks(pg, fs).panel.stats == FoldStats(pg.panel.stats, Types(RunCounted(pg, fs)))
    decreases |fs|
  {
    if fs != [] {
      var n := TickSpec(pg, fs[0]);
      var here := TickCounted(pg, fs[0]);
      if !pg.stopped && pg.pollCount + 1 <= MaxPolls && fs[0].Received? && !Truthy(fs[0].response.error) {
        ReplayEffect(pg.panel, fs[0].response.steps);
      } else {
        assert n.panel.stats == pg.panel.stats;
      }
      assert n.panel.stats == FoldStats(pg.panel.stats, Types(here));
      TickKeepsInvariant(pg, fs[0]);
      RunStatsFold(n, fs[1..]);
      TypesAppend(here, RunCounted(n, fs[1..]));
      FoldStatsAppend(pg.panel.stats, Types(here), Types(RunCounted(n, fs[1..])));
    }
  }

  /**
   * A generation starts the counters at zero, so after any run of ticks each
   * counter is exactly the number of counted steps of its type.
   */
  lemma SessionCountersAreCounts(pg: Page, reply: GenerateReply, fs: seq<Fetched>)
    requires reply.Started?
    ensures var g := GenerateSpec(pg, reply);
      var ts := Types(RunCounted(g, fs));
      RunTicks(g, fs).panel.stats ==
        Stats(Occurrences(ts, TryWord), Occurrences(ts, Backtrack), Occurrences(ts, PlaceWord))
  {
    var g := GenerateSpec(pg, reply);
    GenerateStartsPolling(pg, reply);
    RunStatsFold(g, fs);
    FoldStatsCounts(ZeroStats, Types(RunCounted(g, fs)));
  }

  /** An empty selection shows the selection error and starts nothing. */
  lemma SubmitNeedsBothFiles(pg: Page, structure: string, words: string, reply: GenerateReply)
    requires structure == "" || words == ""
    ensures SubmitSpec(pg, structure, words, reply) == pg.(errorText := Some(SelectBothMessage), display := None)
  {
  }
}
