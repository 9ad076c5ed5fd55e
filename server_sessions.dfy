/**
 * The server's table of solving sessions (solving_sessions in app.py): the
 * /generate route that opens a session, the background solve that finishes
 * it, the step queue the search appends to, and the /solving-progress route
 * that hands the queued steps out and clears the queue.
 *
 * Each operation is a function on the table; `SessionStore` holds the table
 * as a mutable map and its methods are proved against those functions.
 */
module ServerSessions {
  import opened Protocol

  const SelectBothError: string := "Please select both structure and words files"
  const MissingFilesError: string := "Selected files do not exist"
  const NoSolutionError: string := "No solution found"
  const SessionNotFoundError: string := "Session not found"

  /** One entry of solving_sessions: {steps, complete, error, result?}. */
  datatype Session = Session(steps: seq<Step>, complete: bool, error: Option<string>, result: Option<FinalResult>)

  type Table = map<string, Session>

  /** The entry /generate stores before the solve starts. */
  const FreshSession: Session := Session([], false, None, None)

  /**
   * A session is consistent when a result is only present once the session
   * is complete, and a complete session carries an error or a result.
   */
  predicate SessionOk(s: Session)
  {
    && (s.result.Some? ==> s.complete)
    && (s.complete ==> s.error.Some? || s.result.Some?)
  }

  predicate TableOk(t: Table)
  {
    forall id :: id in t ==> SessionOk(t[id])
  }

  // ------------------------------------------------------------------
  // POST /generate
  // ------------------------------------------------------------------

  /** The JSON reply of /generate (the HTTP status is not modelled). */
  datatype StartReply = Started(sessionId: string) | Rejected(error: string)

  /**
   * generate_crossword up to the point where the thread is started. Absent
   * or empty file names are refused first, then names that are not in
   * `files` (the names that exist under data/); a missing session_id falls
   * back to the clock's text. A known id is overwritten with a fresh entry.
   */
  function Start(t: Table, structure: Option<string>, words: Option<string>,
                 sessionId: Option<string>, clock: string, files: set<string>): (Table, StartReply)
  {
    if !Truthy(structure) || !Truthy(words) then (t, Rejected(SelectBothError))
    else if structure.value !in files || words.value !in files then (t, Rejected(MissingFilesError))
    else
      var id := if sessionId.Some? then sessionId.value else clock;
      (t[id := FreshSession], Started(id))
  }

  /**
   * /generate accepts exactly when both names are non-empty and exist; then
   * it opens a fresh session under the requested id (or the clock's) and
   * leaves every other session alone; otherwise the table is untouched.
   */
  lemma StartOutcome(t: Table, structure: Option<string>, words: Option<string>,
                     sessionId: Option<string>, clock: string, files: set<string>)
    ensures var (t', reply) := Start(t, structure, words, sessionId, clock, files);
      && (reply.Started? <==>
            Truthy(structure) && Truthy(words) && structure.value in files && words.value in files)
      && (reply.Rejected? ==> t' == t)
      && (reply.Rejected? && (!Truthy(structure) || !Truthy(words)) ==> reply.error == SelectBothError)
      && (reply.Started? ==>
            && reply.sessionId == (if sessionId.Some? then sessionId.value else clock)
            && t'.Keys == t.Keys + {reply.sessionId}
            && t'[reply.sessionId] == FreshSession
            && (forall id :: id in t && id != reply.sessionId ==> t'[id] == t[id]))
  {
  }

  // ------------------------------------------------------------------
  // The background thread: queueing steps and finishing
  // ------------------------------------------------------------------

  /** The session's queue with `extra` appended (add_step, one or more times). */
  function WithSteps(t: Table, id: string, extra: seq<Step>): Table
    requires id in t
  {
    t[id := t[id].(steps := t[id].steps + extra)]
  }

  /**
   * Queueing appends to the one session's queue, keeps its flags, error and
   * result, and touches no other session.
   */
  lemma WithStepsEffect(t: Table, id: string, extra: seq<Step>)
    requires id in t
    ensures var r := WithSteps(t, id, extra);
      && r.Keys == t.Keys && r[id].steps == t[id].steps + extra
      && r[id].complete == t[id].complete && r[id].error == t[id].error && r[id].result == t[id].result
      && (forall k :: k in t && k != id ==> r[k] == t[k])
  {
  }

  lemma WithStepsTwice(t: Table, id: string, x: seq<Step>, y: seq<Step>)
    requires id in t
    ensures WithSteps(WithSteps(t, id, x), id, y) == WithSteps(t, id, x + y)
  {
    assert t[id].steps + x + y == t[id].steps + (x + y);
  }

  /** How the background solve ended. */
  datatype SolveOutcome = NoSolution | Solved(result: FinalResult) | Raised(message: string)

  /** The writes solve_with_tracking makes when the solve ends. */
  function Finish(t: Table, id: string, outcome: SolveOutcome): Table
    requires id in t
  {
    var s := t[id];
    match outcome
    case NoSolution => t[id := s.(error := Some(NoSolutionError), complete := true)]
    case Solved(r) => t[id := s.(result := Some(r), complete := true)]
    case Raised(m) => t[id := s.(error := Some(m), complete := true)]
  }

  /**
   * Finishing completes the session, keeps its queue, records the error or
   * the result the outcome calls for, and touches no other session.
   */
  lemma FinishOutcome(t: Table, id: string, outcome: SolveOutcome)
    requires id in t
    ensures var t' := Finish(t, id, outcome);
      && t'.Keys == t.Keys
      && t'[id].complete && t'[id].steps == t[id].steps
      && (outcome.Solved? ==> t'[id].result == Some(outcome.result) && t'[id].error == t[id].error)
      && (outcome.NoSolution? ==> t'[id].error == Some(NoSolutionError) && t'[id].result == t[id].result)
      && (outcome.Raised? ==> t'[id].error == Some(outcome.message) && t'[id].result == t[id].result)
      && (forall k :: k in t && k != id ==> t'[k] == t[k])
  {
  }

  // ------------------------------------------------------------------
  // GET /solving-progress/<id>
  // ------------------------------------------------------------------

  /** The reply of /solving-progress: the 404 body, or the session's progress. */
  datatype ProgressReply = SessionNotFound | Progress(response: ProgressResponse)

  /**
   * get_solving_progress: an unknown id is refused; otherwise the reply
   * carries the queued steps, the flags, and the result only when complete,
   * and the queue is emptied.
   */
  function Poll(t: Table, id: string): (Table, ProgressReply)
  {
    if id !in t then (t, SessionNotFound)
    else
      var s := t[id];
      (t[id := s.(steps := [])],
       Progress(ProgressResponse(s.steps, s.complete, s.error, if s.complete then s.result else None)))
  }

  /** The reply as the client's `response.json()` reads it. */
  function ClientView(reply: ProgressReply): (r: ProgressResponse)
    ensures reply.SessionNotFound? ==> Truthy(r.error) && r.error.value == SessionNotFoundError && r.steps == []
    ensures reply.Progress? ==> r == reply.response
  {
    match reply
    case SessionNotFound => ProgressResponse([], false, Some(SessionNotFoundError), None)
    case Progress(r) => r
  }

  /**
   * A poll hands out exactly the queued steps and leaves the queue empty, so
   * a second poll with nothing queued in between hands out nothing and
   * reports the same flags; an unknown id changes nothing.
   */
  lemma PollDrains(t: Table, id: string)
    ensures var (t1, r1) := Poll(t, id);
      var (t2, r2) := Poll(t1, id);
      && (r1.SessionNotFound? <==> id !in t)
      && (id !in t ==> t1 == t && t2 == t && r2.SessionNotFound?)
      && (id in t ==>
            && t1.Keys == t.Keys && t1[id].steps == []
            && r1.response.steps == t[id].steps
            && r2.Progress? && r2.response.steps == []
            && r2.response.complete == r1.response.complete
            && r2.response.error == r1.response.error
            && r2.response.result == r1.response.result
            && t2 == t1)
  {
    if id in t {
      var t1 := Poll(t, id).0;
      assert t1[id := t1[id].(steps := [])] == t1 by {
        assert t1[id].steps == [];
      }
    }
  }

  /**
   * On a consistent table, a reply that says complete always carries an
   * error or a result, and a reply never carries a result before completion.
   */
  lemma PollReportsOutcome(t: Table, id: string)
    requires TableOk(t)
    ensures var (t', r) := Poll(t, id);
      && TableOk(t')
      && (r.Progress? ==> (r.response.result.Some? ==> r.response.complete))
      && (r.Progress? && r.response.complete ==> r.response.error.Some? || r.response.result.Some?)
  {
  }

  /** Every operation on the table keeps every session consistent. */
  lemma OperationsKeepTableOk(t: Table, id: string, extra: seq<Step>, outcome: SolveOutcome,
                              structure: Option<string>, words: Option<string>,
                              sessionId: Option<string>, clock: string, files: set<string>)
    requires TableOk(t)
    ensures TableOk(Start(t, structure, words, sessionId, clock, files).0)
    ensures TableOk(Poll(t, id).0)
    ensures id in t ==> TableOk(WithSteps(t, id, extra))
    ensures id in t ==> TableOk(Finish(t, id, outcome))
  {
  }

  // ------------------------------------------------------------------
  // No step is lost or handed out twice
  // ------------------------------------------------------------------

  /** What can happen to one session while the client polls it. */
  datatype Event = Queued(step: Step) | Polled | Ended(outcome: SolveOutcome)

  /** The steps a run of events queues. */
  function QueuedSteps(evs: seq<Event>): seq<Step>
  {
    if evs == [] then []
    else (if evs[0].Queued? then [evs[0].step] else []) + QueuedSteps(evs[1..])
  }

  /** The table after one event on session `id`, and the steps a poll hands out. */
  function ApplyEvent(t: Table, id: string, e: Event): (Table, seq<Step>)
    requires id in t
  {
    match e
    case Queued(step) => (WithSteps(t, id, [step]), [])
    case Polled => (Poll(t, id).0, Poll(t, id).1.response.steps)
    case Ended(outcome) => (Finish(t, id, outcome), [])
  }

  /** The table after a run of events on session `id`, and the steps the polls handed out. */
  function RunEvents(t: Table, id: string, evs: seq<Event>): (Table, seq<Step>)
    requires id in t
    decreases |evs|
  {
    if evs == [] then (t, [])
    else
      var (t1, out) := ApplyEvent(t, id, evs[0]);
      var (t2, rest) := RunEvents(t1, id, evs[1..]);
      (t2, out + rest)
  }

  /** One event: what a poll hands out, then what stays queued, is what was queued before, then the event's step. */
  lemma EventKeepsSteps(t: Table, id: string, e: Event)
    requires id in t
    ensures var (t1, out) := ApplyEvent(t, id, e);
      id in t1 && out + t1[id].steps == t[id].steps + (if e.Queued? then [e.step] else [])
  {
    if e.Polled? {
      PollDrains(t, id);
    }
  }

  /**
   * Whatever the interleaving of queueing, polling and finishing, the steps
   * handed out followed by the steps still queued are the steps that were
   * queued, in order: none is lost, none is repeated.
   */
  lemma {:induction false} NoStepLostOrRepeated(t: Table, id: string, evs: seq<Event>)
    requires id in t
    ensures var (t', out) := RunEvents(t, id, evs);
      id in t' && out + t'[id].steps == t[id].steps + QueuedSteps(evs)
    decreases |evs|
  {
    if evs != [] {
      var (t1, out) := ApplyEvent(t, id, evs[0]);
      var head := if evs[0].Queued? then [evs[0].step] else [];
      EventKeepsSteps(t, id, evs[0]);
      NoStepLostOrRepeated(t1, id, evs[1..]);
      var (t2, rest) := RunEvents(t1, id, evs[1..]);
      calc {
        (out + rest) + t2[id].steps;
        out + (rest + t2[id].steps);
        out + (t1[id].steps + QueuedSteps(evs[1..]));
        (out + t1[id].steps) + QueuedSteps(evs[1..]);
        (t[id].steps + head) + QueuedSteps(evs[1..]);
        t[id].steps + (head + QueuedSteps(evs[1..]));
      }
    }
  }

  // ------------------------------------------------------------------
  // The table as a mutable object
  // ------------------------------------------------------------------

  class SessionStore {
    var sessions: Table

    constructor ()
      ensures sessions == map[]
    {
      sessions := map[];
    }

    method StartGeneration(structure: Option<string>, words: Option<string>,
                           sessionId: Option<string>, clock: string, files: set<string>)
      returns (reply: StartReply)
      modifies this
      ensures (sessions, reply) == Start(old(sessions), structure, words, sessionId, clock, files)
    {
      if !Truthy(structure) || !Truthy(words) {
        return Rejected(SelectBothError);
      }
      if structure.value !in files || words.value !in files {
        return Rejected(MissingFilesError);
      }
      var id := if sessionId.Some? then sessionId.value else clock;
      sessions := sessions[id := FreshSession];
      reply := Started(id);
    }

    /** add_step's append to the session's queue. */
    method AppendStep(id: string, step: Step)
      requires id in sessions
      modifies this
      ensures sessions == WithSteps(old(sessions), id, [step])
    {
      var s := sessions[id];
      sessions := sessions[id := s.(steps := s.steps + [step])];
    }

    method FinishSession(id: string, outcome: SolveOutcome)
      requires id in sessions
      modifies this
      ensures sessions == Finish(old(sessions), id, outcome)
    {
      var s := sessions[id];
      match outcome {
        case NoSolution =>
          s := s.(error := Some(NoSolutionError));
        case Solved(r) =>
          s := s.(result := Some(r));
        case Raised(m) =>
          s := s.(error := Some(m));
      }
      sessions := sessions[id := s.(complete := true)];
    }

    method GetSolvingProgress(id: string) returns (reply: ProgressReply)
      modifies this
      ensures (sessions, reply) == Poll(old(sessions), id)
    {
      if id !in sessions {
        return SessionNotFound;
      }
      var s := sessions[id];
      var response := ProgressResponse(s.steps, s.complete, s.error, None);
      if s.complete && s.result.Some? {
        response := response.(result := s.result);
      }
      sessions := sessions[id := s.(steps := [])];
      reply := Progress(response);
    }
  }
}
