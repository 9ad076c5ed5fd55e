/**
 * The values that cross the HTTP boundary between the Flask server (app.py)
 * and the browser client (static/js/script.js): solver steps, grid snapshots
 * and progress responses, as JSON carries them.
 */
module Protocol {

  datatype Option<+T> = None | Some(value: T)

  /** The five step types the instrumented search emits (app.py:272-338). */
  datatype StepType = SelectVariable | TryWord | PlaceWord | Backtrack | RejectWord

  /**
   * How many of `ts` are `t`: the reference both the server's search and the
   * client's counters are measured against.
   */
  function Occurrences(ts: seq<StepType>, t: StepType): nat
    decreases |ts|
  {
    if ts == [] then 0 else (if ts[0] == t then 1 else 0) + Occurrences(ts[1..], t)
  }

  lemma {:induction false} OccurrencesAppend(a: seq<StepType>, b: seq<StepType>, t: StepType)
    ensures Occurrences(a + b, t) == Occurrences(a, t) + Occurrences(b, t)
    decreases |a|
  {
    if a == [] {
      assert a + b == b;
    } else {
      assert (a + b)[1..] == a[1..] + b;
      OccurrencesAppend(a[1..], b, t);
    }
  }

  /**
   * A crossword slot: its first cell (i, j), its direction and its length.
   * The direction is kept as the string the server sends ("across" or "down");
   * the client compares it against those two literals and ignores anything else.
   */
  datatype Variable = Variable(i: int, j: int, direction: string, length: int)

  const Across: string := "across"
  const Down: string := "down"

  /** A serialised grid cell: {type: 'cell' | 'blocked', letter}. */
  datatype CellKind = Cell | Blocked
  datatype GridCell = GridCell(kind: CellKind, letter: string)
  type Grid = seq<seq<GridCell>>

  /**
   * The `data` object of a step. Each key is optional in JSON; which keys a
   * step carries depends on its type (see ServerSearch).
   */
  datatype StepData = StepData(
    variable: Option<Variable>,
    word: Option<string>,
    grid: Option<Grid>,
    assignmentSize: Option<nat>,
    reason: Option<string>)

  /** One queued step: {step: number, type, data} (the timestamp is not modelled). */
  datatype Step = Step(number: nat, stepType: StepType, data: StepData)

  /** The `result` object of a finished session. */
  datatype FinalResult = FinalResult(grid: Grid, image: string, width: nat, height: nat)

  /**
   * A progress response as the client reads it. A reply without `steps` or
   * `complete` (the 404 for an unknown session) reads as no steps, not complete.
   */
  datatype ProgressResponse = ProgressResponse(
    steps: seq<Step>,
    complete: bool,
    error: Option<string>,
    result: Option<FinalResult>)

  /** JavaScript truthiness of an optional string: null and "" are falsy. */
  predicate Truthy(s: Option<string>)
  {
    s.Some? && s.value != ""
  }
}
