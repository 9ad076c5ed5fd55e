/**
 * AnimatedCrosswordCreator in app.py: the recursive backtracking search that
 * reports every decision as a step in the session's queue, and the
 * background solve that runs it and finishes the session.
 *
 * The solver's own primitives (the domains left after the consistency
 * passes, select_unassigned_variable, consistent, letter_grid) belong to
 * files that are not part of this model; they are the fields of `Problem`,
 * constrained only by `WellFormed`. `Search` and `TryValues` are the trace
 * and the result of backtrack as functions; `Creator.Backtrack` is the
 * method proved against them.
 */
module ServerSearch {
  import opened Protocol
  import opened ServerGrid
  import opened ServerSessions

  type Assignment = map<Variable, string>

  const InconsistentReason: string := "inconsistent"

  /** The crossword and the inherited solver primitives the search calls. */
  datatype Problem = Problem(
    domains: map<Variable, seq<string>>,
    selectUnassigned: Assignment -> Variable,
    consistent: Assignment -> bool,
    letterGrid: Assignment -> seq<seq<Option<char>>>,
    structure: seq<seq<bool>>,
    height: nat,
    width: nat)

  /**
   * What the search relies on: the structure and every letter grid cover the
   * board, and while some variable is unassigned, select_unassigned_variable
   * returns one of them.
   */
  ghost predicate WellFormed(p: Problem)
  {
    && Covers(p.structure, p.height, p.width)
    && (forall a: Assignment {:trigger p.letterGrid(a)} :: Covers(p.letterGrid(a), p.height, p.width))
    && (forall a: Assignment {:trigger p.selectUnassigned(a)} :: a.Keys < p.domains.Keys ==>
          p.selectUnassigned(a) in p.domains && p.selectUnassigned(a) !in a)
  }

  /** An assignment the search can be handed: it only assigns known variables. */
  predicate Partial(p: Problem, a: Assignment)
  {
    a.Keys <= p.domains.Keys
  }

  /** get_current_grid(assignment). */
  function GridOf(p: Problem, a: Assignment): Grid
    requires WellFormed(p)
  {
    Serialise(p.structure, p.letterGrid(a), p.height, p.width)
  }

  // ------------------------------------------------------------------
  // The emitted steps, before add_step numbers them
  // ------------------------------------------------------------------

  datatype Emission = Emission(stepType: StepType, data: StepData)

  /** select_variable: the variable and len(assignment). */
  function Announce(v: Variable, size: nat): Emission
  {
    Emission(SelectVariable, StepData(Some(v), None, None, Some(size), None))
  }

  /** try_word, place_word and backtrack: the variable, the word and a grid. */
  function Attempt(t: StepType, v: Variable, w: string, g: Grid): Emission
  {
    Emission(t, StepData(Some(v), Some(w), Some(g), None, None))
  }

  /** reject_word: the variable, the word and the reason, but no grid. */
  function Reject(v: Variable, w: string): Emission
  {
    Emission(RejectWord, StepData(Some(v), Some(w), None, None, Some(InconsistentReason)))
  }

  datatype Outcome = Outcome(result: Option<Assignment>, trace: seq<Emission>)

  /** Assigning an unassigned variable leaves one variable fewer to fill. */
  lemma ExtendShrinks(p: Problem, a: Assignment, v: Variable, w: string)
    requires Partial(p, a) && v in p.domains && v !in a
    ensures Partial(p, a[v := w])
    ensures |p.domains.Keys - a[v := w].Keys| < |p.domains.Keys - a.Keys|
  {
    assert p.domains.Keys - a[v := w].Keys == (p.domains.Keys - a.Keys) - {v};
  }

  lemma ExtendSize(a: Assignment, v: Variable, w: string)
    requires v !in a
    ensures |a[v := w]| == |a| + 1
  {
    assert a[v := w].Keys == a.Keys + {v};
  }

  lemma SameSizeSubset<T>(x: set<T>, y: set<T>)
    requires x <= y && |x| == |y|
    ensures x == y
  {
    assert y == x + (y - x);
    assert x * (y - x) == {};
    assert y - x == {};
  }

  /**
   * backtrack's `len(assignment) == len(self.domains)` test: on an
   * assignment of known variables, equal sizes mean every variable is assigned.
   */
  lemma CompleteIff(p: Problem, a: Assignment)
    requires Partial(p, a)
    ensures |a| == |p.domains| <==> a.Keys == p.domains.Keys
  {
    assert |a.Keys| == |a| && |p.domains.Keys| == |p.domains|;
    if |a| == |p.domains| {
      SameSizeSubset(a.Keys, p.domains.Keys);
    }
  }

  /** An incomplete assignment leaves a variable for select_unassigned_variable. */
  lemma IncompleteSelects(p: Problem, a: Assignment)
    requires WellFormed(p) && Partial(p, a) && |a| != |p.domains|
    ensures p.selectUnassigned(a) in p.domains && p.selectUnassigned(a) !in a
  {
    CompleteIff(p, a);
  }

  /**
   * backtrack(assignment): a complete assignment is returned as it is;
   * otherwise one variable is selected and announced, and its domain values
   * are tried in order.
   */
  function Search(p: Problem, a: Assignment): Outcome
    requires WellFormed(p) && Partial(p, a)
    decreases |p.domains.Keys - a.Keys|, 2, 0
  {
    if |a| == |p.domains| then Outcome(Some(a), [])
    else
      IncompleteSelects(p, a);
      var v := p.selectUnassigned(a);
      var o := TryValues(p, a, v, p.domains[v]);
      Outcome(o.result, [Announce(v, |a|)] + o.trace)
  }

  /**
   * The `for value in self.domains[variable]` loop over the values still to
   * try: it stops at the first value whose attempt finds a solution.
   */
  function TryValues(p: Problem, a: Assignment, v: Variable, values: seq<string>): Outcome
    requires WellFormed(p) && Partial(p, a) && v in p.domains && v !in a
    decreases |p.domains.Keys - a.Keys|, 1, |values|
  {
    if values == [] then Outcome(None, [])
    else
      var head := TryHead(p, a, v, values[0]);
      if head.result.Some? then head
      else
        var rest := TryValues(p, a, v, values[1..]);
        Outcome(rest.result, head.trace + rest.trace)
  }

  /**
   * One pass of the loop body for `value`: the attempt is announced with the
   * grid it would give; an inconsistent value is rejected, a consistent one
   * placed and searched from.
   */
  function TryHead(p: Problem, a: Assignment, v: Variable, w: string): Outcome
    requires WellFormed(p) && Partial(p, a) && v in p.domains && v !in a
    decreases |p.domains.Keys - a.Keys|, 0, 1
  {
    var tried := Attempt(TryWord, v, w, GridOf(p, a[v := w]));
    if !p.consistent(a[v := w]) then Outcome(None, [tried] + [Reject(v, w)])
    else
      var o := Placed(p, a, v, w);
      Outcome(o.result, [tried] + o.trace)
  }

  /**
   * The consistent branch: the value is placed, the search goes on from the
   * extended assignment, and when that fails the value is undone with a
   * backtrack step showing the grid without it.
   */
  function Placed(p: Problem, a: Assignment, v: Variable, w: string): Outcome
    requires WellFormed(p) && Partial(p, a) && v in p.domains && v !in a && p.consistent(a[v := w])
    decreases |p.domains.Keys - a.Keys|, 0, 0
  {
    ExtendShrinks(p, a, v, w);
    var placed := Attempt(PlaceWord, v, w, GridOf(p, a[v := w]));
    var sub := Search(p, a[v := w]);
    if sub.result.Some? then Outcome(sub.result, [placed] + sub.trace)
    else Outcome(None, [placed] + sub.trace + [Attempt(StepType.Backtrack, v, w, GridOf(p, a))])
  }

  // ------------------------------------------------------------------
  // What the search returns
  // ------------------------------------------------------------------

  /** `r` keeps every assignment of `a`. */
  predicate Extends(r: Assignment, a: Assignment)
  {
    forall k :: k in a ==> k in r && r[k] == a[k]
  }

  /** Every variable `r` assigns beyond `a` gets a value from its domain. */
  predicate Drawn(p: Problem, r: Assignment, a: Assignment)
  {
    forall k :: k in r && k !in a ==> k in p.domains && r[k] in p.domains[k]
  }

  /**
   * A complete assignment is returned unchanged with no steps, and only a
   * complete one: any other call starts with its select_variable step.
   */
  lemma SearchComplete(p: Problem, a: Assignment)
    requires WellFormed(p) && Partial(p, a)
    ensures Search(p, a).trace == [] <==> a.Keys == p.domains.Keys
    ensures a.Keys == p.domains.Keys ==> Search(p, a).result == Some(a)
    ensures a.Keys != p.domains.Keys ==> Search(p, a).trace[0] == Announce(p.selectUnassigned(a), |a|)
  {
    CompleteIff(p, a);
  }

  /**
   * A found solution extends the assignment the search started from, assigns
   * every variable, takes each new value from its variable's domain, and is
   * consistent (unless it is the starting assignment itself, which backtrack
   * returns without checking).
   */
  lemma {:induction false} SearchSound(p: Problem, a: Assignment)
    requires WellFormed(p) && Partial(p, a)
    ensures var o := Search(p, a);
      o.result.Some? ==>
        && Extends(o.result.value, a)
        && o.result.value.Keys == p.domains.Keys
        && Drawn(p, o.result.value, a)
        && (o.result.value == a || p.consistent(o.result.value))
    decreases |p.domains.Keys - a.Keys|, 2, 0
  {
    CompleteIff(p, a);
    if |a| != |p.domains| {
      IncompleteSelects(p, a);
      var v := p.selectUnassigned(a);
      TryValuesSound(p, a, v, p.domains[v]);
    }
  }

  /** The loop's part: a solution fixes `v` to one of `values` and is consistent. */
  lemma {:induction false} TryValuesSound(p: Problem, a: Assignment, v: Variable, values: seq<string>)
    requires WellFormed(p) && Partial(p, a) && v in p.domains && v !in a
    ensures var o := TryValues(p, a, v, values);
      o.result.Some? ==>
        && v in o.result.value && o.result.value[v] in values
        && Extends(o.result.value, a[v := o.result.value[v]])
        && o.result.value.Keys == p.domains.Keys
        && Drawn(p, o.result.value, a[v := o.result.value[v]])
        && p.consistent(o.result.value)
    decreases |p.domains.Keys - a.Keys|, 1, |values|
  {
    if values != [] {
      TryHeadSound(p, a, v, values[0]);
      TryValuesSound(p, a, v, values[1..]);
    }
  }

  lemma {:induction false} TryHeadSound(p: Problem, a: Assignment, v: Variable, w: string)
    requires WellFormed(p) && Partial(p, a) && v in p.domains && v !in a
    ensures var o := TryHead(p, a, v, w);
      o.result.Some? ==>
        && v in o.result.value && o.result.value[v] == w
        && Extends(o.result.value, a[v := w])
        && o.result.value.Keys == p.domains.Keys
        && Drawn(p, o.result.value, a[v := w])
        && p.consistent(o.result.value)
    decreases |p.domains.Keys - a.Keys|, 0, 1
  {
    if p.consistent(a[v := w]) {
      PlacedSound(p, a, v, w);
    }
  }

  lemma {:induction false} PlacedSound(p: Problem, a: Assignment, v: Variable, w: string)
    requires WellFormed(p) && Partial(p, a) && v in p.domains && v !in a && p.consistent(a[v := w])
    ensures var o := Placed(p, a, v, w);
      o.result.Some? ==>
        && v in o.result.value && o.result.value[v] == w
        && Extends(o.result.value, a[v := w])
        && o.result.value.Keys == p.domains.Keys
        && Drawn(p, o.result.value, a[v := w])
        && p.consistent(o.result.value)
    decreases |p.domains.Keys - a.Keys|, 0, 0
  {
    ExtendShrinks(p, a, v, w);
    SearchSound(p, a[v := w]);
  }

  // ------------------------------------------------------------------
  // How the steps balance
  // ------------------------------------------------------------------

  function Kinds(trace: seq<Emission>): (ts: seq<StepType>)
    ensures |ts| == |trace|
    ensures forall i :: 0 <= i < |trace| ==> ts[i] == trace[i].stepType
  {
    seq(|trace|, i requires 0 <= i < |trace| => trace[i].stepType)
  }

  /** How many steps of type `t` a trace holds. */
  function Count(trace: seq<Emission>, t: StepType): nat
  {
    Occurrences(Kinds(trace), t)
  }

  lemma CountAppend(x: seq<Emission>, y: seq<Emission>)
    ensures forall t :: Count(x + y, t) == Count(x, t) + Count(y, t)
  {
    assert Kinds(x + y) == Kinds(x) + Kinds(y);
    forall t {
      OccurrencesAppend(Kinds(x), Kinds(y), t);
    }
  }

  lemma CountSingle(e: Emission)
    ensures forall t :: Count([e], t) == if e.stepType == t then 1 else 0
  {
    forall t
      ensures Count([e], t) == if e.stepType == t then 1 else 0
    {
      var ks := Kinds([e]);
      assert ks == [e.stepType] && ks[1..] == [];
      assert Occurrences(ks, t) == (if ks[0] == t then 1 else 0) + Occurrences(ks[1..], t);
    }
  }

  /**
   * The counts a trace keeps in balance: every try_word step is answered by
   * a place_word or a reject_word step; on failure every placement was undone
   * by a backtrack step, and on success the placements not undone are the
   * `filled` variables the search assigned.
   */
  predicate Balanced(o: Outcome, filled: int)
  {
    && Count(o.trace, TryWord) == Count(o.trace, PlaceWord) + Count(o.trace, RejectWord)
    && (o.result.None? ==> Count(o.trace, PlaceWord) == Count(o.trace, StepType.Backtrack))
    && (o.result.Some? ==> Count(o.trace, PlaceWord) == Count(o.trace, StepType.Backtrack) + filled)
  }

  /**
   * Over a whole search, tries equal placements plus rejections; a failed
   * search undoes every placement, and a successful one keeps exactly one
   * placement per variable that was unassigned.
   */
  lemma {:induction false} SearchCounts(p: Problem, a: Assignment)
    requires WellFormed(p) && Partial(p, a)
    ensures Balanced(Search(p, a), |p.domains| - |a|)
    decreases |p.domains.Keys - a.Keys|, 2, 0
  {
    if |a| != |p.domains| {
      IncompleteSelects(p, a);
      var v := p.selectUnassigned(a);
      TryValuesCounts(p, a, v, p.domains[v]);
      CountSingle(Announce(v, |a|));
      CountAppend([Announce(v, |a|)], TryValues(p, a, v, p.domains[v]).trace);
    }
  }

  lemma {:induction false} TryValuesCounts(p: Problem, a: Assignment, v: Variable, values: seq<string>)
    requires WellFormed(p) && Partial(p, a) && v in p.domains && v !in a
    ensures Balanced(TryValues(p, a, v, values), |p.domains| - |a|)
    decreases |p.domains.Keys - a.Keys|, 1, |values|
  {
    if values != [] {
      var head := TryHead(p, a, v, values[0]);
      TryHeadCounts(p, a, v, values[0]);
      if head.result.None? {
        TryValuesCounts(p, a, v, values[1..]);
        CountAppend(head.trace, TryValues(p, a, v, values[1..]).trace);
      }
    }
  }

  lemma {:induction false} TryHeadCounts(p: Problem, a: Assignment, v: Variable, w: string)
    requires WellFormed(p) && Partial(p, a) && v in p.domains && v !in a
    ensures Balanced(TryHead(p, a, v, w), |p.domains| - |a|)
    decreases |p.domains.Keys - a.Keys|, 0, 1
  {
    var tried := Attempt(TryWord, v, w, GridOf(p, a[v := w]));
    CountSingle(tried);
    if p.consistent(a[v := w]) {
      PlacedCounts(p, a, v, w);
      CountAppend([tried], Placed(p, a, v, w).trace);
    } else {
      CountSingle(Reject(v, w));
      CountAppend([tried], [Reject(v, w)]);
    }
  }

  /** The consistent branch holds one place_word step more than it has try_word steps. */
  lemma {:induction false} PlacedCounts(p: Problem, a: Assignment, v: Variable, w: string)
    requires WellFormed(p) && Partial(p, a) && v in p.domains && v !in a && p.consistent(a[v := w])
    ensures var o := Placed(p, a, v, w);
      && Count(o.trace, TryWord) + 1 == Count(o.trace, PlaceWord) + Count(o.trace, RejectWord)
      && (o.result.None? ==> Count(o.trace, PlaceWord) == Count(o.trace, StepType.Backtrack))
      && (o.result.Some? ==> Count(o.trace, PlaceWord) == Count(o.trace, StepType.Backtrack) + |p.domains| - |a|)
    decreases |p.domains.Keys - a.Keys|, 0, 0
  {
    var a' := a[v := w];
    ExtendShrinks(p, a, v, w);
    ExtendSize(a, v, w);
    var placed := Attempt(PlaceWord, v, w, GridOf(p, a'));
    var sub := Search(p, a');
    SearchCounts(p, a');
    CountSingle(placed);
    CountAppend([placed], sub.trace);
    if sub.result.None? {
      var back := Attempt(StepType.Backtrack, v, w, GridOf(p, a));
      CountSingle(back);
      CountAppend([placed] + sub.trace, [back]);
    }
  }

  // ------------------------------------------------------------------
  // Which values are tried
  // ------------------------------------------------------------------

  /** The words a trace tries for `v`, in order. */
  function Tried(trace: seq<Emission>, v: Variable): seq<string>
    decreases |trace|
  {
    if trace == [] then []
    else
      var e := trace[0];
      (if e.stepType == TryWord && e.data.variable == Some(v) && e.data.word.Some? then [e.data.word.value] else [])
      + Tried(trace[1..], v)
  }

  lemma {:induction false} TriedAppend(x: seq<Emission>, y: seq<Emission>, v: Variable)
    ensures Tried(x + y, v) == Tried(x, v) + Tried(y, v)
    decreases |x|
  {
    if x == [] {
      assert x + y == y;
    } else {
      assert (x + y)[1..] == x[1..] + y;
      TriedAppend(x[1..], y, v);
    }
  }

  lemma TriedSingle(e: Emission, v: Variable)
    ensures Tried([e], v)
         == if e.stepType == TryWord && e.data.variable == Some(v) && e.data.word.Some? then [e.data.word.value] else []
  {
    assert [e][1..] == [];
  }

  lemma {:induction false} TriedNothing(trace: seq<Emission>, v: Variable)
    requires forall i :: 0 <= i < |trace| ==> trace[i].data.variable != Some(v)
    ensures Tried(trace, v) == []
    decreases |trace|
  {
    if trace != [] {
      TriedNothing(trace[1..], v);
    }
  }

  /** Every step names a variable that was unassigned when the call began. */
  predicate Avoids(trace: seq<Emission>, a: Assignment)
  {
    forall i :: 0 <= i < |trace| ==> trace[i].data.variable.Some? && trace[i].data.variable.value !in a
  }

  lemma {:induction false} SearchAvoids(p: Problem, a: Assignment)
    requires WellFormed(p) && Partial(p, a)
    ensures Avoids(Search(p, a).trace, a)
    decreases |p.domains.Keys - a.Keys|, 2, 0
  {
    if |a| != |p.domains| {
      IncompleteSelects(p, a);
      TryValuesAvoids(p, a, p.selectUnassigned(a), p.domains[p.selectUnassigned(a)]);
    }
  }

  lemma {:induction false} TryValuesAvoids(p: Problem, a: Assignment, v: Variable, values: seq<string>)
    requires WellFormed(p) && Partial(p, a) && v in p.domains && v !in a
    ensures Avoids(TryValues(p, a, v, values).trace, a)
    decreases |p.domains.Keys - a.Keys|, 1, |values|
  {
    if values != [] {
      TryHeadAvoids(p, a, v, values[0]);
      TryValuesAvoids(p, a, v, values[1..]);
    }
  }

  lemma {:induction false} TryHeadAvoids(p: Problem, a: Assignment, v: Variable, w: string)
    requires WellFormed(p) && Partial(p, a) && v in p.domains && v !in a
    ensures Avoids(TryHead(p, a, v, w).trace, a)
    ensures Tried(TryHead(p, a, v, w).trace, v) == [w]
    decreases |p.domains.Keys - a.Keys|, 0, 1
  {
    var tried := Attempt(TryWord, v, w, GridOf(p, a[v := w]));
    TriedSingle(tried, v);
    if p.consistent(a[v := w]) {
      PlacedAvoids(p, a, v, w);
      TriedAppend([tried], Placed(p, a, v, w).trace, v);
    } else {
      TriedSingle(Reject(v, w), v);
      TriedAppend([tried], [Reject(v, w)], v);
    }
  }

  /** The consistent branch names only unassigned variables and tries no word for `v`. */
  lemma {:induction false} PlacedAvoids(p: Problem, a: Assignment, v: Variable, w: string)
    requires WellFormed(p) && Partial(p, a) && v in p.domains && v !in a && p.consistent(a[v := w])
    ensures Avoids(Placed(p, a, v, w).trace, a)
    ensures Tried(Placed(p, a, v, w).trace, v) == []
    decreases |p.domains.Keys - a.Keys|, 0, 0
  {
    var a' := a[v := w];
    ExtendShrinks(p, a, v, w);
    var placed := Attempt(PlaceWord, v, w, GridOf(p, a'));
    var sub := Search(p, a');
    SearchAvoids(p, a');
    AvoidsWiden(sub.trace, a, v, w);
    AvoidsAppend([placed], sub.trace, a);
    TriedNothing(sub.trace, v);
    TriedSingle(placed, v);
    TriedAppend([placed], sub.trace, v);
    if sub.result.None? {
      var back := Attempt(StepType.Backtrack, v, w, GridOf(p, a));
      AvoidsAppend([placed] + sub.trace, [back], a);
      TriedSingle(back, v);
      TriedAppend([placed] + sub.trace, [back], v);
    }
  }

  lemma AvoidsAppend(x: seq<Emission>, y: seq<Emission>, a: Assignment)
    requires Avoids(x, a) && Avoids(y, a)
    ensures Avoids(x + y, a)
  {
    forall i | 0 <= i < |x + y|
      ensures (x + y)[i].data.variable.Some? && (x + y)[i].data.variable.value !in a
    {
      if i >= |x| {
        assert (x + y)[i] == y[i - |x|];
      }
    }
  }

  /** A trace that avoids `a` with `v` assigned avoids `a` itself. */
  lemma AvoidsWiden(trace: seq<Emission>, a: Assignment, v: Variable, w: string)
    requires Avoids(trace, a[v := w])
    ensures Avoids(trace, a)
  {
    forall i | 0 <= i < |trace|
      ensures trace[i].data.variable.Some? && trace[i].data.variable.value !in a
    {
      assert trace[i].data.variable.value !in a[v := w];
    }
  }

  /**
   * The values of the variable being filled are tried in domain order, each
   * at most once: a failed loop has tried every value, and a successful one
   * stopped at the value the solution uses.
   */
  lemma {:induction false} TryValuesInOrder(p: Problem, a: Assignment, v: Variable, values: seq<string>)
    requires WellFormed(p) && Partial(p, a) && v in p.domains && v !in a
    ensures var o := TryValues(p, a, v, values);
      && (o.result.None? ==> Tried(o.trace, v) == values)
      && (o.result.Some? ==>
            && v in o.result.value
            && exists k :: 0 <= k < |values| && Tried(o.trace, v) == values[..k + 1] && o.result.value[v] == values[k])
    decreases |values|
  {
    if values != [] {
      var head := TryHead(p, a, v, values[0]);
      TryHeadAvoids(p, a, v, values[0]);
      TryHeadSound(p, a, v, values[0]);
      if head.result.Some? {
        assert values[..1] == [values[0]];
      } else {
        var rest := TryValues(p, a, v, values[1..]);
        TryValuesInOrder(p, a, v, values[1..]);
        TriedAppend(head.trace, rest.trace, v);
        TryValuesStep(values, rest, v);
      }
    }
  }

  /** The inductive step of TryValuesInOrder once `values[0]` has been tried. */
  lemma TryValuesStep(values: seq<string>, rest: Outcome, v: Variable)
    requires values != []
    requires rest.result.None? ==> Tried(rest.trace, v) == values[1..]
    requires rest.result.Some? ==>
      && v in rest.result.value
      && exists k :: 0 <= k < |values[1..]| && Tried(rest.trace, v) == values[1..][..k + 1] && rest.result.value[v] == values[1..][k]
    ensures rest.result.None? ==> [values[0]] + Tried(rest.trace, v) == values
    ensures rest.result.Some? ==>
      exists k :: 0 <= k < |values| && [values[0]] + Tried(rest.trace, v) == values[..k + 1] && rest.result.value[v] == values[k]
  {
    if rest.result.Some? {
      var k :| 0 <= k < |values[1..]| && Tried(rest.trace, v) == values[1..][..k + 1] && rest.result.value[v] == values[1..][k];
      assert [values[0]] + values[1..][..k + 1] == values[..k + 2];
    }
  }

  // ------------------------------------------------------------------
  // What each step carries
  // ------------------------------------------------------------------

  /**
   * The data keys a step of each type carries: every step names its
   * variable; select_variable adds the assignment size; try_word,
   * place_word and backtrack add the word and a full board; reject_word
   * adds the word and the reason, and no grid.
   */
  predicate Shaped(p: Problem, e: Emission)
  {
    && e.data.variable.Some?
    && match e.stepType
       case SelectVariable =>
         e.data.assignmentSize.Some? && e.data.word.None? && e.data.grid.None?
       case RejectWord =>
         e.data.word.Some? && e.data.grid.None? && e.data.reason == Some(InconsistentReason)
       case _ =>
         && e.data.word.Some? && e.data.grid.Some? && e.data.reason.None?
         && |e.data.grid.value| == p.height
         && (forall r :: 0 <= r < p.height ==> |e.data.grid.value[r]| == p.width)
  }

  /** A try_word step is followed at once by its place_word or reject_word. */
  predicate Answered(trace: seq<Emission>)
  {
    forall i :: 0 <= i < |trace| && trace[i].stepType == TryWord ==>
      && i + 1 < |trace|
      && (trace[i + 1].stepType == PlaceWord || trace[i + 1].stepType == RejectWord)
      && trace[i + 1].data.variable == trace[i].data.variable
      && trace[i + 1].data.word == trace[i].data.word
  }

  predicate WellShaped(p: Problem, trace: seq<Emission>)
  {
    (forall i :: 0 <= i < |trace| ==> Shaped(p, trace[i])) && Answered(trace)
  }

  lemma WellShapedAppend(p: Problem, x: seq<Emission>, y: seq<Emission>)
    requires WellShaped(p, x) && WellShaped(p, y)
    ensures WellShaped(p, x + y)
  {
    forall i | 0 <= i < |x + y| && (x + y)[i].stepType == TryWord
      ensures i + 1 < |x + y|
      ensures ((x + y)[i + 1].stepType == PlaceWord || (x + y)[i + 1].stepType == RejectWord)
      ensures (x + y)[i + 1].data.variable == (x + y)[i].data.variable
      ensures (x + y)[i + 1].data.word == (x + y)[i].data.word
    {
      if i < |x| {
        assert x[i].stepType == TryWord;
      } else {
        assert y[i - |x|].stepType == TryWord;
      }
    }
  }

  /**
   * A try_word, place_word or backtrack step carries a full board; alone, a
   * place_word or backtrack step is a well-shaped trace.
   */
  lemma BoardShaped(p: Problem, t: StepType, v: Variable, w: string, a: Assignment)
    requires WellFormed(p) && (t == TryWord || t == PlaceWord || t == StepType.Backtrack)
    ensures Shaped(p, Attempt(t, v, w, GridOf(p, a)))
    ensures t != TryWord ==> WellShaped(p, [Attempt(t, v, w, GridOf(p, a))])
  {
    SerialiseRoundTrip(p.structure, p.letterGrid(a), p.height, p.width);
  }

  /** A step put in front of a well-shaped trace that answers it when it is a try. */
  lemma WellShapedCons(p: Problem, e: Emission, y: seq<Emission>)
    requires Shaped(p, e) && WellShaped(p, y)
    requires e.stepType == TryWord ==>
      && |y| > 0 && (y[0].stepType == PlaceWord || y[0].stepType == RejectWord)
      && y[0].data.variable == e.data.variable && y[0].data.word == e.data.word
    ensures WellShaped(p, [e] + y)
  {
    forall i | 0 <= i < |[e] + y| && ([e] + y)[i].stepType == TryWord
      ensures i + 1 < |[e] + y|
      ensures (([e] + y)[i + 1].stepType == PlaceWord || ([e] + y)[i + 1].stepType == RejectWord)
      ensures ([e] + y)[i + 1].data.variable == ([e] + y)[i].data.variable
      ensures ([e] + y)[i + 1].data.word == ([e] + y)[i].data.word
    {
      if i > 0 {
        assert y[i - 1].stepType == TryWord;
      }
    }
  }

  lemma {:induction false} SearchShaped(p: Problem, a: Assignment)
    requires WellFormed(p) && Partial(p, a)
    ensures WellShaped(p, Search(p, a).trace)
    decreases |p.domains.Keys - a.Keys|, 2, 0
  {
    if |a| != |p.domains| {
      IncompleteSelects(p, a);
      var v := p.selectUnassigned(a);
      TryValuesShaped(p, a, v, p.domains[v]);
      WellShapedAppend(p, [Announce(v, |a|)], TryValues(p, a, v, p.domains[v]).trace);
    }
  }

  lemma {:induction false} TryValuesShaped(p: Problem, a: Assignment, v: Variable, values: seq<string>)
    requires WellFormed(p) && Partial(p, a) && v in p.domains && v !in a
    ensures WellShaped(p, TryValues(p, a, v, values).trace)
    decreases |p.domains.Keys - a.Keys|, 1, |values|
  {
    if values != [] {
      var head := TryHead(p, a, v, values[0]);
      TryHeadShaped(p, a, v, values[0]);
      if head.result.None? {
        TryValuesShaped(p, a, v, values[1..]);
        WellShapedAppend(p, head.trace, TryValues(p, a, v, values[1..]).trace);
      }
    }
  }

  lemma {:induction false} TryHeadShaped(p: Problem, a: Assignment, v: Variable, w: string)
    requires WellFormed(p) && Partial(p, a) && v in p.domains && v !in a
    ensures WellShaped(p, TryHead(p, a, v, w).trace)
    decreases |p.domains.Keys - a.Keys|, 0, 1
  {
    var tried := Attempt(TryWord, v, w, GridOf(p, a[v := w]));
    BoardShaped(p, TryWord, v, w, a[v := w]);
    if p.consistent(a[v := w]) {
      PlacedShaped(p, a, v, w);
      WellShapedCons(p, tried, Placed(p, a, v, w).trace);
    } else {
      assert WellShaped(p, [Reject(v, w)]);
      WellShapedCons(p, tried, [Reject(v, w)]);
    }
  }

  /** The consistent branch is well shaped and opens with its place_word step. */
  lemma {:induction false} PlacedShaped(p: Problem, a: Assignment, v: Variable, w: string)
    requires WellFormed(p) && Partial(p, a) && v in p.domains && v !in a && p.consistent(a[v := w])
    ensures WellShaped(p, Placed(p, a, v, w).trace)
    ensures Placed(p, a, v, w).trace[0] == Attempt(PlaceWord, v, w, GridOf(p, a[v := w]))
    decreases |p.domains.Keys - a.Keys|, 0, 0
  {
    var a' := a[v := w];
    ExtendShrinks(p, a, v, w);
    var placed := Attempt(PlaceWord, v, w, GridOf(p, a'));
    var sub := Search(p, a');
    SearchShaped(p, a');
    BoardShaped(p, PlaceWord, v, w, a');
    WellShapedAppend(p, [placed], sub.trace);
    if sub.result.None? {
      BoardShaped(p, StepType.Backtrack, v, w, a);
      WellShapedAppend(p, [placed] + sub.trace, [Attempt(StepType.Backtrack, v, w, GridOf(p, a))]);
    }
  }

  // ------------------------------------------------------------------
  // add_step numbering and the creator object
  // ------------------------------------------------------------------

  /** The trace as add_step queues it, numbered from `first` on. */
  function Numbered(trace: seq<Emission>, first: nat): (steps: seq<Step>)
    ensures |steps| == |trace|
    ensures forall i :: 0 <= i < |trace| ==>
      steps[i].number == first + i && steps[i].stepType == trace[i].stepType && steps[i].data == trace[i].data
  {
    seq(|trace|, i requires 0 <= i < |trace| => Step(first + i, trace[i].stepType, trace[i].data))
  }

  /** Numbering a trace in two pieces continues the count across the seam. */
  lemma NumberedAppend(x: seq<Emission>, y: seq<Emission>, first: nat)
    ensures Numbered(x + y, first) == Numbered(x, first) + Numbered(y, first + |x|)
  {
  }

  /** Queueing `more` after `done` is queueing `done + more`, numbered on. */
  lemma QueueMore(t: Table, id: string, done: seq<Emission>, more: seq<Emission>, first: nat)
    requires id in t
    ensures WithSteps(WithSteps(t, id, Numbered(done, first)), id, Numbered(more, first + |done|))
         == WithSteps(t, id, Numbered(done + more, first))
  {
    WithStepsTwice(t, id, Numbered(done, first), Numbered(more, first + |done|));
    NumberedAppend(done, more, first);
  }

  /** Appending in two steps is appending the two pieces at once. */
  lemma AppendTwice<T>(x: seq<T>, y: seq<T>, z: seq<T>)
    ensures x + y + z == x + (y + z)
  {
  }

  /**
   * AnimatedCrosswordCreator: the search object. It queues its steps on its
   * session in the shared table and numbers them from 1 on. `emitted` is
   * every step it has queued so far, before numbering, and `base` is the
   * table as it was when the creator was made.
   */
  class Creator {
    const problem: Problem
    const sessionId: string
    const store: SessionStore
    var stepCount: nat
    ghost const base: Table
    ghost var emitted: seq<Emission>

    /** The session's queue is what it held before, then every emitted step, numbered. */
    ghost predicate Valid()
      reads this, store
    {
      && sessionId in base
      && stepCount == |emitted|
      && store.sessions == WithSteps(base, sessionId, Numbered(emitted, 1))
    }

    constructor (problem: Problem, sessionId: string, store: SessionStore)
      requires sessionId in store.sessions
      ensures this.problem == problem && this.sessionId == sessionId && this.store == store
      ensures base == store.sessions && emitted == [] && Valid()
    {
      this.problem := problem;
      this.sessionId := sessionId;
      this.store := store;
      stepCount := 0;
      base := store.sessions;
      emitted := [];
      new;
      assert store.sessions[sessionId].steps + [] == store.sessions[sessionId].steps;
    }

    /** add_step: number the step one past the last and queue it. */
    method AddStep(e: Emission)
      requires Valid()
      modifies this, store
      ensures Valid() && emitted == old(emitted) + [e]
    {
      stepCount := stepCount + 1;
      store.AppendStep(sessionId, Step(stepCount, e.stepType, e.data));
      assert Numbered([e], 1 + |emitted|) == [Step(stepCount, e.stepType, e.data)];
      QueueMore(base, sessionId, emitted, [e], 1);
      emitted := emitted + [e];
    }

    /**
     * One pass of backtrack's loop body, for the value `w` of `v`: the
     * attempt is queued with the grid it would give, then the value is
     * rejected, or placed and searched from.
     */
    method TryValue(a: Assignment, v: Variable, w: string) returns (result: Option<Assignment>)
      requires WellFormed(problem) && Partial(problem, a) && v in problem.domains && v !in a
      requires Valid()
      modifies this, store
      ensures Valid()
      ensures result == TryHead(problem, a, v, w).result
      ensures emitted == old(emitted) + TryHead(problem, a, v, w).trace
      decreases |problem.domains.Keys - a.Keys|, 0, 1
    {
      var copy := a[v := w];
      var grid := GetCurrentGrid(problem.structure, problem.letterGrid(copy), problem.height, problem.width);
      ghost var e0 := emitted;
      var tried := Attempt(TryWord, v, w, grid);
      AddStep(tried);
      if problem.consistent(copy) {
        result := PlaceAndSearch(a, v, w, grid);
        AppendTwice(e0, [tried], Placed(problem, a, v, w).trace);
      } else {
        AddStep(Reject(v, w));
        AppendTwice(e0, [tried], [Reject(v, w)]);
        result := None;
      }
    }

    /** The consistent branch: place the value, search on, and undo it when that fails. */
    method PlaceAndSearch(a: Assignment, v: Variable, w: string, grid: Grid) returns (result: Option<Assignment>)
      requires WellFormed(problem) && Partial(problem, a) && v in problem.domains && v !in a
      requires problem.consistent(a[v := w]) && grid == GridOf(problem, a[v := w])
      requires Valid()
      modifies this, store
      ensures Valid()
      ensures result == Placed(problem, a, v, w).result
      ensures emitted == old(emitted) + Placed(problem, a, v, w).trace
      decreases |problem.domains.Keys - a.Keys|, 0, 0
    {
      var copy := a[v := w];
      ghost var e0 := emitted;
      var placed := Attempt(PlaceWord, v, w, grid);
      AddStep(placed);
      ExtendShrinks(problem, a, v, w);
      result := Backtrack(copy);
      ghost var sub := Search(problem, copy).trace;
      AppendTwice(e0, [placed], sub);
      if result.None? {
        Undo(a, v, w);
        AppendTwice(e0, [placed] + sub, [Attempt(StepType.Backtrack, v, w, GridOf(problem, a))]);
      }
    }

    /** The backtrack step after a failed search, with the grid without the value. */
    method Undo(a: Assignment, v: Variable, w: string)
      requires WellFormed(problem) && Valid()
      modifies this, store
      ensures Valid() && emitted == old(emitted) + [Attempt(StepType.Backtrack, v, w, GridOf(problem, a))]
    {
      var current := GetCurrentGrid(problem.structure, problem.letterGrid(a), problem.height, problem.width);
      AddStep(Attempt(StepType.Backtrack, v, w, current));
    }

    /**
     * backtrack: returns what `Search` returns, and queues `Search`'s trace
     * after the steps queued before.
     */
    method Backtrack(a: Assignment) returns (result: Option<Assignment>)
      requires WellFormed(problem) && Partial(problem, a) && Valid()
      modifies this, store
      ensures Valid()
      ensures result == Search(problem, a).result
      ensures emitted == old(emitted) + Search(problem, a).trace
      decreases |problem.domains.Keys - a.Keys|, 2, 0
    {
      if |a| == |problem.domains| {
        assert emitted == old(emitted) + [];
        return Some(a);
      }
      IncompleteSelects(problem, a);
      var v := problem.selectUnassigned(a);
      AddStep(Announce(v, |a|));
      result := TryDomain(a, v);
      AppendTwice(old(emitted), [Announce(v, |a|)], TryValues(problem, a, v, problem.domains[v]).trace);
    }

    /** backtrack's `for value in self.domains[variable]` loop; `rest` holds the values not yet tried. */
    method TryDomain(a: Assignment, v: Variable) returns (result: Option<Assignment>)
      requires WellFormed(problem) && Partial(problem, a) && v in problem.domains && v !in a && Valid()
      modifies this, store
      ensures Valid()
      ensures result == TryValues(problem, a, v, problem.domains[v]).result
      ensures emitted == old(emitted) + TryValues(problem, a, v, problem.domains[v]).trace
      decreases |problem.domains.Keys - a.Keys|, 1, |problem.domains[v]| + 1
    {
      ghost var o := TryValues(problem, a, v, problem.domains[v]);
      ghost var e0 := emitted;
      ghost var done: seq<Emission> := [];
      var rest := problem.domains[v];
      while rest != []
        invariant Valid() && emitted == e0 + done
        invariant o.result == TryValues(problem, a, v, rest).result
        invariant o.trace == done + TryValues(problem, a, v, rest).trace
        decreases |rest|
      {
        var w := rest[0];
        var r := TryValue(a, v, w);
        AppendTwice(e0, done, TryHead(problem, a, v, w).trace);
        if r.Some? {
          return r;
        }
        AppendTwice(done, TryHead(problem, a, v, w).trace, TryValues(problem, a, v, rest[1..]).trace);
        done := done + TryHead(problem, a, v, w).trace;
        rest := rest[1..];
      }
      result := None;
    }
  }

  // ------------------------------------------------------------------
  // The background solve
  // ------------------------------------------------------------------

  /** The session's final result for a solution: its board, picture and size. */
  function ResultOf(p: Problem, r: Assignment, render: Assignment -> string): FinalResult
    requires WellFormed(p)
  {
    FinalResult(GridOf(p, r), render(r), p.width, p.height)
  }

  /** How the solve ends: no solution, or the solution's result. */
  function SolveEnd(p: Problem, render: Assignment -> string): SolveOutcome
    requires WellFormed(p)
  {
    var o := Search(p, map[]);
    if o.result.None? then NoSolution else Solved(ResultOf(p, o.result.value, render))
  }

  /**
   * solve_with_tracking: when loading the crossword raises, the session ends
   * with that message; otherwise the search runs from the empty assignment,
   * queues its trace from step 1 on, and the session ends with "No solution
   * found" or with the result.
   */
  method SolveWithTracking(store: SessionStore, id: string, p: Problem,
                           loadError: Option<string>, render: Assignment -> string)
    requires WellFormed(p) && id in store.sessions
    modifies store
    ensures loadError.Some? ==> store.sessions == Finish(old(store.sessions), id, Raised(loadError.value))
    ensures loadError.None? ==>
      store.sessions == Finish(WithSteps(old(store.sessions), id, Numbered(Search(p, map[]).trace, 1)), id, SolveEnd(p, render))
  {
    if loadError.Some? {
      store.FinishSession(id, Raised(loadError.value));
      return;
    }
    var creator := new Creator(p, id, store);
    var assignment := creator.Backtrack(map[]);
    assert creator.emitted == Search(p, map[]).trace;
    if assignment.None? {
      store.FinishSession(id, NoSolution);
      return;
    }
    var grid := GetCurrentGrid(p.structure, p.letterGrid(assignment.value), p.height, p.width);
    store.FinishSession(id, Solved(FinalResult(grid, render(assignment.value), p.width, p.height)));
  }
}
