/**
 * The pure parts of the browser client's step replay (static/js/script.js):
 * how a step moves the three counters, what log entry it produces, which
 * cells of a grid snapshot it highlights and with which status, and the
 * word-list preview.
 */
module ClientReplay {
  import opened Protocol

  function Min(a: int, b: int): int { if a <= b then a else b }

  // ---------------------------------------------------------------------------
  // Solving statistics (updateSolvingStats)
  // ---------------------------------------------------------------------------

  datatype Stats = Stats(attempts: nat, backtracks: nat, placements: nat)

  /** The counters a new generation starts from. */
  const ZeroStats: Stats := Stats(0, 0, 0)

  /** One step's effect on the counters. */
  function CountStep(s: Stats, t: StepType): Stats
  {
    match t
    case TryWord => s.(attempts := s.attempts + 1)
    case PlaceWord => s.(placements := s.placements + 1)
    case Backtrack => s.(backtracks := s.backtracks + 1)
    case SelectVariable => s
    case RejectWord => s
  }

  /** The counters after replaying the step types `ts` in order from `s`. */
  function FoldStats(s: Stats, ts: seq<StepType>): Stats
    decreases |ts|
  {
    if ts == [] then s else FoldStats(CountStep(s, ts[0]), ts[1..])
  }

  function Types(steps: seq<Step>): (ts: seq<StepType>)
    ensures |ts| == |steps|
    ensures forall k :: 0 <= k < |steps| ==> ts[k] == steps[k].stepType
  {
    seq(|steps|, k requires 0 <= k < |steps| => steps[k].stepType)
  }

  /**
   * Folding the counters over any sequence of steps adds exactly the number of
   * try_word steps to attempts, of backtrack steps to backtracks and of
   * place_word steps to placements; select_variable and reject_word add nothing.
   */
  lemma {:induction false} FoldStatsCounts(s: Stats, ts: seq<StepType>)
    ensures FoldStats(s, ts) == Stats(
      s.attempts + Occurrences(ts, TryWord),
      s.backtracks + Occurrences(ts, Backtrack),
      s.placements + Occurrences(ts, PlaceWord))
    decreases |ts|
  {
    if ts != [] {
      FoldStatsCounts(CountStep(s, ts[0]), ts[1..]);
    }
  }

  /** Replaying two batches one after the other is replaying their concatenation. */
  lemma {:induction false} FoldStatsAppend(s: Stats, a: seq<StepType>, b: seq<StepType>)
    ensures FoldStats(s, a + b) == FoldStats(FoldStats(s, a), b)
    decreases |a|
  {
    if a != [] {
      assert (a + b)[1..] == a[1..] + b;
      FoldStatsAppend(CountStep(s, a[0]), a[1..], b);
    } else {
      assert a + b == b;
    }
  }

  lemma {:induction false} TypesAppend(a: seq<Step>, b: seq<Step>)
    ensures Types(a + b) == Types(a) + Types(b)
  {
  }

  // ---------------------------------------------------------------------------
  // Solving log (updateSolvingLog)
  // ---------------------------------------------------------------------------

  /** The largest number of entries the log keeps. */
  const MaxLogEntries: nat := 50

  /** The message of a log entry; a missing word prints as `undefined`. */
  datatype LogMessage =
    | SelectingVariable(variable: Variable)
    | TryingWord(word: Option<string>)
    | PlacedWord(word: Option<string>)
    | BacktrackingFrom(word: Option<string>)
    | RejectedWord(word: Option<string>)

  datatype LogEntry = LogEntry(stepType: StepType, message: LogMessage)

  /**
   * The entry a step appends to the log. A select_variable step reads
   * `step.data.variable.i`, which throws when the step has no variable: None.
   */
  function LogEntryOf(step: Step): (e: Option<LogEntry>)
    ensures e.None? <==> step.stepType == SelectVariable && step.data.variable.None?
    ensures e.Some? ==> e.value.stepType == step.stepType
  {
    match step.stepType
    case SelectVariable =>
      if step.data.variable.Some?
      then Some(LogEntry(SelectVariable, SelectingVariable(step.data.variable.value)))
      else None
    case TryWord => Some(LogEntry(TryWord, TryingWord(step.data.word)))
    case PlaceWord => Some(LogEntry(PlaceWord, PlacedWord(step.data.word)))
    case Backtrack => Some(LogEntry(Backtrack, BacktrackingFrom(step.data.word)))
    case RejectWord => Some(LogEntry(RejectWord, RejectedWord(step.data.word)))
  }

  /** A step the log can render without throwing. */
  predicate Loggable(step: Step)
  {
    step.stepType != SelectVariable || step.data.variable.Some?
  }

  predicate AllLoggable(steps: seq<Step>)
  {
    forall k :: 0 <= k < |steps| ==> Loggable(steps[k])
  }

  /** The entries of a run of loggable steps, in order. */
  function Entries(steps: seq<Step>): (es: seq<LogEntry>)
    requires AllLoggable(steps)
    ensures |es| == |steps|
    ensures forall k :: 0 <= k < |steps| ==> Some(es[k]) == LogEntryOf(steps[k])
  {
    seq(|steps|, k requires 0 <= k < |steps| => LogEntryOf(steps[k]).value)
  }

  lemma {:induction false} EntriesAppend(a: seq<Step>, b: seq<Step>)
    requires AllLoggable(a) && AllLoggable(b)
    ensures AllLoggable(a + b)
    ensures Entries(a + b) == Entries(a) + Entries(b)
  {
    assert forall k :: 0 <= k < |a + b| ==> (a + b)[k] == if k < |a| then a[k] else b[k - |a|];
  }

  /** The last `n` elements of `s` (all of `s` when it is shorter). */
  function LastN<T>(s: seq<T>, n: nat): (r: seq<T>)
  {
    if |s| <= n then s else s[|s| - n..]
  }

  /**
   * Trimming after every append keeps exactly what trimming once at the end
   * keeps: the log is always the most recent `n` entries in arrival order.
   */
  lemma {:induction false} LastNAppend<T>(s: seq<T>, e: T, n: nat)
    requires n > 0
    ensures LastN(LastN(s, n) + [e], n) == LastN(s + [e], n)
  {
    if |s| > n {
      var t := s[|s| - n..];
      assert |t + [e]| == n + 1;
      assert (t + [e])[1..] == (s + [e])[|s| + 1 - n..];
    }
  }

  lemma {:induction false} LastNConcat<T>(s: seq<T>, a: seq<T>, b: seq<T>, n: nat)
    requires n > 0
    ensures LastN(LastN(s + a, n) + b, n) == LastN(s + a + b, n)
    decreases |b|
  {
    if b != [] {
      var last := b[|b| - 1];
      var init := b[..|b| - 1];
      assert b == init + [last];
      LastNConcat(s, a, init, n);
      assert LastN(s + a, n) + b == (LastN(s + a, n) + init) + [last];
      assert s + a + b == (s + a + init) + [last];
      LastNAppend(LastN(s + a, n) + init, last, n);
      LastNAppend(s + a + init, last, n);
    }
  }

  // ---------------------------------------------------------------------------
  // Highlighted cells (updateVisualizationGrid)
  // ---------------------------------------------------------------------------

  /**
   * Whether cell (row, col) lies in the slot `v`: along row i from column j for
   * an across slot, along column j from row i for a down slot, `length` cells;
   * for any other direction no cell does.
   */
  predicate Spans(v: Variable, row: int, col: int)
  {
    if v.direction == Across then row == v.i && v.j <= col < v.j + v.length
    else if v.direction == Down then col == v.j && v.i <= row < v.i + v.length
    else false
  }

  /** The extra status class a highlighted cell carries. */
  datatype Status = Success | Error | Trying

  function StatusOf(t: StepType): Option<Status>
  {
    match t
    case PlaceWord => Some(Success)
    case RejectWord => Some(Error)
    case TryWord => Some(Trying)
    case SelectVariable => None
    case Backtrack => None
  }

  /** The classes a rendered cell gets beyond its cell type. */
  datatype Mark = Mark(highlight: bool, status: Option<Status>)

  function MarkAt(row: int, col: int, t: StepType, data: StepData): Mark
  {
    if data.variable.Some? && Spans(data.variable.value, row, col)
    then Mark(true, StatusOf(t))
    else Mark(false, None)
  }

  datatype VisCell = VisCell(cell: GridCell, mark: Mark)

  /** The visualisation grid drawn for a step: every cell of the snapshot with its mark. */
  function RenderGrid(grid: Grid, t: StepType, data: StepData): (r: seq<seq<VisCell>>)
    ensures |r| == |grid|
    ensures forall a :: 0 <= a < |grid| ==> |r[a]| == |grid[a]|
    ensures forall a, b :: 0 <= a < |grid| && 0 <= b < |grid[a]| ==>
      r[a][b] == VisCell(grid[a][b], MarkAt(a, b, t, data))
  {
    seq(|grid|, a requires 0 <= a < |grid| =>
      seq(|grid[a]|, b requires 0 <= b < |grid[a]| => VisCell(grid[a][b], MarkAt(a, b, t, data))))
  }

  /** The positions of a rendered grid that carry the highlight class. */
  ghost function Highlighted(vis: seq<seq<VisCell>>): set<(int, int)>
  {
    set a, b | 0 <= a < |vis| && 0 <= b < |vis[a]| && vis[a][b].mark.highlight :: (a, b)
  }

  /** The k-th cell of a slot, counted from its first cell. */
  function SpanCell(v: Variable, k: int): (int, int)
  {
    if v.direction == Across then (v.i, v.j + k) else (v.i + k, v.j)
  }

  /** The first n cells of a slot, built one cell at a time. */
  function SpanPrefix(v: Variable, n: nat): set<(int, int)>
  {
    if n == 0 then {} else SpanPrefix(v, n - 1) + {SpanCell(v, n - 1)}
  }

  predicate KnownDirection(v: Variable)
  {
    v.direction == Across || v.direction == Down
  }

  lemma {:induction false} SpanPrefixMembers(v: Variable, n: nat)
    requires KnownDirection(v)
    ensures |SpanPrefix(v, n)| == n
    ensures forall p :: p in SpanPrefix(v, n) <==> Spans(v.(length := n), p.0, p.1)
  {
    if n > 0 {
      SpanPrefixMembers(v, n - 1);
      assert SpanCell(v, n - 1) !in SpanPrefix(v, n - 1);
    }
  }

  /** The slot lies inside the snapshot. */
  ghost predicate FitsIn(v: Variable, grid: Grid)
  {
    forall a, b :: Spans(v, a, b) ==> 0 <= a < |grid| && 0 <= b < |grid[a]|
  }

  /**
   * For a step whose slot has a known direction and lies inside the snapshot,
   * the highlighted cells are exactly the `length` cells of the slot, each
   * tagged with the step type's status, and no other cell carries a status.
   */
  lemma HighlightIsSlot(grid: Grid, t: StepType, data: StepData, v: Variable)
    requires data.variable == Some(v) && KnownDirection(v) && v.length >= 0
    requires FitsIn(v, grid)
    ensures Highlighted(RenderGrid(grid, t, data)) == SpanPrefix(v, v.length)
    ensures |Highlighted(RenderGrid(grid, t, data))| == v.length
    ensures forall a, b :: 0 <= a < |grid| && 0 <= b < |grid[a]| ==>
      RenderGrid(grid, t, data)[a][b].mark.status ==
        (if Spans(v, a, b) then StatusOf(t) else None)
  {
    var vis := RenderGrid(grid, t, data);
    SpanPrefixMembers(v, v.length);
    assert v.(length := v.length) == v;
    forall p | p in Highlighted(vis) ensures p in SpanPrefix(v, v.length) {
      assert vis[p.0][p.1].mark.highlight;
    }
    forall p | p in SpanPrefix(v, v.length) ensures p in Highlighted(vis) {
      assert Spans(v, p.0, p.1);
      assert vis[p.0][p.1].mark.highlight;
    }
  }

  /** Without a slot, or with a direction other than across and down, nothing is highlighted. */
  lemma NothingHighlighted(grid: Grid, t: StepType, data: StepData)
    requires data.variable.None? || !KnownDirection(data.variable.value)
    ensures Highlighted(RenderGrid(grid, t, data)) == {}
  {
    var vis: seq<seq<VisCell>> := RenderGrid(grid, t, data);
    forall a: int, b: int | 0 <= a < |vis| && 0 <= b < |vis[a]| ensures !vis[a][b].mark.highlight {
    }
    assert forall p :: p !in Highlighted(vis);
  }

  // ---------------------------------------------------------------------------
  // Word-list preview (displayWordsPreview)
  // ---------------------------------------------------------------------------

  /** How many words the preview shows before summarising the rest. */
  const PreviewLimit: nat := 10

  /** A preview tag: one upper-cased word, or "+N more". */
  datatype WordTag = WordTag(text: string) | MoreTag(count: nat)

  /** Upper-casing of the ASCII letters; every other character is kept. */
  function ToUpperChar(c: char): char
  {
    if 'a' <= c <= 'z' then (c as int - 32) as char else c
  }

  function ToUpper(s: string): (r: string)
    ensures |r| == |s|
    ensures forall k :: 0 <= k < |s| ==> r[k] == ToUpperChar(s[k])
  {
    seq(|s|, k requires 0 <= k < |s| => ToUpperChar(s[k]))
  }

  function WordsPreview(words: seq<string>): (r: seq<WordTag>)
  {
    var n := Min(|words|, PreviewLimit);
    seq(n, k requires 0 <= k < n => WordTag(ToUpper(words[k])))
      + (if |words| > PreviewLimit then [MoreTag(|words| - PreviewLimit)] else [])
  }

  /** How many words a run of tags stands for. */
  function Represented(tags: seq<WordTag>): nat
    decreases |tags|
  {
    if tags == [] then 0
    else (match tags[0] case WordTag(_) => 1 case MoreTag(c) => c) + Represented(tags[1..])
  }

  lemma {:induction false} RepresentedAppend(a: seq<WordTag>, b: seq<WordTag>)
    ensures Represented(a + b) == Represented(a) + Represented(b)
    decreases |a|
  {
    if a != [] {
      assert (a + b)[0] == a[0];
      assert (a + b)[1..] == a[1..] + b;
      RepresentedAppend(a[1..], b);
    } else {
      assert a + b == b;
    }
  }

  lemma {:induction false} RepresentedWords(tags: seq<WordTag>)
    requires forall k :: 0 <= k < |tags| ==> tags[k].WordTag?
    ensures Represented(tags) == |tags|
    decreases |tags|
  {
    if tags != [] {
      RepresentedWords(tags[1..]);
    }
  }

  /**
   * The preview shows the first min(n, 10) words upper-cased, in order, then
   * one "+(n-10) more" tag exactly when n > 10; together the tags stand for
   * all n words.
   */
  lemma WordsPreviewShape(words: seq<string>)
    ensures var r := WordsPreview(words);
      && |r| == Min(|words|, PreviewLimit) + (if |words| > PreviewLimit then 1 else 0)
      && (forall k :: 0 <= k < Min(|words|, PreviewLimit) ==> r[k] == WordTag(ToUpper(words[k])))
      && (|words| > PreviewLimit ==> r[PreviewLimit] == MoreTag(|words| - PreviewLimit))
      && (forall k :: 0 <= k < |r| && r[k].MoreTag? ==> |words| > PreviewLimit)
      && Represented(r) == |words|
  {
    var n := Min(|words|, PreviewLimit);
    var shown := seq(n, k requires 0 <= k < n => WordTag(ToUpper(words[k])));
    var more: seq<WordTag> := if |words| > PreviewLimit then [MoreTag(|words| - PreviewLimit)] else [];
    assert WordsPreview(words) == shown + more;
    RepresentedAppend(shown, more);
    RepresentedWords(shown);
    if |words| > PreviewLimit {
      assert Represented(more) == |words| - PreviewLimit by {
        assert more[1..] == [];
      }
      assert WordsPreview(words)[n] == MoreTag(|words| - PreviewLimit);
    }
  }
}
