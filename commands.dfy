/**
 * What each `KanbanBoard` command does to the board, as functions from the
 * state before the call to the state after it (and, for the paths where the
 * Python code raises, the fault it raises). The class in module Kanban is
 * proved against these functions; the properties of each command are lemmas
 * in module CommandFacts.
 *
 * Everything the program gets from outside is an `Env`: the similarity score
 * of fuzzywuzzy, the stream of values behind `random.choices`, the date
 * parser behind `set_task_deadline` and the text `show_help` prints.
 */
module Commands {
  import opened Wrappers
  import opened Tokens
  import opened Fuzzy
  import opened Board

  /**
   * What `dateparser.parse` followed by `strftime` yields: a formatted stamp,
   * `None` (whose `.strftime` raises AttributeError) or a ValueError.
   */
  datatype ParsedDate = Date(stamp: string) | NoDate | ParseError

  datatype Env = Env(score: Scorer, rng: nat -> nat, parseDate: string -> ParsedDate, helpText: string)

  /** The exceptions the command paths of the source can raise. */
  datatype Fault =
    | LowerOfNone     // `None.lower()` in `find_column_case_insensitive`
    | KeyOfNone       // `self.columns[None]`
    | UnpackNone      // unpacking the `None` that `process.extractOne` returns for no candidates
    | StrftimeOfNone  // `None.strftime(...)` in `set_task_deadline`

  datatype Outcome = Continue | Exited | Crashed(fault: Fault)

  /** The mutable state of a `KanbanBoard`: `columns`, `output`, and how many random values were drawn. */
  datatype State = State(cols: seq<Column>, log: seq<string>, draws: nat)

  datatype Step = Step(st: State, outcome: Outcome)

  // ---------------------------------------------------------------------------
  // The output log

  function Newlines(n: int): (s: string)
    ensures |s| == if n <= 0 then 0 else n
    ensures forall i :: 0 <= i < |s| ==> s[i] == '\n'
    decreases n
  {
    if n <= 0 then "" else "\n" + Newlines(n - 1)
  }

  /** The entry `add_to_output(msg, newline, bold)` appends. */
  function Entry(msg: string, newline: int, bold: bool): string {
    Newlines(newline) + (if bold then "[bold]" + msg + "[/bold]" else "-- " + msg)
  }

  /** `add_to_output(msg)` with its defaults. */
  function Log(st: State, msg: string): State {
    st.(log := st.log + [Entry(msg, 1, false)])
  }

  function MissNote(name: string): string {
    Entry("Column '" + name + "' does not exist.", 1, false)
  }

  // ---------------------------------------------------------------------------
  // Column lookups

  datatype Lookup = Lookup(st: State, hit: Option<nat>)

  /** `find_column_case_insensitive(name)`: the position of the key, logging a miss. */
  function FindColumnCaseInsensitive(st: State, name: string): Lookup {
    var r := FindCI(st.cols, name);
    if r.None? then Lookup(Log(st, "Column '" + name + "' does not exist."), None) else Lookup(st, r)
  }

  /** A token range `params[start..end]` that names the column at position `col`. */
  datatype Piece = Piece(end: nat, col: nat)

  datatype Scan = Scan(st: State, hit: Option<Piece>)

  /** The miss entries logged while trying `params[start..m]` for `lo <= m < stop`. */
  function Misses(params: seq<string>, start: nat, lo: nat, stop: nat): seq<string>
    requires start <= lo <= stop <= |params| + 1
    decreases stop - lo
  {
    if lo == stop then [] else [MissNote(Join(params[start..lo]))] + Misses(params, start, lo + 1, stop)
  }

  /**
   * The prefix scans of `rename_column` and `swap_columns`: try
   * `params[start..m]` for `m = j, j + 1, ...` below `hi` and stop at the first
   * that names a column; every failed try logs a miss.
   */
  function PrefixScan(st: State, params: seq<string>, start: nat, j: nat, hi: nat): (r: Scan)
    requires start <= j <= hi <= |params| + 1
    ensures r.st.cols == st.cols && r.st.draws == st.draws
    ensures r.hit.Some? ==> j <= r.hit.value.end < hi && r.hit.value.col < |st.cols|
    decreases hi - j
  {
    if j == hi then Scan(st, None)
    else
      var l := FindColumnCaseInsensitive(st, Join(params[start..j]));
      if l.hit.Some? then Scan(l.st, Some(Piece(j, l.hit.value)))
      else PrefixScan(l.st, params, start, j + 1, hi)
  }

  /** A prefix scan stops at the first range that names a column, and reports that column. */
  lemma {:induction false} PrefixScanHit(st: State, params: seq<string>, start: nat, j: nat, hi: nat)
    requires start <= j <= hi <= |params| + 1
    ensures var r := PrefixScan(st, params, start, j, hi);
      && (r.hit.None? <==> forall m :: j <= m < hi ==> FindCI(st.cols, Join(params[start..m])).None?)
      && (r.hit.Some? ==>
        && FindCI(st.cols, Join(params[start..r.hit.value.end])) == Some(r.hit.value.col)
        && forall m :: j <= m < r.hit.value.end ==> FindCI(st.cols, Join(params[start..m])).None?)
    decreases hi - j
  {
    if j < hi {
      var l := FindColumnCaseInsensitive(st, Join(params[start..j]));
      if l.hit.None? {
        PrefixScanHit(l.st, params, start, j + 1, hi);
      }
    }
  }

  /** A prefix scan logs exactly one miss for each range it tried and found nothing under. */
  lemma {:induction false} PrefixScanLog(st: State, params: seq<string>, start: nat, j: nat, hi: nat)
    requires start <= j <= hi <= |params| + 1
    ensures var r := PrefixScan(st, params, start, j, hi);
      r.st.log == st.log + Misses(params, start, j, if r.hit.Some? then r.hit.value.end else hi)
    decreases hi - j
  {
    if j < hi {
      var name := Join(params[start..j]);
      var l := FindColumnCaseInsensitive(st, name);
      if l.hit.None? {
        PrefixScanLog(l.st, params, start, j + 1, hi);
        var r := PrefixScan(l.st, params, start, j + 1, hi);
        var stop := if r.hit.Some? then r.hit.value.end else hi;
        assert l.st.log == st.log + [MissNote(name)];
        assert r.st.log == st.log + ([MissNote(name)] + Misses(params, start, j + 1, stop));
      }
    }
  }

  // ---------------------------------------------------------------------------
  // Column commands

  /** `create_column(params)`. */
  function CreateColumn(st: State, params: seq<string>): State {
    var name := Join(params);
    if name !in Names(st.cols) then Log(st.(cols := AddColumn(st.cols, name)), "Column '" + name + "' added.")
    else Log(st, "Column '" + name + "' already exists.")
  }

  /** `destroy_column(params)`. A miss logs twice: the lookup's own entry, then one naming `None`. */
  function DestroyColumn(st: State, params: seq<string>): State {
    if params == [] then Log(st, "No column name provided.")
    else
      var l := FindColumnCaseInsensitive(st, Join(params));
      match l.hit
      case None => Log(l.st, "Column 'None' does not exist.")
      case Some(i) => Log(l.st.(cols := DeleteColumn(st.cols, i)), "Column '" + st.cols[i].name + "' removed.")
  }

  /** `remove_column(column_index)`. */
  function RemoveColumn(st: State, index: int): State {
    if 0 <= index < |st.cols| then
      Log(st.(cols := DeleteColumn(st.cols, index)), "Column '" + st.cols[index].name + "' destroyed.")
    else Log(st, "Invalid column index.")
  }

  /** `rename_column(params)`: the shortest prefix naming a column is the old name, the rest the new one. */
  function RenameColumn(st: State, params: seq<string>): State {
    if |params| < 2 then Log(st, "Insufficient parameters. Usage: rename <old column name> <new column name>")
    else
      var s := PrefixScan(st, params, 0, 1, |params|);
      match s.hit
      case None => Log(s.st, "Old column name not found.")
      case Some(p) =>
        var newName := Join(params[p.end..]);
        if newName in Names(st.cols) then Log(s.st, "A column with the name '" + newName + "' already exists.")
        else
          Log(s.st.(cols := Rekey(st.cols, p.col, newName)),
              "Column '" + st.cols[p.col].name + "' renamed to '" + newName + "'.")
  }

  /**
   * `swap_columns(params)`: the first column is the shortest prefix naming a
   * column, the second the shortest range after it that does. When either is
   * missing, `self.columns[None]` raises.
   */
  function SwapColumns(st: State, params: seq<string>): Step {
    if |params| < 2 then Step(Log(st, "Insufficient parameters. Usage: swap <column1> <column2>"), Continue)
    else
      var a := PrefixScan(st, params, 0, 1, |params|);
      match a.hit
      case None => Step(a.st, Crashed(KeyOfNone))
      case Some(p) =>
        var b := PrefixScan(a.st, params, p.end, p.end + 1, |params| + 1);
        match b.hit
        case None => Step(b.st, Crashed(KeyOfNone))
        case Some(q) =>
          Step(Log(b.st.(cols := SwapTasks(st.cols, p.col, q.col)),
                   "Columns '" + st.cols[p.col].name + "' and '" + st.cols[q.col].name + "' have been swapped."),
               Continue)
  }

  // ---------------------------------------------------------------------------
  // Unique ids

  function Pow26(n: nat): (r: nat)
    ensures r >= 1
  {
    if n == 0 then 1 else 26 * Pow26(n - 1)
  }

  /** The letter `random.choice(string.ascii_lowercase)` picks for a drawn value. */
  function Letter(v: nat): (c: char)
    ensures 'a' <= c <= 'z'
  {
    ('a' as int + v % 26) as char
  }

  predicate IsLowerWord(w: string) {
    forall i :: 0 <= i < |w| ==> 'a' <= w[i] <= 'z'
  }

  /** `''.join(random.choices(string.ascii_lowercase, k=length))`, using the values drawn from `next` on. */
  function Word(rng: nat -> nat, next: nat, length: nat): (w: string)
    ensures |w| == length && IsLowerWord(w)
  {
    var w := seq(length, i requires 0 <= i < length => Letter(rng(next + i)));
    assert forall i :: 0 <= i < length ==> w[i] == Letter(rng(next + i));
    w
  }

  lemma InBagIsShort(cols: seq<Column>, id: string)
    requires id in IdBag(cols)
    ensures |id| <= MaxIdLength(cols)
  {
  }

  /**
   * The search of `generate_unique_id` from `attempt` draws into the round for
   * ids of `length` letters. A round of 26^length draws can only end without
   * success while `length` is at most the longest id in use, since every word
   * longer than that is free.
   */
  function IdSearch(rng: nat -> nat, cols: seq<Column>, length: nat, attempt: nat, next: nat): (r: (string, nat))
    requires 1 <= length <= MaxIdLength(cols) + 1
    requires attempt <= Pow26(length)
    requires attempt > 0 ==> length <= MaxIdLength(cols)
    ensures 1 <= |r.0| <= MaxIdLength(cols) + 1 && IsLowerWord(r.0)
    ensures r.0 !in IdBag(cols)
    ensures r.1 >= next + |r.0|
    decreases MaxIdLength(cols) + 1 - length, Pow26(length) - attempt
  {
    if attempt == Pow26(length) then IdSearch(rng, cols, length + 1, 0, next)
    else
      var w := Word(rng, next, length);
      if w !in IdBag(cols) then (w, next + length)
      else
        InBagIsShort(cols, w);
        IdSearch(rng, cols, length, attempt + 1, next + length)
  }

  /** A draw of a word not in use ends the search with that word. */
  lemma IdSearchFree(rng: nat -> nat, cols: seq<Column>, length: nat, attempt: nat, next: nat)
    requires 1 <= length <= MaxIdLength(cols) + 1
    requires attempt < Pow26(length)
    requires attempt > 0 ==> length <= MaxIdLength(cols)
    requires Word(rng, next, length) !in IdBag(cols)
    ensures IdSearch(rng, cols, length, attempt, next) == (Word(rng, next, length), next + length)
  {
  }

  /** A draw that hits an id in use moves on to the next attempt; such a word is no longer than the longest id. */
  lemma IdSearchUsed(rng: nat -> nat, cols: seq<Column>, length: nat, attempt: nat, next: nat)
    requires 1 <= length <= MaxIdLength(cols) + 1
    requires attempt < Pow26(length)
    requires attempt > 0 ==> length <= MaxIdLength(cols)
    requires Word(rng, next, length) in IdBag(cols)
    ensures length <= MaxIdLength(cols)
    ensures IdSearch(rng, cols, length, attempt, next) == IdSearch(rng, cols, length, attempt + 1, next + length)
  {
  }

  /** A round that used up its 26^length draws goes on with words one letter longer. */
  lemma IdSearchRound(rng: nat -> nat, cols: seq<Column>, length: nat, next: nat)
    requires 1 <= length <= MaxIdLength(cols)
    ensures IdSearch(rng, cols, length, Pow26(length), next) == IdSearch(rng, cols, length + 1, 0, next)
  {
  }

  /** `generate_unique_id()`: the first drawn word that no task carries, and where the draws stop. */
  function GenerateUniqueId(rng: nat -> nat, cols: seq<Column>, next: nat): (string, nat) {
    IdSearch(rng, cols, 1, 0, next)
  }

  /**
   * The generated id is a non-empty word of lower-case ASCII letters that no
   * task on the board carries, at most one letter longer than the longest id
   * in use.
   */
  lemma GenerateUniqueIdSpec(rng: nat -> nat, cols: seq<Column>, next: nat)
    ensures var id := GenerateUniqueId(rng, cols, next).0;
      && 1 <= |id| <= MaxIdLength(cols) + 1
      && IsLowerWord(id)
      && !IdUsed(cols, id)
  {
    IdUsedIffInBag(cols, GenerateUniqueId(rng, cols, next).0);
  }

  // ---------------------------------------------------------------------------
  // Task commands

  /** Where `find_column_name` finds its column: a `to` at `at` whose suffix fuzzy-matches `name`. */
  datatype ColumnMatch = Matched(name: string, at: nat) | NotMatched | NoCandidates

  /** A token that is `to` (in any case) followed by tokens that resolve to a non-empty column name. */
  predicate TargetAt(score: Scorer, cols: seq<Column>, params: seq<string>, m: nat)
    requires m < |params|
  {
    && Lower(params[m]) == "to"
    && |cols| > 0
    && var b := BestMatch(score, Join(params[m + 1..]), Names(cols), DefaultThreshold); b.Some? && b.value != ""
  }

  /** The loop of `find_column_name` from position `i` on: it stops at the first `to` that resolves. */
  function MatchFrom(score: Scorer, cols: seq<Column>, params: seq<string>, i: nat): (r: ColumnMatch)
    requires i <= |params|
    ensures r.Matched? ==> i <= r.at < |params|
    decreases |params| - i
  {
    if i == |params| then NotMatched
    else if Lower(params[i]) == "to" then
      if |cols| == 0 then NoCandidates
      else
        var b := BestMatch(score, Join(params[i + 1..]), Names(cols), DefaultThreshold);
        if b.Some? && b.value != "" then Matched(b.value, i) else MatchFrom(score, cols, params, i + 1)
    else MatchFrom(score, cols, params, i + 1)
  }

  /** Where `find_column_name` stops, the `to` resolves, to the name it returns. */
  lemma {:induction false} MatchFromResolves(score: Scorer, cols: seq<Column>, params: seq<string>, i: nat)
    requires i <= |params| && MatchFrom(score, cols, params, i).Matched?
    ensures var r := MatchFrom(score, cols, params, i);
      && TargetAt(score, cols, params, r.at)
      && BestMatch(score, Join(params[r.at + 1..]), Names(cols), DefaultThreshold) == Some(r.name)
    decreases |params| - i
  {
    var r := MatchFrom(score, cols, params, i);
    if r.at != i {
      assert r == MatchFrom(score, cols, params, i + 1);
      MatchFromResolves(score, cols, params, i + 1);
    }
  }

  /** No `to` before the one `find_column_name` stops at resolves. */
  lemma {:induction false} MatchFromEarliest(score: Scorer, cols: seq<Column>, params: seq<string>, i: nat)
    requires i <= |params| && MatchFrom(score, cols, params, i).Matched?
    ensures forall m :: i <= m < MatchFrom(score, cols, params, i).at ==> !TargetAt(score, cols, params, m)
    decreases |params| - i
  {
    var r := MatchFrom(score, cols, params, i);
    if r.at != i {
      assert !TargetAt(score, cols, params, i);
      assert r == MatchFrom(score, cols, params, i + 1);
      MatchFromEarliest(score, cols, params, i + 1);
    }
  }

  /** `find_column_name` takes the FIRST `to` whose suffix resolves. */
  lemma MatchFromMatched(score: Scorer, cols: seq<Column>, params: seq<string>, i: nat)
    requires i <= |params| && MatchFrom(score, cols, params, i).Matched?
    ensures var r := MatchFrom(score, cols, params, i);
      && TargetAt(score, cols, params, r.at)
      && BestMatch(score, Join(params[r.at + 1..]), Names(cols), DefaultThreshold) == Some(r.name)
      && forall m :: i <= m < r.at ==> !TargetAt(score, cols, params, m)
  {
    MatchFromResolves(score, cols, params, i);
    MatchFromEarliest(score, cols, params, i);
  }

  /** `find_column_name` finds nothing exactly when no `to` has a suffix that resolves. */
  lemma {:induction false} MatchFromNotMatched(score: Scorer, cols: seq<Column>, params: seq<string>, i: nat)
    requires i <= |params| && MatchFrom(score, cols, params, i).NotMatched?
    ensures forall m :: i <= m < |params| ==> !TargetAt(score, cols, params, m)
    decreases |params| - i
  {
    if i < |params| {
      MatchFromNotMatched(score, cols, params, i + 1);
    }
  }

  /** `find_column_name` raises exactly when it reaches a `to` on a board without columns. */
  lemma {:induction false} MatchFromNoCandidates(score: Scorer, cols: seq<Column>, params: seq<string>, i: nat)
    requires i <= |params|
    ensures MatchFrom(score, cols, params, i).NoCandidates? <==>
      |cols| == 0 && exists m :: i <= m < |params| && Lower(params[m]) == "to"
    decreases |params| - i
  {
    if i < |params| {
      MatchFromNoCandidates(score, cols, params, i + 1);
    }
  }

  /** `find_column_name(params)`: logs when nothing resolves (it raises before logging when there are no columns). */
  function FindColumnName(score: Scorer, st: State, params: seq<string>): (State, ColumnMatch) {
    var m := MatchFrom(score, st.cols, params, 0);
    (if m.NotMatched? then Log(st, "Column name not found or invalid.") else st, m)
  }

  /** `add_task_to_column(description, name)` with `now` standing for `datetime.now()`. */
  function AddTaskToColumn(env: Env, st: State, description: string, name: string, now: string): Step {
    var l := FindColumnCaseInsensitive(st, name);
    var g := GenerateUniqueId(env.rng, st.cols, st.draws);
    var t := Task(g.0, description, now, Low, None);
    match l.hit
    case None => Step(l.st.(draws := g.1), Crashed(KeyOfNone))
    case Some(c) =>
      Step(Log(l.st.(cols := AppendTask(st.cols, c, t), draws := g.1), "Task added to column '" + st.cols[c].name + "'."),
           Continue)
  }

  /** `add_task(params)`. */
  function AddTask(env: Env, st: State, params: seq<string>, now: string): Step {
    if params == [] then Step(Log(st, "No task description provided."), Continue)
    else
      var f := FindColumnName(env.score, st, params);
      match f.1
      case NoCandidates => Step(f.0, Crashed(UnpackNone))
      case NotMatched => Step(f.0, Crashed(LowerOfNone))
      case Matched(name, at) =>
        var l := FindColumnCaseInsensitive(f.0, name);
        match l.hit
        case None => Step(Log(l.st, "Column name not found or invalid."), Continue)
        case Some(c) =>
          var description := Join(params[..at]);
          if description != "" then AddTaskToColumn(env, l.st, description, st.cols[c].name, now)
          else Step(Log(l.st, "No task description provided."), Continue)
  }

  /** `move_task_by_id(params)`. */
  function MoveTaskById(score: Scorer, st: State, params: seq<string>): Step {
    if |params| < 2 then Step(Log(st, "Insufficient parameters for moving a task."), Continue)
    else
      var id := params[0];
      match FirstWithId(st.cols, id)
      case None => Step(Log(st, "Task with ID " + id + " not found."), Continue)
      case Some(loc) =>
        FirstWithIdSpec(st.cols, id);
        var target := Join(params[1..]);
        match BestMatch(score, target, Names(st.cols), DefaultThreshold)
        case None => Step(Log(st, "Target column not found or invalid: " + target), Continue)
        case Some(b) =>
          var l := FindColumnCaseInsensitive(st, b);
          match l.hit
          case None => Step(l.st.(cols := RemoveTaskAt(st.cols, loc)), Crashed(KeyOfNone))
          case Some(c) =>
            Step(Log(l.st.(cols := MoveTask(st.cols, loc, c)), "Task " + id + " moved to " + st.cols[c].name + "."),
                 Continue)
  }

  /** `remove_task_by_id(params)`. */
  function RemoveTaskById(st: State, params: seq<string>): State {
    if params == [] then Log(st, "No task ID provided.")
    else
      var id := params[0];
      match FirstWithId(st.cols, id)
      case None => Log(st, "Task with ID " + id + " not found.")
      case Some(loc) =>
        FirstWithIdSpec(st.cols, id);
        Log(st.(cols := RemoveTaskAt(st.cols, loc)), "Task " + id + " removed from " + st.cols[loc.col].name + ".")
  }

  /** The priority level a lower-cased word names, if it names one. */
  function PriorityOf(level: string): Option<Priority> {
    if level == "high" then Some(High)
    else if level == "medium" then Some(Medium)
    else if level == "low" then Some(Low)
    else None
  }

  /** `prioritize_task(params)`: the level is checked before the task is looked up. */
  function PrioritizeTask(st: State, params: seq<string>): State {
    if |params| < 2 then Log(st, "Insufficient parameters. Usage: prioritize <task_id> <priority level>")
    else
      var id, level := params[0], Lower(params[1]);
      match PriorityOf(level)
      case None => Log(st, "Invalid priority level. Choose from high, medium, low.")
      case Some(p) =>
        match FirstWithId(st.cols, id)
        case None => Log(st, "Task with ID " + id + " not found.")
        case Some(loc) =>
          FirstWithIdSpec(st.cols, id);
          Log(st.(cols := UpdateTask(st.cols, loc, TaskAt(st.cols, loc).(priority := p))),
              "Priority of task " + id + " set to " + level + ".")
  }

  /** `set_task_deadline(params)`. */
  function SetTaskDeadline(env: Env, st: State, params: seq<string>): Step {
    if |params| < 2 then Step(Log(st, "Insufficient parameters. Usage: deadline [task_id] [deadline]"), Continue)
    else
      var id := params[0];
      match FirstWithId(st.cols, id)
      case None => Step(Log(st, "Task with ID " + id + " not found."), Continue)
      case Some(loc) =>
        FirstWithIdSpec(st.cols, id);
        match env.parseDate(Join(params[1..]))
        case Date(stamp) =>
          Step(Log(st.(cols := UpdateTask(st.cols, loc, TaskAt(st.cols, loc).(deadline := Some(stamp)))),
                   "Deadline for task " + id + " set to " + stamp + "."),
               Continue)
        case NoDate => Step(st, Crashed(StrftimeOfNone))
        case ParseError => Step(Log(st, "Invalid deadline format. Please provide a valid date."), Continue)
  }

  /** `edit_task(params)`: the property name is compared exactly; `deadline` and `due` go through `set_task_deadline`. */
  function EditTask(env: Env, st: State, params: seq<string>): Step {
    if |params| < 3 then Step(Log(st, "Insufficient parameters. Usage: edit [task_id] [property] [new_value]"), Continue)
    else
      var id, property, value := params[0], params[1], Join(params[2..]);
      match FirstWithId(st.cols, id)
      case None => Step(Log(st, "Task with ID " + id + " not found."), Continue)
      case Some(loc) =>
        FirstWithIdSpec(st.cols, id);
        if property != "description" && property != "deadline" && property != "due" then
          Step(Log(st, "Cannot edit '" + property + "'. Editable properties: description, deadline."), Continue)
        else if property == "deadline" || property == "due" then
          SetTaskDeadline(env, st, [id] + params[2..])
        else
          Step(Log(st.(cols := UpdateTask(st.cols, loc, TaskAt(st.cols, loc).(description := value))),
                   "Task " + id + " updated: " + property + " set to " + value + "."),
               Continue)
  }

  // ---------------------------------------------------------------------------
  // Dispatch

  /** The handlers the dispatch table of `parse_and_execute_command` refers to. */
  datatype Command =
    | CreateColumnCmd | DestroyColumnCmd | SetTaskDeadlineCmd | AddTaskCmd | MoveTaskCmd | RemoveTaskCmd
    | PrioritizeTaskCmd | RenameColumnCmd | ResetOutputCmd | SaveCmd | ExitCmd | ShowHelpCmd
    | SwapColumnsCmd | EditTaskCmd

  /** The dispatch table, in the order its keys are written. */
  const CommandTable: seq<(string, Command)> := [
    ("create", CreateColumnCmd), ("c", CreateColumnCmd), ("destroy", DestroyColumnCmd),
    ("deadline", SetTaskDeadlineCmd), ("due", SetTaskDeadlineCmd), ("add", AddTaskCmd),
    ("move", MoveTaskCmd), ("mv", MoveTaskCmd), ("remove", RemoveTaskCmd), ("rm", RemoveTaskCmd),
    ("priority", PrioritizeTaskCmd), ("pr", PrioritizeTaskCmd), ("rename", RenameColumnCmd),
    ("clear", ResetOutputCmd), ("cl", ResetOutputCmd), ("save", SaveCmd), ("exit", ExitCmd),
    ("help", ShowHelpCmd), ("swap", SwapColumnsCmd), ("edit", EditTaskCmd)
  ]

  function CommandNames(): (names: seq<string>)
    ensures |names| == |CommandTable|
  {
    seq(|CommandTable|, i requires 0 <= i < |CommandTable| => CommandTable[i].0)
  }

  /** `commands[name]`: the handler under an exact key. */
  function LookupCommand(name: string): Option<Command> {
    LookupFrom(name, 0)
  }

  function LookupFrom(name: string, i: nat): Option<Command>
    requires i <= |CommandTable|
    decreases |CommandTable| - i
  {
    if i == |CommandTable| then None
    else if CommandTable[i].0 == name then Some(CommandTable[i].1)
    else LookupFrom(name, i + 1)
  }

  /** `find_best_match(words[0], commands.keys())`, then the handler under the matched key. */
  function ResolveCommand(score: Scorer, word: string): Option<Command> {
    match BestMatch(score, word, CommandNames(), DefaultThreshold)
    case None => None
    case Some(name) => LookupCommand(name)
  }

  /** The handler for a recognised command, called with the tokens after the command word. */
  function Run(env: Env, st: State, cmd: Command, params: seq<string>, now: string): Step {
    match cmd
    case CreateColumnCmd => Step(CreateColumn(st, params), Continue)
    case DestroyColumnCmd => Step(DestroyColumn(st, params), Continue)
    case SetTaskDeadlineCmd => SetTaskDeadline(env, st, params)
    case AddTaskCmd => AddTask(env, st, params, now)
    case MoveTaskCmd => MoveTaskById(env.score, st, params)
    case RemoveTaskCmd => Step(RemoveTaskById(st, params), Continue)
    case PrioritizeTaskCmd => Step(PrioritizeTask(st, params), Continue)
    case RenameColumnCmd => Step(RenameColumn(st, params), Continue)
    case ResetOutputCmd => Step(st.(log := []), Continue)
    case SaveCmd => Step(st, Continue)
    case ExitCmd => Step(st, Exited)
    case ShowHelpCmd => Step(Log(st, env.helpText), Continue)
    case SwapColumnsCmd => SwapColumns(st, params)
    case EditTaskCmd => EditTask(env, st, params)
  }

  /**
   * `parse_and_execute_command(kanban, command_str)`: an empty or unrecognised
   * command changes nothing (its message is returned and dropped); otherwise
   * the command line is logged in bold and the handler runs.
   */
  function Execute(env: Env, st: State, commandStr: string, now: string): Step {
    var words := Split(commandStr);
    if words == [] then Step(st, Continue)
    else
      match ResolveCommand(env.score, words[0])
      case None => Step(st, Continue)
      case Some(cmd) => Run(env, st.(log := st.log + [Entry(commandStr, 1, true)]), cmd, words[1..], now)
  }
}
