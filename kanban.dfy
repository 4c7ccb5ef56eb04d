/**
 * The class `KanbanBoard` of kapyban.py and its dispatcher
 * `parse_and_execute_command`. Each method changes `columns` and `output`
 * step by step as the Python method does, and is proved to produce exactly
 * the state the corresponding function of module Commands describes.
 */
module Kanban {
  import opened Wrappers
  import opened Tokens
  import opened Fuzzy
  import Board
  import Commands
  import CommandFacts

  class KanbanBoard {
    /** The ordered dict `self.columns`. */
    var columns: seq<Board.Column>
    /** The list `self.output`. */
    var output: seq<string>
    /** How many values of the random stream `random.choices` has drawn so far. */
    var draws: nat
    /** The scorer, random stream, date parser and help text the board relies on. */
    const env: Commands.Env

    function Current(): Commands.State
      reads this
    {
      Commands.State(columns, output, draws)
    }

    /** Keys distinct, task ids unique across the board. */
    ghost predicate Valid()
      reads this
    {
      Board.Valid(columns)
    }

    /** `__init__`: an empty board with an empty log. */
    constructor(env: Commands.Env)
      ensures columns == [] && output == [] && draws == 0 && this.env == env
      ensures Valid()
    {
      columns := [];
      output := [];
      draws := 0;
      this.env := env;
    }

    /** `reset_output(params)`. */
    method ResetOutput(params: seq<string>)
      modifies this`output
      ensures output == []
    {
      output := [];
    }

    /** `add_to_output(output, newline, bold)`. */
    method AddToOutput(msg: string, newline: int, bold: bool)
      modifies this`output
      ensures output == old(output) + [Commands.Entry(msg, newline, bold)]
    {
      var entry := if bold then "[bold]" + msg + "[/bold]" else "-- " + msg;
      output := output + [Commands.Newlines(newline) + entry];
    }

    /** `show_help(params)`. */
    method ShowHelp(params: seq<string>)
      modifies this`output
      ensures output == old(output) + [Commands.Entry(env.helpText, 1, false)]
    {
      AddToOutput(env.helpText, 1, false);
    }

    // -------------------------------------------------------------------------
    // Lookups

    /** `find_column_case_insensitive(column_name)`: the position of the first matching key. */
    method FindColumnCaseInsensitive(name: string) returns (r: Option<nat>)
      modifies this`output
      ensures Commands.Lookup(Current(), r) == Commands.FindColumnCaseInsensitive(old(Current()), name)
    {
      var lowered := Lower(name);
      var i := 0;
      while i < |columns|
        invariant i <= |columns|
        invariant output == old(output)
        invariant Board.FindCIFrom(columns, name, i) == Board.FindCI(columns, name)
      {
        if Lower(columns[i].name) == lowered {
          return Some(i);
        }
        i := i + 1;
      }
      AddToOutput("Column '" + name + "' does not exist.", 1, false);
      return None;
    }

    /**
     * The prefix loop of `rename_column` and `swap_columns`: look up
     * `' '.join(params[start:j])` for `j` from `lo` below `hi`, stopping at the
     * first that resolves.
     */
    method ScanPrefixes(params: seq<string>, start: nat, lo: nat, hi: nat) returns (hit: Option<Commands.Piece>)
      requires start <= lo <= hi <= |params| + 1
      modifies this`output
      ensures Commands.Scan(Current(), hit) == Commands.PrefixScan(old(Current()), params, start, lo, hi)
    {
      var j := lo;
      while j < hi
        invariant lo <= j <= hi
        invariant Commands.PrefixScan(Current(), params, start, j, hi) == Commands.PrefixScan(old(Current()), params, start, lo, hi)
      {
        var c := FindColumnCaseInsensitive(Join(params[start..j]));
        if c.Some? {
          return Some(Commands.Piece(j, c.value));
        }
        j := j + 1;
      }
      return None;
    }

    /** `find_column_name(params)`: the first `to` whose remaining tokens fuzzy-match a column. */
    method FindColumnName(params: seq<string>) returns (m: Commands.ColumnMatch)
      modifies this`output
      ensures (Current(), m) == Commands.FindColumnName(env.score, old(Current()), params)
    {
      var i := 0;
      while i < |params|
        invariant i <= |params|
        invariant output == old(output)
        invariant Commands.MatchFrom(env.score, columns, params, i) == Commands.MatchFrom(env.score, columns, params, 0)
      {
        if Lower(params[i]) == "to" {
          if |columns| == 0 {
            return Commands.NoCandidates;
          }
          var best := BestMatch(env.score, Join(params[i + 1..]), Board.Names(columns), DefaultThreshold);
          if best.Some? && best.value != "" {
            return Commands.Matched(best.value, i);
          }
        }
        i := i + 1;
      }
      AddToOutput("Column name not found or invalid.", 1, false);
      return Commands.NotMatched;
    }

    /** `is_id_used(id)`: some task in some column carries `id`. */
    method IsIdUsed(id: string) returns (used: bool)
      ensures used <==> Board.IdUsed(columns, id)
      ensures used <==> id in Board.IdBag(columns)
    {
      Board.IdUsedIffInBag(columns, id);
      var c := 0;
      while c < |columns|
        invariant c <= |columns|
        invariant forall c', p :: 0 <= c' < c && 0 <= p < |columns[c'].tasks| ==> columns[c'].tasks[p].id != id
      {
        var tasks := columns[c].tasks;
        var p := 0;
        while p < |tasks|
          invariant p <= |tasks|
          invariant forall q :: 0 <= q < p ==> tasks[q].id != id
        {
          if tasks[p].id == id {
            return true;
          }
          p := p + 1;
        }
        c := c + 1;
      }
      return false;
    }

    /** `find_task_by_id(task_id)`: the first task carrying the id, in column order and then list order. */
    method FindTaskById(id: string) returns (r: Option<Board.Location>)
      ensures r == Board.FirstWithId(columns, id)
      ensures r.None? <==> !Board.IdUsed(columns, id)
      ensures r.Some? ==> Board.ValidLocation(columns, r.value) && Board.TaskAt(columns, r.value).id == id
    {
      Board.FirstWithIdSpec(columns, id);
      var c := 0;
      while c < |columns|
        invariant c <= |columns|
        invariant Board.FirstWithIdFrom(columns, id, c) == Board.FirstWithId(columns, id)
      {
        var tasks := columns[c].tasks;
        var p := 0;
        while p < |tasks|
          invariant p <= |tasks|
          invariant Board.IndexOfId(tasks, id, p) == Board.IndexOfId(tasks, id, 0)
        {
          if tasks[p].id == id {
            return Some(Board.Location(c, p));
          }
          p := p + 1;
        }
        c := c + 1;
      }
      return None;
    }

    // -------------------------------------------------------------------------
    // Unique ids

    /**
     * One round of `generate_unique_id`, the inner `for` loop: up to 26^length
     * draws of a word of `length` letters, using the values from `start` on. It
     * stops at the first word no task carries; a round without one can only
     * happen while `length` is at most the longest id in use.
     */
    method DrawRound(length: nat, start: nat) returns (found: bool, id: string, next: nat)
      requires 1 <= length <= Board.MaxIdLength(columns) + 1
      ensures found ==> (id, next) == Commands.IdSearch(env.rng, columns, length, 0, start)
      ensures !found ==> length <= Board.MaxIdLength(columns)
      ensures !found ==>
        Commands.IdSearch(env.rng, columns, length, 0, start) == Commands.IdSearch(env.rng, columns, length + 1, 0, next)
    {
      ghost var cols, rng := columns, env.rng;
      next := start;
      var attempt := 0;
      while attempt < Commands.Pow26(length)
        invariant attempt <= Commands.Pow26(length)
        invariant attempt > 0 ==> length <= Board.MaxIdLength(cols)
        invariant Commands.IdSearch(rng, cols, length, attempt, next) == Commands.IdSearch(rng, cols, length, 0, start)
      {
        id := Commands.Word(env.rng, next, length);
        var used := IsIdUsed(id);
        if !used {
          Commands.IdSearchFree(rng, cols, length, attempt, next);
          return true, id, next + length;
        }
        Commands.IdSearchUsed(rng, cols, length, attempt, next);
        next := next + length;
        attempt := attempt + 1;
      }
      Commands.IdSearchRound(rng, cols, length, next);
      return false, "", next;
    }

    /**
     * `generate_unique_id()`: rounds for lengths 1, 2, ... until a round draws
     * a word no task carries.
     */
    method GenerateUniqueId() returns (id: string)
      modifies this`draws
      ensures (id, draws) == Commands.GenerateUniqueId(env.rng, columns, old(draws))
      ensures 1 <= |id| && Commands.IsLowerWord(id) && !Board.IdUsed(columns, id)
    {
      ghost var result := Commands.GenerateUniqueId(env.rng, columns, draws);
      Commands.GenerateUniqueIdSpec(env.rng, columns, draws);
      var length := 1;
      while true
        invariant 1 <= length <= Board.MaxIdLength(columns) + 1
        invariant Commands.IdSearch(env.rng, columns, length, 0, draws) == result
        decreases Board.MaxIdLength(columns) + 1 - length
      {
        var found, next;
        found, id, next := DrawRound(length, draws);
        draws := next;
        if found {
          return;
        }
        length := length + 1;
      }
    }

    // -------------------------------------------------------------------------
    // Column commands

    /** `create_column(column_name)`: the key is compared exactly. */
    method CreateColumn(params: seq<string>)
      modifies this`columns, this`output
      ensures Current() == Commands.CreateColumn(old(Current()), params)
    {
      var name := Join(params);
      if name !in Board.Names(columns) {
        columns := columns + [Board.Column(name, [])];
        AddToOutput("Column '" + name + "' added.", 1, false);
      } else {
        AddToOutput("Column '" + name + "' already exists.", 1, false);
      }
    }

    /** `destroy_column(params)`. */
    method DestroyColumn(params: seq<string>)
      modifies this`columns, this`output
      ensures Current() == Commands.DestroyColumn(old(Current()), params)
    {
      if params == [] {
        AddToOutput("No column name provided.", 1, false);
        return;
      }
      var found := FindColumnCaseInsensitive(Join(params));
      if found.None? {
        AddToOutput("Column 'None' does not exist.", 1, false);
        return;
      }
      var name := columns[found.value].name;
      columns := columns[..found.value] + columns[found.value + 1..];
      AddToOutput("Column '" + name + "' removed.", 1, false);
    }

    /** `remove_column(column_index)`. */
    method RemoveColumn(index: int)
      modifies this`columns, this`output
      ensures Current() == Commands.RemoveColumn(old(Current()), index)
    {
      if 0 <= index < |columns| {
        var name := columns[index].name;
        columns := columns[..index] + columns[index + 1..];
        AddToOutput("Column '" + name + "' destroyed.", 1, false);
      } else {
        AddToOutput("Invalid column index.", 1, false);
      }
    }

    /** `rename_column(params)`: pop the old key, then insert the new one at the end. */
    method RenameColumn(params: seq<string>)
      modifies this`columns, this`output
      ensures Current() == Commands.RenameColumn(old(Current()), params)
    {
      if |params| < 2 {
        AddToOutput("Insufficient parameters. Usage: rename <old column name> <new column name>", 1, false);
        return;
      }
      var hit := ScanPrefixes(params, 0, 1, |params|);
      if hit.None? {
        AddToOutput("Old column name not found.", 1, false);
        return;
      }
      var i := hit.value.col;
      var newName := Join(params[hit.value.end..]);
      if newName in Board.Names(columns) {
        AddToOutput("A column with the name '" + newName + "' already exists.", 1, false);
        return;
      }
      var oldName, tasks := columns[i].name, columns[i].tasks;
      columns := columns[..i] + columns[i + 1..];
      columns := columns + [Board.Column(newName, tasks)];
      AddToOutput("Column '" + oldName + "' renamed to '" + newName + "'.", 1, false);
    }

    /** `swap_columns(params)`: the two task lists trade places under their keys. */
    method SwapColumns(params: seq<string>) returns (o: Commands.Outcome)
      modifies this`columns, this`output
      ensures Commands.Step(Current(), o) == Commands.SwapColumns(old(Current()), params)
    {
      if |params| < 2 {
        AddToOutput("Insufficient parameters. Usage: swap <column1> <column2>", 1, false);
        return Commands.Continue;
      }
      var first := ScanPrefixes(params, 0, 1, |params|);
      var second: Option<Commands.Piece> := None;
      if first.Some? {
        second := ScanPrefixes(params, first.value.end, first.value.end + 1, |params| + 1);
      }
      if first.None? || second.None? {
        return Commands.Crashed(Commands.KeyOfNone);
      }
      var i, j := first.value.col, second.value.col;
      var nameI, nameJ := columns[i].name, columns[j].name;
      var tasksI, tasksJ := columns[i].tasks, columns[j].tasks;
      columns := columns[i := Board.Column(nameI, tasksJ)];
      columns := columns[j := Board.Column(nameJ, tasksI)];
      AddToOutput("Columns '" + nameI + "' and '" + nameJ + "' have been swapped.", 1, false);
      return Commands.Continue;
    }

    // -------------------------------------------------------------------------
    // Task commands

    /** `add_task_to_column(task_description, column_name)`, stamped with `now`. */
    method AddTaskToColumn(description: string, name: string, now: string) returns (o: Commands.Outcome)
      modifies this
      ensures Commands.Step(Current(), o) == Commands.AddTaskToColumn(env, old(Current()), description, name, now)
    {
      var matched := FindColumnCaseInsensitive(name);
      var id := GenerateUniqueId();
      var task := Board.Task(id, description, now, Board.Low, None);
      if matched.None? {
        return Commands.Crashed(Commands.KeyOfNone);
      }
      var c := matched.value;
      columns := columns[c := Board.Column(columns[c].name, columns[c].tasks + [task])];
      AddToOutput("Task added to column '" + columns[c].name + "'.", 1, false);
      return Commands.Continue;
    }

    /** `add_task(params)`. */
    method AddTask(params: seq<string>, now: string) returns (o: Commands.Outcome)
      modifies this
      ensures Commands.Step(Current(), o) == Commands.AddTask(env, old(Current()), params, now)
    {
      if params == [] {
        AddToOutput("No task description provided.", 1, false);
        return Commands.Continue;
      }
      var m := FindColumnName(params);
      if m.NoCandidates? {
        return Commands.Crashed(Commands.UnpackNone);
      }
      if m.NotMatched? {
        return Commands.Crashed(Commands.LowerOfNone);
      }
      var found := FindColumnCaseInsensitive(m.name);
      if found.None? {
        AddToOutput("Column name not found or invalid.", 1, false);
        return Commands.Continue;
      }
      var description := Join(params[..m.at]);
      if description != "" {
        o := AddTaskToColumn(description, columns[found.value].name, now);
      } else {
        AddToOutput("No task description provided.", 1, false);
        o := Commands.Continue;
      }
    }

    /** `list.remove(task)` on column `c`: deletes the first element equal to `task`. */
    method RemoveFromColumn(c: nat, task: Board.Task) returns (k: nat)
      requires c < |columns| && task in columns[c].tasks
      modifies this`columns
      ensures k < |old(columns)[c].tasks| && old(columns)[c].tasks[k] == task
      ensures forall q :: 0 <= q < k ==> old(columns)[c].tasks[q] != task
      ensures columns == Board.RemoveTaskAt(old(columns), Board.Location(c, k))
    {
      var tasks := columns[c].tasks;
      k := 0;
      while tasks[k] != task
        invariant k < |tasks| && task in tasks[k..]
        invariant forall q :: 0 <= q < k ==> tasks[q] != task
        decreases |tasks| - k
      {
        assert tasks[k..] == [tasks[k]] + tasks[k + 1..];
        k := k + 1;
      }
      columns := columns[c := Board.Column(columns[c].name, tasks[..k] + tasks[k + 1..])];
    }

    /** `move_task_by_id(params)`. */
    method MoveTaskById(params: seq<string>) returns (o: Commands.Outcome)
      modifies this`columns, this`output
      ensures Commands.Step(Current(), o) == Commands.MoveTaskById(env.score, old(Current()), params)
    {
      if |params| < 2 {
        AddToOutput("Insufficient parameters for moving a task.", 1, false);
        return Commands.Continue;
      }
      var id := params[0];
      var loc := FindTaskById(id);
      if loc.None? {
        AddToOutput("Task with ID " + id + " not found.", 1, false);
        return Commands.Continue;
      }
      var target := Join(params[1..]);
      var best := BestMatch(env.score, target, Board.Names(columns), DefaultThreshold);
      if best.None? {
        AddToOutput("Target column not found or invalid: " + target, 1, false);
        return Commands.Continue;
      }
      var found := FindColumnCaseInsensitive(best.value);
      var task := Board.TaskAt(columns, loc.value);
      SameTaskFirst(loc.value, id);
      var k := RemoveFromColumn(loc.value.col, task);
      if found.None? {
        return Commands.Crashed(Commands.KeyOfNone);
      }
      var c := found.value;
      columns := columns[c := Board.Column(columns[c].name, columns[c].tasks + [task])];
      AddToOutput("Task " + id + " moved to " + columns[c].name + ".", 1, false);
      return Commands.Continue;
    }

    /**
     * The found task is the first in its column carrying its id, so no earlier
     * task of that column can equal it: `list.remove` takes exactly this one.
     */
    lemma SameTaskFirst(loc: Board.Location, id: string)
      requires Board.FirstWithId(columns, id) == Some(loc)
      ensures Board.ValidLocation(columns, loc)
      ensures forall q :: 0 <= q < loc.pos ==> columns[loc.col].tasks[q] != Board.TaskAt(columns, loc)
    {
      Board.FirstWithIdSpec(columns, id);
    }

    /** `remove_task_by_id(params)`. */
    method RemoveTaskById(params: seq<string>)
      modifies this`columns, this`output
      ensures Current() == Commands.RemoveTaskById(old(Current()), params)
    {
      if params == [] {
        AddToOutput("No task ID provided.", 1, false);
        return;
      }
      var id := params[0];
      var loc := FindTaskById(id);
      if loc.None? {
        AddToOutput("Task with ID " + id + " not found.", 1, false);
        return;
      }
      var name := columns[loc.value.col].name;
      var task := Board.TaskAt(columns, loc.value);
      SameTaskFirst(loc.value, id);
      var k := RemoveFromColumn(loc.value.col, task);
      AddToOutput("Task " + id + " removed from " + name + ".", 1, false);
    }

    /** `prioritize_task(params)`. */
    method PrioritizeTask(params: seq<string>)
      modifies this`columns, this`output
      ensures Current() == Commands.PrioritizeTask(old(Current()), params)
    {
      if |params| < 2 {
        AddToOutput("Insufficient parameters. Usage: prioritize <task_id> <priority level>", 1, false);
        return;
      }
      var id, level := params[0], Lower(params[1]);
      if level != "high" && level != "medium" && level != "low" {
        AddToOutput("Invalid priority level. Choose from high, medium, low.", 1, false);
        return;
      }
      var loc := FindTaskById(id);
      if loc.None? {
        AddToOutput("Task with ID " + id + " not found.", 1, false);
        return;
      }
      var l := loc.value;
      var priority := if level == "high" then Board.High else if level == "medium" then Board.Medium else Board.Low;
      var tasks := columns[l.col].tasks;
      columns := columns[l.col := Board.Column(columns[l.col].name, tasks[l.pos := tasks[l.pos].(priority := priority)])];
      AddToOutput("Priority of task " + id + " set to " + level + ".", 1, false);
    }

    /** `set_task_deadline(params)`. */
    method SetTaskDeadline(params: seq<string>) returns (o: Commands.Outcome)
      modifies this`columns, this`output
      ensures Commands.Step(Current(), o) == Commands.SetTaskDeadline(env, old(Current()), params)
    {
      if |params| < 2 {
        AddToOutput("Insufficient parameters. Usage: deadline [task_id] [deadline]", 1, false);
        return Commands.Continue;
      }
      var id := params[0];
      var loc := FindTaskById(id);
      if loc.None? {
        AddToOutput("Task with ID " + id + " not found.", 1, false);
        return Commands.Continue;
      }
      match env.parseDate(Join(params[1..]))
      case Date(stamp) =>
        var l := loc.value;
        var tasks := columns[l.col].tasks;
        columns := columns[l.col := Board.Column(columns[l.col].name, tasks[l.pos := tasks[l.pos].(deadline := Some(stamp))])];
        AddToOutput("Deadline for task " + id + " set to " + stamp + ".", 1, false);
        return Commands.Continue;
      case NoDate =>
        return Commands.Crashed(Commands.StrftimeOfNone);
      case ParseError =>
        AddToOutput("Invalid deadline format. Please provide a valid date.", 1, false);
        return Commands.Continue;
    }

    /** `edit_task(params)`. */
    method EditTask(params: seq<string>) returns (o: Commands.Outcome)
      modifies this`columns, this`output
      ensures Commands.Step(Current(), o) == Commands.EditTask(env, old(Current()), params)
    {
      if |params| < 3 {
        AddToOutput("Insufficient parameters. Usage: edit [task_id] [property] [new_value]", 1, false);
        return Commands.Continue;
      }
      var id, property, value := params[0], params[1], Join(params[2..]);
      var loc := FindTaskById(id);
      if loc.None? {
        AddToOutput("Task with ID " + id + " not found.", 1, false);
        return Commands.Continue;
      }
      if property != "description" && property != "deadline" && property != "due" {
        AddToOutput("Cannot edit '" + property + "'. Editable properties: description, deadline.", 1, false);
        return Commands.Continue;
      }
      if property == "deadline" || property == "due" {
        o := SetTaskDeadline([id] + params[2..]);
      } else {
        var l := loc.value;
        var tasks := columns[l.col].tasks;
        columns := columns[l.col := Board.Column(columns[l.col].name, tasks[l.pos := tasks[l.pos].(description := value)])];
        AddToOutput("Task " + id + " updated: " + property + " set to " + value + ".", 1, false);
        o := Commands.Continue;
      }
    }
  }

  /**
   * `parse_and_execute_command(kanban, command_str)`, with `now` standing for
   * the clock. The `save_to_json` that follows a recognised command is not
   * modelled.
   */
  method ParseAndExecuteCommand(kanban: KanbanBoard, commandStr: string, now: string) returns (o: Commands.Outcome)
    modifies kanban
    ensures Commands.Step(kanban.Current(), o) == Commands.Execute(kanban.env, old(kanban.Current()), commandStr, now)
    ensures old(kanban.Valid()) ==> kanban.Valid()
  {
    if kanban.Valid() {
      CommandFacts.ExecuteKeepsValid(kanban.env, kanban.Current(), commandStr, now);
    }
    var words := Split(commandStr);
    if words == [] {
      return Commands.Continue;
    }
    var cmd := Commands.ResolveCommand(kanban.env.score, words[0]);
    if cmd.None? {
      return Commands.Continue;
    }
    var params := words[1..];
    kanban.AddToOutput(commandStr, 1, true);
    o := Commands.Continue;
    match cmd.value
    case CreateColumnCmd => kanban.CreateColumn(params);
    case DestroyColumnCmd => kanban.DestroyColumn(params);
    case SetTaskDeadlineCmd => o := kanban.SetTaskDeadline(params);
    case AddTaskCmd => o := kanban.AddTask(params, now);
    case MoveTaskCmd => o := kanban.MoveTaskById(params);
    case RemoveTaskCmd => kanban.RemoveTaskById(params);
    case PrioritizeTaskCmd => kanban.PrioritizeTask(params);
    case RenameColumnCmd => kanban.RenameColumn(params);
    case ResetOutputCmd => kanban.ResetOutput(params);
    case SaveCmd =>
    case ExitCmd => o := Commands.Exited;
    case ShowHelpCmd => kanban.ShowHelp(params);
    case SwapColumnsCmd => o := kanban.SwapColumns(params);
    case EditTaskCmd => o := kanban.EditTask(params);
  }
}
