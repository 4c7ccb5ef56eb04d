/**
 * What the `KanbanBoard` commands promise, proved about the functions of
 * module Commands (and so, through the contracts of module Kanban, about the
 * class): which column a command acts on, exactly how the board changes, the
 * paths that leave it alone, and that every command keeps the board
 * invariant (distinct keys, unique task ids).
 */
module CommandFacts {
  import opened Wrappers
  import opened Tokens
  import opened Fuzzy
  import opened Board
  import opened Commands

  // ---------------------------------------------------------------------------
  // Column commands

  /**
   * `create_column` appends the joined name as a new, empty last column
   * exactly when that exact (case-sensitive) key is absent; otherwise the
   * board is unchanged.
   */
  lemma CreateColumnSpec(st: State, params: seq<string>)
    ensures var r := CreateColumn(st, params).cols;
      && (Join(params) !in Names(st.cols) ==>
        && Names(r) == Names(st.cols) + [Join(params)]
        && r[..|st.cols|] == st.cols
        && r[|st.cols|].tasks == [])
      && (Join(params) in Names(st.cols) ==> r == st.cols)
  {
  }

  lemma CreateColumnKeepsValid(st: State, params: seq<string>)
    requires Valid(st.cols)
    ensures Valid(CreateColumn(st, params).cols)
  {
    if Join(params) !in Names(st.cols) {
      AddColumnSpec(st.cols, Join(params));
    }
  }

  /**
   * `destroy_column` deletes the first column whose name matches the joined
   * tokens case-insensitively; the other columns keep their order.
   */
  lemma DestroyColumnFound(st: State, params: seq<string>, i: nat)
    requires params != [] && FindCI(st.cols, Join(params)) == Some(i)
    ensures var r := DestroyColumn(st, params).cols;
      && Lower(st.cols[i].name) == Lower(Join(params))
      && (forall k :: 0 <= k < i ==> Lower(st.cols[k].name) != Lower(Join(params)))
      && Names(r) == Names(st.cols)[..i] + Names(st.cols)[i + 1..]
      && |r| == |st.cols| - 1
      && (forall k :: 0 <= k < i ==> r[k] == st.cols[k])
      && (forall k :: i <= k < |st.cols| - 1 ==> r[k] == st.cols[k + 1])
      && multiset(AllTasks(r)) + multiset(st.cols[i].tasks) == multiset(AllTasks(st.cols))
  {
    FindCISpec(st.cols, Join(params));
    DeleteColumnSpec(st.cols, i);
  }

  /** A name that matches no column leaves the board unchanged and logs two entries. */
  lemma DestroyColumnMissing(st: State, params: seq<string>)
    requires params != [] && forall k :: 0 <= k < |st.cols| ==> Lower(st.cols[k].name) != Lower(Join(params))
    ensures var r := DestroyColumn(st, params);
      && r.cols == st.cols
      && r.log == st.log + [MissNote(Join(params)), Entry("Column 'None' does not exist.", 1, false)]
  {
    FindCISpec(st.cols, Join(params));
  }

  lemma DestroyColumnKeepsValid(st: State, params: seq<string>)
    requires Valid(st.cols)
    ensures Valid(DestroyColumn(st, params).cols)
  {
    if params != [] {
      var h := FindCI(st.cols, Join(params));
      if h.Some? {
        DeleteColumnSpec(st.cols, h.value);
      }
    }
  }

  /** `remove_column(index)` deletes the column at a valid index; any other index, negative ones included, changes nothing. */
  lemma RemoveColumnSpec(st: State, index: int)
    ensures var r := RemoveColumn(st, index).cols;
      && (0 <= index < |st.cols| ==>
        && Names(r) == Names(st.cols)[..index] + Names(st.cols)[index + 1..]
        && |r| == |st.cols| - 1
        && (forall k :: 0 <= k < index ==> r[k] == st.cols[k])
        && (forall k :: index <= k < |st.cols| - 1 ==> r[k] == st.cols[k + 1])
        && multiset(AllTasks(r)) + multiset(st.cols[index].tasks) == multiset(AllTasks(st.cols))
        && (Valid(st.cols) ==> Valid(r)))
      && (!(0 <= index < |st.cols|) ==> r == st.cols)
  {
    if 0 <= index < |st.cols| {
      DeleteColumnSpec(st.cols, index);
    }
  }

  // ---------------------------------------------------------------------------
  // The prefix scans of rename and swap

  /**
   * When `params[start..e]` is the shortest range from `j` on that names a
   * column, the scan reports exactly that range and that column.
   */
  lemma PrefixScanStopsAt(st: State, params: seq<string>, start: nat, j: nat, hi: nat, e: nat, i: nat)
    requires start <= j <= e < hi <= |params| + 1
    requires FindCI(st.cols, Join(params[start..e])) == Some(i)
    requires forall m :: j <= m < e ==> FindCI(st.cols, Join(params[start..m])).None?
    ensures PrefixScan(st, params, start, j, hi).hit == Some(Piece(e, i))
  {
    PrefixScanHit(st, params, start, j, hi);
  }

  /** When no range from `j` on names a column, the scan finds nothing and the board is untouched. */
  lemma PrefixScanFindsNothing(st: State, params: seq<string>, start: nat, j: nat, hi: nat)
    requires start <= j <= hi <= |params| + 1
    requires forall m :: j <= m < hi ==> FindCI(st.cols, Join(params[start..m])).None?
    ensures PrefixScan(st, params, start, j, hi).hit.None?
  {
    PrefixScanHit(st, params, start, j, hi);
  }

  // ---------------------------------------------------------------------------
  // Rename

  /**
   * `rename_column`: when `params[..e]` is the shortest prefix naming column
   * `i`, the new name is the rest of the tokens. If that is already a key the
   * board is unchanged; otherwise the old key is gone and the new key holds
   * the same task list in the last position, the others keeping their order.
   */
  lemma RenameColumnAt(st: State, params: seq<string>, e: nat, i: nat)
    requires 1 <= e < |params|
    requires FindCI(st.cols, Join(params[..e])) == Some(i)
    requires forall m :: 1 <= m < e ==> FindCI(st.cols, Join(params[..m])).None?
    ensures var r := RenameColumn(st, params).cols; var newName := Join(params[e..]);
      && (newName in Names(st.cols) ==> r == st.cols)
      && (newName !in Names(st.cols) ==>
        && Names(r) == Names(st.cols)[..i] + Names(st.cols)[i + 1..] + [newName]
        && |r| == |st.cols|
        && r[|r| - 1] == Column(newName, st.cols[i].tasks)
        && (forall k :: 0 <= k < i ==> r[k] == st.cols[k])
        && (forall k :: i <= k < |st.cols| - 1 ==> r[k] == st.cols[k + 1])
        && multiset(AllTasks(r)) == multiset(AllTasks(st.cols))
        && (DistinctNames(st.cols) ==> st.cols[i].name !in Names(r)))
  {
    assert params[0..e] == params[..e];
    assert forall m :: 1 <= m < e ==> params[0..m] == params[..m];
    PrefixScanStopsAt(st, params, 0, 1, |params|, e, i);
    var newName := Join(params[e..]);
    if newName !in Names(st.cols) {
      assert Names(st.cols)[i] == st.cols[i].name;
      RekeySpec(st.cols, i, newName);
    }
  }

  /** A rename whose prefixes name no column, or that has fewer than two tokens, leaves the board unchanged. */
  lemma RenameColumnNoOldName(st: State, params: seq<string>)
    requires forall m :: 1 <= m < |params| ==> FindCI(st.cols, Join(params[..m])).None?
    ensures RenameColumn(st, params).cols == st.cols
  {
    if |params| >= 2 {
      assert forall m :: 1 <= m < |params| ==> params[0..m] == params[..m];
      PrefixScanFindsNothing(st, params, 0, 1, |params|);
    }
  }

  lemma RenameColumnKeepsValid(st: State, params: seq<string>)
    requires Valid(st.cols)
    ensures Valid(RenameColumn(st, params).cols)
  {
    if |params| >= 2 {
      var s := PrefixScan(st, params, 0, 1, |params|);
      if s.hit.Some? {
        var newName := Join(params[s.hit.value.end..]);
        if newName !in Names(st.cols) {
          RekeySpec(st.cols, s.hit.value.col, newName);
        }
      }
    }
  }

  // ---------------------------------------------------------------------------
  // Swap

  /** The unfolding of `swap_columns` when both shortest ranges are known. */
  lemma SwapColumnsResolved(st: State, params: seq<string>, e: nat, i: nat, f: nat, j: nat)
    requires 1 <= e < |params| && e < f <= |params|
    requires FindCI(st.cols, Join(params[..e])) == Some(i)
    requires forall m :: 1 <= m < e ==> FindCI(st.cols, Join(params[..m])).None?
    requires FindCI(st.cols, Join(params[e..f])) == Some(j)
    requires forall m :: e < m < f ==> FindCI(st.cols, Join(params[e..m])).None?
    ensures i < |st.cols| && j < |st.cols|
    ensures SwapColumns(st, params).outcome == Continue
    ensures SwapColumns(st, params).st.cols == SwapTasks(st.cols, i, j)
  {
    assert params[0..e] == params[..e];
    assert forall m :: 1 <= m < e ==> params[0..m] == params[..m];
    PrefixScanStopsAt(st, params, 0, 1, |params|, e, i);
    var a := PrefixScan(st, params, 0, 1, |params|);
    PrefixScanStopsAt(a.st, params, e, e + 1, |params| + 1, f, j);
  }

  /**
   * `swap_columns`: with `params[..e]` the shortest prefix naming column `i`
   * and `params[e..f]` the shortest range after it naming column `j`, the two
   * task lists trade places; keys, their order and every other column stay.
   */
  lemma SwapColumnsAt(st: State, params: seq<string>, e: nat, i: nat, f: nat, j: nat)
    requires 1 <= e < |params| && e < f <= |params|
    requires FindCI(st.cols, Join(params[..e])) == Some(i)
    requires forall m :: 1 <= m < e ==> FindCI(st.cols, Join(params[..m])).None?
    requires FindCI(st.cols, Join(params[e..f])) == Some(j)
    requires forall m :: e < m < f ==> FindCI(st.cols, Join(params[e..m])).None?
    ensures var r := SwapColumns(st, params);
      && r.outcome == Continue
      && Names(r.st.cols) == Names(st.cols)
      && r.st.cols[i].tasks == st.cols[j].tasks
      && r.st.cols[j].tasks == st.cols[i].tasks
      && (forall k :: 0 <= k < |st.cols| && k != i && k != j ==> r.st.cols[k] == st.cols[k])
      && (i == j ==> r.st.cols == st.cols)
  {
    SwapColumnsResolved(st, params, e, i, f, j);
    SwapTasksSpec(st.cols, i, j);
  }

  /** A swap whose first column is not found raises `KeyError` before touching the board. */
  lemma SwapColumnsFirstMissing(st: State, params: seq<string>)
    requires 2 <= |params|
    requires forall m :: 1 <= m < |params| ==> FindCI(st.cols, Join(params[..m])).None?
    ensures SwapColumns(st, params) == Step(SwapColumns(st, params).st, Crashed(KeyOfNone))
    ensures SwapColumns(st, params).st.cols == st.cols
  {
    assert forall m :: 1 <= m < |params| ==> params[0..m] == params[..m];
    PrefixScanFindsNothing(st, params, 0, 1, |params|);
  }

  /** A swap whose second column is not found raises `KeyError` before touching the board. */
  lemma SwapColumnsSecondMissing(st: State, params: seq<string>, e: nat, i: nat)
    requires 1 <= e < |params|
    requires FindCI(st.cols, Join(params[..e])) == Some(i)
    requires forall m :: 1 <= m < e ==> FindCI(st.cols, Join(params[..m])).None?
    requires forall m :: e < m <= |params| ==> FindCI(st.cols, Join(params[e..m])).None?
    ensures SwapColumns(st, params).outcome == Crashed(KeyOfNone)
    ensures SwapColumns(st, params).st.cols == st.cols
  {
    assert params[0..e] == params[..e];
    assert forall m :: 1 <= m < e ==> params[0..m] == params[..m];
    PrefixScanStopsAt(st, params, 0, 1, |params|, e, i);
    var a := PrefixScan(st, params, 0, 1, |params|);
    PrefixScanFindsNothing(a.st, params, e, e + 1, |params| + 1);
  }

  /** A swap either leaves the board as it was or trades the task lists of two of its columns. */
  lemma SwapColumnsOnlySwaps(st: State, params: seq<string>)
    ensures var r := SwapColumns(st, params).st.cols;
      r == st.cols || exists i, j :: 0 <= i < |st.cols| && 0 <= j < |st.cols| && r == SwapTasks(st.cols, i, j)
  {
  }

  lemma SwapColumnsKeepsValid(st: State, params: seq<string>)
    requires Valid(st.cols)
    ensures Valid(SwapColumns(st, params).st.cols)
  {
    SwapColumnsOnlySwaps(st, params);
    var r := SwapColumns(st, params).st.cols;
    if r != st.cols {
      var i, j :| 0 <= i < |st.cols| && 0 <= j < |st.cols| && r == SwapTasks(st.cols, i, j);
      SwapTasksSpec(st.cols, i, j);
      SwapBags(st.cols, i, j);
      SameNamesKeepDistinct(st.cols, r);
    }
  }

  // ---------------------------------------------------------------------------
  // Resolving the target column

  /** What `find_best_match` picks among the column names always resolves case-insensitively. */
  lemma BestColumnResolves(score: Scorer, target: string, cols: seq<Column>)
    requires |cols| > 0 && BestMatch(score, target, Names(cols), DefaultThreshold).Some?
    ensures FindCI(cols, BestMatch(score, target, Names(cols), DefaultThreshold).value).Some?
  {
    var k := BestIndex(score, target, Names(cols));
    assert Names(cols)[k] == cols[k].name;
    LowerNameResolves(cols, k);
  }

  /** The column found for a name is also the one found for its own exact key. */
  lemma FindCIOwnName(cols: seq<Column>, name: string, c: nat)
    requires FindCI(cols, name) == Some(c)
    ensures FindCI(cols, cols[c].name) == Some(c)
  {
    FindCISpec(cols, name);
    FindCISpec(cols, cols[c].name);
  }

  /** `find_column_name` stops at the first `to` whose suffix resolves. */
  lemma {:induction false} MatchFromFirst(score: Scorer, cols: seq<Column>, params: seq<string>, i: nat, at: nat)
    requires i <= at < |params| && TargetAt(score, cols, params, at)
    requires forall m :: i <= m < at ==> !TargetAt(score, cols, params, m)
    ensures MatchFrom(score, cols, params, i) ==
      Matched(BestMatch(score, Join(params[at + 1..]), Names(cols), DefaultThreshold).value, at)
    decreases at - i
  {
    if i < at {
      assert !TargetAt(score, cols, params, i);
      MatchFromFirst(score, cols, params, i + 1, at);
    }
  }

  // ---------------------------------------------------------------------------
  // Adding tasks

  /**
   * `add_task_to_column(description, name)`: for a name that resolves, one
   * task is appended at the end of that column, with a fresh id, the given
   * description and timestamp, priority low and no deadline; every other
   * column is unchanged. For a name that does not, `KeyError` is raised
   * without touching the board.
   */
  lemma AddTaskToColumnSpec(env: Env, st: State, description: string, name: string, now: string)
    ensures var r := AddTaskToColumn(env, st, description, name, now);
      var id := GenerateUniqueId(env.rng, st.cols, st.draws).0;
      match FindCI(st.cols, name)
      case None => r.outcome == Crashed(KeyOfNone) && r.st.cols == st.cols
      case Some(c) =>
        && r.outcome == Continue
        && Names(r.st.cols) == Names(st.cols)
        && r.st.cols[c].tasks == st.cols[c].tasks + [Task(id, description, now, Low, None)]
        && (forall k :: 0 <= k < |st.cols| && k != c ==> r.st.cols[k] == st.cols[k])
        && TaskCount(r.st.cols) == TaskCount(st.cols) + 1
        && 1 <= |id| && IsLowerWord(id) && !IdUsed(st.cols, id)
  {
    GenerateUniqueIdSpec(env.rng, st.cols, st.draws);
    var h := FindCI(st.cols, name);
    if h.Some? {
      var id := GenerateUniqueId(env.rng, st.cols, st.draws).0;
      AppendTaskSpec(st.cols, h.value, Task(id, description, now, Low, None));
    }
  }

  lemma AddTaskToColumnKeepsValid(env: Env, st: State, description: string, name: string, now: string)
    requires Valid(st.cols)
    ensures Valid(AddTaskToColumn(env, st, description, name, now).st.cols)
  {
    var h := FindCI(st.cols, name);
    if h.Some? {
      GenerateUniqueIdSpec(env.rng, st.cols, st.draws);
      var t := Task(GenerateUniqueId(env.rng, st.cols, st.draws).0, description, now, Low, None);
      AppendTaskSpec(st.cols, h.value, t);
      FreshIdKeepsUnique(st.cols, h.value, t);
      SameNamesKeepDistinct(st.cols, AppendTask(st.cols, h.value, t));
    }
  }

  /**
   * The column and description `add_task` settles on: the first `to` (in any
   * case) at position `at` whose remaining tokens fuzzy-match a column, and
   * the tokens before it.
   */
  lemma AddTaskResolves(env: Env, st: State, params: seq<string>, now: string, at: nat)
    requires at < |params| && TargetAt(env.score, st.cols, params, at)
    requires forall m :: 0 <= m < at ==> !TargetAt(env.score, st.cols, params, m)
    ensures var b := BestMatch(env.score, Join(params[at + 1..]), Names(st.cols), DefaultThreshold).value;
      && FindCI(st.cols, b).Some?
      && AddTask(env, st, params, now) ==
        if Join(params[..at]) == "" then Step(Log(st, "No task description provided."), Continue)
        else AddTaskToColumn(env, st, Join(params[..at]), st.cols[FindCI(st.cols, b).value].name, now)
  {
    MatchFromFirst(env.score, st.cols, params, 0, at);
    BestColumnResolves(env.score, Join(params[at + 1..]), st.cols);
  }

  /**
   * `add_task` on success: exactly one task is appended at the end of the
   * resolved column, carrying a fresh id, the tokens before the first
   * resolving `to` as its description, priority low and no deadline; the
   * other columns are unchanged.
   */
  lemma AddTaskAt(env: Env, st: State, params: seq<string>, now: string, at: nat)
    requires at < |params| && TargetAt(env.score, st.cols, params, at)
    requires forall m :: 0 <= m < at ==> !TargetAt(env.score, st.cols, params, m)
    requires Join(params[..at]) != ""
    ensures var b := BestMatch(env.score, Join(params[at + 1..]), Names(st.cols), DefaultThreshold).value;
      FindCI(st.cols, b).Some?
    ensures var b := BestMatch(env.score, Join(params[at + 1..]), Names(st.cols), DefaultThreshold).value;
      var c := FindCI(st.cols, b).value;
      var id := GenerateUniqueId(env.rng, st.cols, st.draws).0;
      var r := AddTask(env, st, params, now);
      && Lower(st.cols[c].name) == Lower(b)
      && r.outcome == Continue
      && Names(r.st.cols) == Names(st.cols)
      && r.st.cols[c].tasks == st.cols[c].tasks + [Task(id, Join(params[..at]), now, Low, None)]
      && (forall k :: 0 <= k < |st.cols| && k != c ==> r.st.cols[k] == st.cols[k])
      && 1 <= |id| && IsLowerWord(id) && !IdUsed(st.cols, id)
  {
    var b := BestMatch(env.score, Join(params[at + 1..]), Names(st.cols), DefaultThreshold).value;
    AddTaskResolves(env, st, params, now, at);
    var c := FindCI(st.cols, b).value;
    FindCISpec(st.cols, b);
    FindCIOwnName(st.cols, b, c);
    AddTaskToColumnSpec(env, st, Join(params[..at]), st.cols[c].name, now);
  }

  /** An empty description before the resolving `to` leaves the board unchanged. */
  lemma AddTaskEmptyDescription(env: Env, st: State, params: seq<string>, now: string, at: nat)
    requires at < |params| && TargetAt(env.score, st.cols, params, at)
    requires forall m :: 0 <= m < at ==> !TargetAt(env.score, st.cols, params, m)
    requires Join(params[..at]) == ""
    ensures AddTask(env, st, params, now).outcome == Continue
    ensures AddTask(env, st, params, now).st.cols == st.cols
  {
    AddTaskResolves(env, st, params, now, at);
  }

  /**
   * When no `to` has a suffix that resolves, `add_task` raises (`None.lower()`
   * on a board with columns, the unpacking of `None` on one without) and the
   * board is unchanged.
   */
  lemma AddTaskUnresolved(env: Env, st: State, params: seq<string>, now: string)
    requires params != [] && forall m :: 0 <= m < |params| ==> !TargetAt(env.score, st.cols, params, m)
    ensures AddTask(env, st, params, now).outcome.Crashed?
    ensures AddTask(env, st, params, now).st.cols == st.cols
  {
    MatchFromNoCandidates(env.score, st.cols, params, 0);
    var m := MatchFrom(env.score, st.cols, params, 0);
    if m.Matched? {
      MatchFromMatched(env.score, st.cols, params, 0);
      assert false;
    }
  }

  lemma AddTaskKeepsValid(env: Env, st: State, params: seq<string>, now: string)
    requires Valid(st.cols)
    ensures Valid(AddTask(env, st, params, now).st.cols)
  {
    if params != [] {
      var m := MatchFrom(env.score, st.cols, params, 0);
      if m.Matched? {
        MatchFromMatched(env.score, st.cols, params, 0);
        var l := FindCI(st.cols, m.name);
        if l.Some? && Join(params[..m.at]) != "" {
          AddTaskToColumnKeepsValid(env, st, Join(params[..m.at]), st.cols[l.value].name, now);
        }
      }
    }
  }

  // ---------------------------------------------------------------------------
  // Moving and removing tasks

  /**
   * `move_task_by_id` with a task found and a target scoring at or above the
   * threshold: the task leaves its column and is appended at the end of the
   * target column (the first whose name matches the lower-cased best
   * candidate). The keys and the multiset of all tasks are unchanged.
   */
  lemma MoveTaskByIdFound(score: Scorer, st: State, params: seq<string>)
    requires 2 <= |params| && IdUsed(st.cols, params[0]) && |st.cols| > 0
    requires BestMatch(score, Join(params[1..]), Names(st.cols), DefaultThreshold).Some?
    ensures FindCI(st.cols, BestMatch(score, Join(params[1..]), Names(st.cols), DefaultThreshold).value).Some?
    ensures FirstWithId(st.cols, params[0]).Some?
    ensures var loc := FirstWithId(st.cols, params[0]).value;
      var c := FindCI(st.cols, BestMatch(score, Join(params[1..]), Names(st.cols), DefaultThreshold).value).value;
      var r := MoveTaskById(score, st, params);
      && ValidLocation(st.cols, loc) && TaskAt(st.cols, loc).id == params[0]
      && r.outcome == Continue
      && Names(r.st.cols) == Names(st.cols)
      && multiset(AllTasks(r.st.cols)) == multiset(AllTasks(st.cols))
      && (var ts := r.st.cols[c].tasks; |ts| > 0 && ts[|ts| - 1] == TaskAt(st.cols, loc))
      && (c != loc.col ==> r.st.cols[c].tasks == st.cols[c].tasks + [TaskAt(st.cols, loc)])
      && (c == loc.col ==>
        var ts := st.cols[loc.col].tasks; r.st.cols[c].tasks == ts[..loc.pos] + ts[loc.pos + 1..] + [TaskAt(st.cols, loc)])
      && (c != loc.col ==>
        var ts := st.cols[loc.col].tasks; r.st.cols[loc.col].tasks == ts[..loc.pos] + ts[loc.pos + 1..])
      && (forall k :: 0 <= k < |st.cols| && k != loc.col && k != c ==> r.st.cols[k] == st.cols[k])
  {
    FirstWithIdSpec(st.cols, params[0]);
    BestColumnResolves(score, Join(params[1..]), st.cols);
    var loc := FirstWithId(st.cols, params[0]).value;
    var c := FindCI(st.cols, BestMatch(score, Join(params[1..]), Names(st.cols), DefaultThreshold).value).value;
    MoveTaskSpec(st.cols, loc, c);
  }

  /** A missing id leaves the board unchanged. */
  lemma MoveTaskByIdMissing(score: Scorer, st: State, params: seq<string>)
    requires 2 <= |params| && !IdUsed(st.cols, params[0])
    ensures MoveTaskById(score, st, params).outcome == Continue
    ensures MoveTaskById(score, st, params).st.cols == st.cols
  {
    FirstWithIdSpec(st.cols, params[0]);
  }

  /** A target that scores below the threshold against every column leaves the board unchanged. */
  lemma MoveTaskByIdBelowThreshold(score: Scorer, st: State, params: seq<string>)
    requires 2 <= |params| && |st.cols| > 0
    requires forall j :: 0 <= j < |st.cols| ==> ScoreAt(score, Join(params[1..]), Names(st.cols), j) < DefaultThreshold
    ensures MoveTaskById(score, st, params).outcome == Continue
    ensures MoveTaskById(score, st, params).st.cols == st.cols
  {
  }

  /** `move_task_by_id` never raises: the case-insensitive lookup of a fuzzy match cannot fail. */
  lemma MoveTaskByIdKeepsValid(score: Scorer, st: State, params: seq<string>)
    requires Valid(st.cols)
    ensures MoveTaskById(score, st, params).outcome == Continue
    ensures Valid(MoveTaskById(score, st, params).st.cols)
  {
    if |params| >= 2 {
      var h := FirstWithId(st.cols, params[0]);
      if h.Some? {
        FirstWithIdSpec(st.cols, params[0]);
        var b := BestMatch(score, Join(params[1..]), Names(st.cols), DefaultThreshold);
        if b.Some? {
          BestColumnResolves(score, Join(params[1..]), st.cols);
          MoveTaskSpec(st.cols, h.value, FindCI(st.cols, b.value).value);
        }
      }
    }
  }

  /**
   * `remove_task_by_id` removes exactly the task `find_task_by_id` returns:
   * the first carrying the id in column order, then list order. The task
   * count drops by one, nothing else changes, and on a valid board the id is
   * then no longer in use.
   */
  lemma RemoveTaskByIdFound(st: State, params: seq<string>)
    requires params != [] && IdUsed(st.cols, params[0])
    ensures FirstWithId(st.cols, params[0]).Some?
    ensures var loc := FirstWithId(st.cols, params[0]).value;
      ValidLocation(st.cols, loc) && TaskAt(st.cols, loc).id == params[0]
    ensures var loc := FirstWithId(st.cols, params[0]).value;
      var r := RemoveTaskById(st, params).cols;
      var ts := st.cols[loc.col].tasks;
      && (forall c, p :: 0 <= c < loc.col && 0 <= p < |st.cols[c].tasks| ==> st.cols[c].tasks[p].id != params[0])
      && (forall q :: 0 <= q < loc.pos ==> ts[q].id != params[0])
      && Names(r) == Names(st.cols)
      && r[loc.col].tasks == ts[..loc.pos] + ts[loc.pos + 1..]
      && (forall k :: 0 <= k < |st.cols| && k != loc.col ==> r[k] == st.cols[k])
      && multiset(AllTasks(r)) + multiset{TaskAt(st.cols, loc)} == multiset(AllTasks(st.cols))
      && TaskCount(r) + 1 == TaskCount(st.cols)
  {
    FirstWithIdSpec(st.cols, params[0]);
    var loc := FirstWithId(st.cols, params[0]).value;
    RemoveTaskAtSpec(st.cols, loc);
  }

  /** On a valid board the removed id is gone afterwards. */
  lemma RemoveTaskByIdDropsId(st: State, params: seq<string>)
    requires params != [] && Valid(st.cols)
    ensures !IdUsed(RemoveTaskById(st, params).cols, params[0])
  {
    var id := params[0];
    FirstWithIdSpec(st.cols, id);
    var r := RemoveTaskById(st, params).cols;
    if IdUsed(st.cols, id) {
      var loc := FirstWithId(st.cols, id).value;
      RemoveIdBag(st.cols, loc);
      assert IdBag(st.cols)[id] <= 1;
      assert IdBag(r)[id] == 0;
    }
    IdUsedIffInBag(r, id);
  }

  /** An unknown id leaves the board unchanged. */
  lemma RemoveTaskByIdMissing(st: State, params: seq<string>)
    requires params != [] && !IdUsed(st.cols, params[0])
    ensures RemoveTaskById(st, params).cols == st.cols
  {
    FirstWithIdSpec(st.cols, params[0]);
  }

  lemma RemoveTaskByIdKeepsValid(st: State, params: seq<string>)
    requires Valid(st.cols)
    ensures Valid(RemoveTaskById(st, params).cols)
  {
    if params != [] {
      var h := FirstWithId(st.cols, params[0]);
      if h.Some? {
        FirstWithIdSpec(st.cols, params[0]);
        RemoveTaskAtSpec(st.cols, h.value);
      }
    }
  }

  // ---------------------------------------------------------------------------
  // Updating a task in place

  /**
   * `prioritize_task` with a valid level and a known id sets the priority of
   * the first task carrying the id and leaves every other field and task as
   * it was.
   */
  lemma PrioritizeTaskSets(st: State, params: seq<string>)
    requires 2 <= |params| && PriorityOf(Lower(params[1])).Some? && IdUsed(st.cols, params[0])
    ensures FirstWithId(st.cols, params[0]).Some?
    ensures var loc := FirstWithId(st.cols, params[0]).value;
      && ValidLocation(st.cols, loc)
      && TaskAt(st.cols, loc).id == params[0]
    ensures var loc := FirstWithId(st.cols, params[0]).value;
      var r := PrioritizeTask(st, params).cols;
      && Names(r) == Names(st.cols)
      && ValidLocation(r, loc)
      && TaskAt(r, loc) == TaskAt(st.cols, loc).(priority := PriorityOf(Lower(params[1])).value)
      && (forall k :: 0 <= k < |st.cols| && k != loc.col ==> r[k] == st.cols[k])
      && (forall q :: 0 <= q < |st.cols[loc.col].tasks| && q != loc.pos ==> r[loc.col].tasks[q] == st.cols[loc.col].tasks[q])
      && |r[loc.col].tasks| == |st.cols[loc.col].tasks|
  {
    FirstWithIdSpec(st.cols, params[0]);
    var loc := FirstWithId(st.cols, params[0]).value;
    UpdateTaskSpec(st.cols, loc, TaskAt(st.cols, loc).(priority := PriorityOf(Lower(params[1])).value));
  }

  /** The level is checked first: an unknown level, or an unknown id, leaves the board unchanged. */
  lemma PrioritizeTaskUnchanged(st: State, params: seq<string>)
    requires 2 <= |params| && (PriorityOf(Lower(params[1])).None? || !IdUsed(st.cols, params[0]))
    ensures PrioritizeTask(st, params).cols == st.cols
  {
    FirstWithIdSpec(st.cols, params[0]);
  }

  /** The levels `prioritize_task` accepts, after lower-casing. */
  lemma PriorityOfSpec(level: string)
    ensures PriorityOf(level).Some? <==> level == "high" || level == "medium" || level == "low"
    ensures PriorityOf("high") == Some(High) && PriorityOf("medium") == Some(Medium) && PriorityOf("low") == Some(Low)
  {
  }

  lemma PrioritizeTaskKeepsValid(st: State, params: seq<string>)
    requires Valid(st.cols)
    ensures Valid(PrioritizeTask(st, params).cols)
  {
    if |params| >= 2 {
      var h := FirstWithId(st.cols, params[0]);
      var p := PriorityOf(Lower(params[1]));
      if h.Some? && p.Some? {
        FirstWithIdSpec(st.cols, params[0]);
        UpdateTaskSpec(st.cols, h.value, TaskAt(st.cols, h.value).(priority := p.value));
      }
    }
  }

  /**
   * `set_task_deadline` for a known id: a parsed date becomes the deadline of
   * the first task carrying the id, `None` from the parser raises without a
   * change, and a parse error only logs.
   */
  lemma SetTaskDeadlineSpec(env: Env, st: State, params: seq<string>)
    requires 2 <= |params| && IdUsed(st.cols, params[0])
    ensures FirstWithId(st.cols, params[0]).Some?
    ensures var loc := FirstWithId(st.cols, params[0]).value;
      && ValidLocation(st.cols, loc)
      && TaskAt(st.cols, loc).id == params[0]
    ensures var loc := FirstWithId(st.cols, params[0]).value;
      var r := SetTaskDeadline(env, st, params);
      match env.parseDate(Join(params[1..]))
      case Date(stamp) =>
        && r.outcome == Continue
        && Names(r.st.cols) == Names(st.cols)
        && ValidLocation(r.st.cols, loc)
        && TaskAt(r.st.cols, loc) == TaskAt(st.cols, loc).(deadline := Some(stamp))
        && (forall k :: 0 <= k < |st.cols| && k != loc.col ==> r.st.cols[k] == st.cols[k])
        && (forall q :: 0 <= q < |st.cols[loc.col].tasks| && q != loc.pos ==>
          r.st.cols[loc.col].tasks[q] == st.cols[loc.col].tasks[q])
        && |r.st.cols[loc.col].tasks| == |st.cols[loc.col].tasks|
      case NoDate => r.outcome == Crashed(StrftimeOfNone) && r.st.cols == st.cols
      case ParseError => r.outcome == Continue && r.st.cols == st.cols
  {
    FirstWithIdSpec(st.cols, params[0]);
    var loc := FirstWithId(st.cols, params[0]).value;
    var d := env.parseDate(Join(params[1..]));
    if d.Date? {
      UpdateTaskSpec(st.cols, loc, TaskAt(st.cols, loc).(deadline := Some(d.stamp)));
    }
  }

  /** An unknown id leaves the board unchanged, whatever the date. */
  lemma SetTaskDeadlineMissing(env: Env, st: State, params: seq<string>)
    requires 2 <= |params| && !IdUsed(st.cols, params[0])
    ensures SetTaskDeadline(env, st, params) == Step(Log(st, "Task with ID " + params[0] + " not found."), Continue)
  {
    FirstWithIdSpec(st.cols, params[0]);
  }

  lemma SetTaskDeadlineKeepsValid(env: Env, st: State, params: seq<string>)
    requires Valid(st.cols)
    ensures Valid(SetTaskDeadline(env, st, params).st.cols)
  {
    if |params| >= 2 {
      var h := FirstWithId(st.cols, params[0]);
      if h.Some? {
        FirstWithIdSpec(st.cols, params[0]);
        var d := env.parseDate(Join(params[1..]));
        if d.Date? {
          UpdateTaskSpec(st.cols, h.value, TaskAt(st.cols, h.value).(deadline := Some(d.stamp)));
        }
      }
    }
  }

  /** `edit_task ... description <text>` replaces the description of the first task with that id and nothing else. */
  lemma EditTaskDescription(env: Env, st: State, params: seq<string>)
    requires 3 <= |params| && params[1] == "description" && IdUsed(st.cols, params[0])
    ensures FirstWithId(st.cols, params[0]).Some?
    ensures var loc := FirstWithId(st.cols, params[0]).value;
      && ValidLocation(st.cols, loc)
      && TaskAt(st.cols, loc).id == params[0]
    ensures var loc := FirstWithId(st.cols, params[0]).value;
      var r := EditTask(env, st, params);
      && r.outcome == Continue
      && Names(r.st.cols) == Names(st.cols)
      && ValidLocation(r.st.cols, loc)
      && TaskAt(r.st.cols, loc) == TaskAt(st.cols, loc).(description := Join(params[2..]))
      && (forall k :: 0 <= k < |st.cols| && k != loc.col ==> r.st.cols[k] == st.cols[k])
      && (forall q :: 0 <= q < |st.cols[loc.col].tasks| && q != loc.pos ==>
        r.st.cols[loc.col].tasks[q] == st.cols[loc.col].tasks[q])
      && |r.st.cols[loc.col].tasks| == |st.cols[loc.col].tasks|
  {
    FirstWithIdSpec(st.cols, params[0]);
    var loc := FirstWithId(st.cols, params[0]).value;
    UpdateTaskSpec(st.cols, loc, TaskAt(st.cols, loc).(description := Join(params[2..])));
  }

  /** `edit_task ... deadline|due <date>` is `set_task_deadline` on the id and the remaining tokens. */
  lemma EditTaskDeadline(env: Env, st: State, params: seq<string>)
    requires 3 <= |params| && (params[1] == "deadline" || params[1] == "due")
    ensures EditTask(env, st, params) == SetTaskDeadline(env, st, [params[0]] + params[2..])
  {
  }

  /** Any other property name (compared exactly, so `Description` too) leaves the board unchanged. */
  lemma EditTaskOtherProperty(env: Env, st: State, params: seq<string>)
    requires 3 <= |params| && params[1] != "description" && params[1] != "deadline" && params[1] != "due"
    ensures EditTask(env, st, params).outcome == Continue
    ensures EditTask(env, st, params).st.cols == st.cols
  {
  }

  lemma EditTaskKeepsValid(env: Env, st: State, params: seq<string>)
    requires Valid(st.cols)
    ensures Valid(EditTask(env, st, params).st.cols)
  {
    if |params| >= 3 {
      var h := FirstWithId(st.cols, params[0]);
      if h.Some? {
        FirstWithIdSpec(st.cols, params[0]);
        if params[1] == "deadline" || params[1] == "due" {
          SetTaskDeadlineKeepsValid(env, st, [params[0]] + params[2..]);
        } else if params[1] == "description" {
          UpdateTaskSpec(st.cols, h.value, TaskAt(st.cols, h.value).(description := Join(params[2..])));
        }
      }
    }
  }

  // ---------------------------------------------------------------------------
  // Dispatch

  /** An entry of the dispatch table whose key is `name`, from position `i` on, is found. */
  lemma {:induction false} LookupFromFinds(name: string, i: nat, k: nat)
    requires i <= k < |CommandTable| && CommandTable[k].0 == name
    ensures LookupFrom(name, i).Some?
    decreases k - i
  {
    if CommandTable[i].0 != name {
      LookupFromFinds(name, i + 1, k);
    }
  }

  /** What the table lookup finds is an entry of the table under that key. */
  lemma {:induction false} LookupFromSound(name: string, i: nat)
    requires i <= |CommandTable| && LookupFrom(name, i).Some?
    ensures exists k :: i <= k < |CommandTable| && CommandTable[k] == (name, LookupFrom(name, i).value)
    decreases |CommandTable| - i
  {
    if CommandTable[i].0 != name {
      LookupFromSound(name, i + 1);
    }
  }

  /** Every key of the dispatch table is already lower-case. */
  lemma CommandKeysLower(k: nat)
    requires k < |CommandTable|
    ensures Lower(CommandTable[k].0) == CommandTable[k].0
  {
  }

  /**
   * A command word is recognised exactly when some key of the dispatch table
   * scores at or above the threshold against it; the handler then is the
   * entry of a best-scoring key.
   */
  lemma ResolveCommandSpec(score: Scorer, word: string)
    ensures ResolveCommand(score, word).None? <==>
      forall j :: 0 <= j < |CommandTable| ==> ScoreAt(score, word, CommandNames(), j) < DefaultThreshold
    ensures ResolveCommand(score, word).Some? ==>
      exists k :: 0 <= k < |CommandTable| && CommandTable[k].1 == ResolveCommand(score, word).value
        && DefaultThreshold <= ScoreAt(score, word, CommandNames(), k)
        && forall j :: 0 <= j < |CommandTable| ==> ScoreAt(score, word, CommandNames(), j) <= ScoreAt(score, word, CommandNames(), k)
  {
    var names := CommandNames();
    BestMatchSpec(score, word, names, DefaultThreshold);
    var b := BestMatch(score, word, names, DefaultThreshold);
    if b.Some? {
      var kb := BestIndex(score, word, names);
      CommandKeysLower(kb);
      assert b.value == CommandTable[kb].0;
      LookupFromFinds(b.value, 0, kb);
      LookupFromSound(b.value, 0);
      var k :| 0 <= k < |CommandTable| && CommandTable[k] == (b.value, LookupCommand(b.value).value);
      assert ScoreAt(score, word, names, k) == ScoreAt(score, word, names, kb);
    }
  }

  /** An empty command line, or one whose first word matches no command, changes nothing at all. */
  lemma ExecuteIgnoresUnknown(env: Env, st: State, commandStr: string, now: string)
    requires var words := Split(commandStr);
      words == [] || forall j :: 0 <= j < |CommandTable| ==> ScoreAt(env.score, words[0], CommandNames(), j) < DefaultThreshold
    ensures Execute(env, st, commandStr, now) == Step(st, Continue)
  {
  }

  /** Every command handler keeps the board invariant: distinct keys and unique task ids. */
  lemma RunKeepsValid(env: Env, st: State, cmd: Command, params: seq<string>, now: string)
    requires Valid(st.cols)
    ensures Valid(Run(env, st, cmd, params, now).st.cols)
  {
    match cmd
    case CreateColumnCmd => CreateColumnKeepsValid(st, params);
    case DestroyColumnCmd => DestroyColumnKeepsValid(st, params);
    case SetTaskDeadlineCmd => SetTaskDeadlineKeepsValid(env, st, params);
    case AddTaskCmd => AddTaskKeepsValid(env, st, params, now);
    case MoveTaskCmd => MoveTaskByIdKeepsValid(env.score, st, params);
    case RemoveTaskCmd => RemoveTaskByIdKeepsValid(st, params);
    case PrioritizeTaskCmd => PrioritizeTaskKeepsValid(st, params);
    case RenameColumnCmd => RenameColumnKeepsValid(st, params);
    case SwapColumnsCmd => SwapColumnsKeepsValid(st, params);
    case EditTaskCmd => EditTaskKeepsValid(env, st, params);
    case _ =>
  }

  /** `parse_and_execute_command` keeps the board invariant, whatever the command line. */
  lemma ExecuteKeepsValid(env: Env, st: State, commandStr: string, now: string)
    requires Valid(st.cols)
    ensures Valid(Execute(env, st, commandStr, now).st.cols)
  {
    var words := Split(commandStr);
    if words != [] {
      var c := ResolveCommand(env.score, words[0]);
      if c.Some? {
        RunKeepsValid(env, st.(log := st.log + [Entry(commandStr, 1, true)]), c.value, words[1..], now);
      }
    }
  }
}
