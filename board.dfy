/**
 * The data of a kapyban board and the effect of each mutation on it, as pure
 * functions over values. `KanbanBoard.columns` is a Python dict from column
 * name to a list of task dicts; dicts keep insertion order and that order is
 * the display order, so the board is a sequence of (name, tasks) columns.
 * The class in module Kanban is proved against these functions; the lemmas
 * here are the properties of each mutation.
 */
module Board {
  import opened Wrappers
  import opened Tokens

  datatype Priority = Low | Medium | High

  /** A task dict: `id`, `description`, `timestamp`, `priority` and, once set, `deadline`. */
  datatype Task = Task(id: string, description: string, timestamp: string, priority: Priority, deadline: Option<string>)

  datatype Column = Column(name: string, tasks: seq<Task>)

  /** Where a task sits: the position of its column and its position in that column's list. */
  datatype Location = Location(col: nat, pos: nat)

  function Names(cols: seq<Column>): seq<string> {
    seq(|cols|, i requires 0 <= i < |cols| => cols[i].name)
  }

  /** Dict keys are unique (compared exactly, not case-insensitively). */
  ghost predicate DistinctNames(cols: seq<Column>) {
    forall i, j :: 0 <= i < j < |cols| ==> cols[i].name != cols[j].name
  }

  predicate ValidLocation(cols: seq<Column>, loc: Location) {
    loc.col < |cols| && loc.pos < |cols[loc.col].tasks|
  }

  function TaskAt(cols: seq<Column>, loc: Location): Task
    requires ValidLocation(cols, loc)
  {
    cols[loc.col].tasks[loc.pos]
  }

  /** `is_id_used`: some task in some column carries `id`. */
  ghost predicate IdUsed(cols: seq<Column>, id: string) {
    exists c, p :: 0 <= c < |cols| && 0 <= p < |cols[c].tasks| && cols[c].tasks[p].id == id
  }

  // ---------------------------------------------------------------------------
  // All tasks of the board, in column order and then list order

  function AllTasks(cols: seq<Column>): seq<Task> {
    if |cols| == 0 then [] else cols[0].tasks + AllTasks(cols[1..])
  }

  function TaskCount(cols: seq<Column>): nat {
    |AllTasks(cols)|
  }

  function Ids(ts: seq<Task>): seq<string> {
    seq(|ts|, i requires 0 <= i < |ts| => ts[i].id)
  }

  /** How many tasks carry each id. */
  function IdBag(cols: seq<Column>): multiset<string> {
    multiset(Ids(AllTasks(cols)))
  }

  /** Each id is carried by at most one task on the whole board. */
  ghost predicate UniqueIds(cols: seq<Column>) {
    forall id :: IdBag(cols)[id] <= 1
  }

  /** The longest task id on the board (0 when there are no tasks). */
  function MaxIdLength(cols: seq<Column>): nat {
    MaxLength(Ids(AllTasks(cols)))
  }

  function MaxLength(ws: seq<string>): (m: nat)
    ensures forall k :: 0 <= k < |ws| ==> |ws[k]| <= m
    ensures ws != [] ==> exists k :: 0 <= k < |ws| && |ws[k]| == m
    ensures ws == [] ==> m == 0
  {
    if ws == [] then 0
    else
      var m := MaxLength(ws[1..]);
      if |ws[0]| > m then |ws[0]| else m
  }

  lemma {:induction false} AllTasksConcat(a: seq<Column>, b: seq<Column>)
    ensures AllTasks(a + b) == AllTasks(a) + AllTasks(b)
  {
    if |a| == 0 {
      assert a + b == b;
    } else {
      assert (a + b)[1..] == a[1..] + b;
      AllTasksConcat(a[1..], b);
    }
  }

  /** The tasks of the board split around column `i`. */
  lemma {:induction false} AllTasksAround(cols: seq<Column>, i: nat)
    requires i < |cols|
    ensures AllTasks(cols) == AllTasks(cols[..i]) + cols[i].tasks + AllTasks(cols[i + 1..])
  {
    if i == 0 {
      assert AllTasks(cols[..0]) == [];
    } else {
      AllTasksAround(cols[1..], i - 1);
      assert cols[1..][..i - 1] == cols[..i][1..];
      assert cols[1..][i - 1] == cols[i] && cols[1..][i..] == cols[i + 1..];
      assert AllTasks(cols[..i]) == cols[0].tasks + AllTasks(cols[..i][1..]);
    }
  }

  lemma IdsConcat(a: seq<Task>, b: seq<Task>)
    ensures Ids(a + b) == Ids(a) + Ids(b)
  {
  }

  /** Replacing column `i` replaces its tasks in the task bag and in the id bag. */
  lemma BagsUpdate(cols: seq<Column>, i: nat, c: Column)
    requires i < |cols|
    ensures multiset(AllTasks(cols[i := c])) + multiset(cols[i].tasks)
         == multiset(AllTasks(cols)) + multiset(c.tasks)
    ensures IdBag(cols[i := c]) + multiset(Ids(cols[i].tasks)) == IdBag(cols) + multiset(Ids(c.tasks))
  {
    var u := cols[i := c];
    AllTasksAround(cols, i);
    AllTasksAround(u, i);
    assert u[..i] == cols[..i] && u[i + 1..] == cols[i + 1..];
    var l, r := AllTasks(cols[..i]), AllTasks(cols[i + 1..]);
    IdsConcat(l + cols[i].tasks, r);
    IdsConcat(l, cols[i].tasks);
    IdsConcat(l + c.tasks, r);
    IdsConcat(l, c.tasks);
  }

  lemma {:induction false} IdUsedIffInBag(cols: seq<Column>, id: string)
    ensures IdUsed(cols, id) <==> id in IdBag(cols)
  {
    if cols == [] {
    } else {
      var rest := cols[1..];
      IdUsedIffInBag(rest, id);
      IdsConcat(cols[0].tasks, AllTasks(rest));
      if IdUsed(cols, id) {
        var c, p :| 0 <= c < |cols| && 0 <= p < |cols[c].tasks| && cols[c].tasks[p].id == id;
        if c == 0 {
          assert Ids(cols[0].tasks)[p] == id;
        } else {
          assert rest[c - 1].tasks[p].id == id;
        }
      }
      if id in IdBag(cols) {
        if id in Ids(cols[0].tasks) {
          var p :| 0 <= p < |cols[0].tasks| && Ids(cols[0].tasks)[p] == id;
          assert cols[0].tasks[p].id == id;
        } else {
          assert IdUsed(rest, id);
          var c, p :| 0 <= c < |rest| && 0 <= p < |rest[c].tasks| && rest[c].tasks[p].id == id;
          assert cols[c + 1].tasks[p].id == id;
        }
      }
    }
  }

  /** An id in use is no longer than the longest id on the board. */
  lemma UsedIdIsShort(cols: seq<Column>, id: string)
    requires IdUsed(cols, id)
    ensures |id| <= MaxIdLength(cols)
  {
    IdUsedIffInBag(cols, id);
    var ids := Ids(AllTasks(cols));
    var k :| 0 <= k < |ids| && ids[k] == id;
  }

  // ---------------------------------------------------------------------------
  // Lookups

  /** `find_column_case_insensitive`: the first column whose lower-cased name equals the lower-cased `name`. */
  function FindCI(cols: seq<Column>, name: string): (r: Option<nat>)
    ensures r.Some? ==> r.value < |cols|
  {
    FindCIFrom(cols, name, 0)
  }

  function FindCIFrom(cols: seq<Column>, name: string, from: nat): (r: Option<nat>)
    requires from <= |cols|
    ensures r.Some? ==> from <= r.value < |cols|
    decreases |cols| - from
  {
    if from == |cols| then None
    else if Lower(cols[from].name) == Lower(name) then Some(from)
    else FindCIFrom(cols, name, from + 1)
  }

  lemma {:induction false} FindCIFromSpec(cols: seq<Column>, name: string, from: nat)
    requires from <= |cols|
    ensures FindCIFrom(cols, name, from).None? <==> forall i :: from <= i < |cols| ==> Lower(cols[i].name) != Lower(name)
    ensures FindCIFrom(cols, name, from).Some? ==>
      var k := FindCIFrom(cols, name, from).value;
      Lower(cols[k].name) == Lower(name) && forall i :: from <= i < k ==> Lower(cols[i].name) != Lower(name)
    decreases |cols| - from
  {
    if from < |cols| && Lower(cols[from].name) != Lower(name) {
      FindCIFromSpec(cols, name, from + 1);
    }
  }

  /**
   * The case-insensitive lookup finds nothing exactly when no key matches,
   * and otherwise the first key that does.
   */
  lemma FindCISpec(cols: seq<Column>, name: string)
    ensures FindCI(cols, name).None? <==> forall i :: 0 <= i < |cols| ==> Lower(cols[i].name) != Lower(name)
    ensures FindCI(cols, name).Some? ==>
      var k := FindCI(cols, name).value;
      Lower(cols[k].name) == Lower(name) && forall i :: 0 <= i < k ==> Lower(cols[i].name) != Lower(name)
  {
    FindCIFromSpec(cols, name, 0);
  }

  /** A lower-cased column name (what `find_best_match` returns) always resolves case-insensitively. */
  lemma LowerNameResolves(cols: seq<Column>, k: nat)
    requires k < |cols|
    ensures FindCI(cols, Lower(cols[k].name)).Some?
  {
    LowerIdempotent(cols[k].name);
    FindCISpec(cols, Lower(cols[k].name));
  }

  /** Position of the first task in `ts`, from position `from` on, that carries `id`. */
  function IndexOfId(ts: seq<Task>, id: string, from: nat): Option<nat>
    requires from <= |ts|
    decreases |ts| - from
  {
    if from == |ts| then None
    else if ts[from].id == id then Some(from)
    else IndexOfId(ts, id, from + 1)
  }

  /** `find_task_by_id`: the first task carrying `id`, in column order and then list order. */
  function FirstWithId(cols: seq<Column>, id: string): Option<Location> {
    FirstWithIdFrom(cols, id, 0)
  }

  function FirstWithIdFrom(cols: seq<Column>, id: string, from: nat): Option<Location>
    requires from <= |cols|
    decreases |cols| - from
  {
    if from == |cols| then None
    else match IndexOfId(cols[from].tasks, id, 0)
      case Some(p) => Some(Location(from, p))
      case None => FirstWithIdFrom(cols, id, from + 1)
  }

  lemma {:induction false} IndexOfIdSpec(ts: seq<Task>, id: string, from: nat)
    requires from <= |ts|
    ensures IndexOfId(ts, id, from).None? <==> forall p :: from <= p < |ts| ==> ts[p].id != id
    ensures IndexOfId(ts, id, from).Some? ==>
      var p := IndexOfId(ts, id, from).value;
      from <= p < |ts| && ts[p].id == id && forall q :: from <= q < p ==> ts[q].id != id
    decreases |ts| - from
  {
    if from < |ts| && ts[from].id != id {
      IndexOfIdSpec(ts, id, from + 1);
    }
  }

  lemma {:induction false} FirstWithIdFromSpec(cols: seq<Column>, id: string, from: nat)
    requires from <= |cols|
    ensures FirstWithIdFrom(cols, id, from).None? <==>
      forall c, p :: from <= c < |cols| && 0 <= p < |cols[c].tasks| ==> cols[c].tasks[p].id != id
    ensures FirstWithIdFrom(cols, id, from).Some? ==>
      var loc := FirstWithIdFrom(cols, id, from).value;
      && from <= loc.col && ValidLocation(cols, loc) && TaskAt(cols, loc).id == id
      && (forall c, p :: from <= c < loc.col && 0 <= p < |cols[c].tasks| ==> cols[c].tasks[p].id != id)
      && (forall q :: 0 <= q < loc.pos ==> cols[loc.col].tasks[q].id != id)
    decreases |cols| - from
  {
    if from < |cols| {
      IndexOfIdSpec(cols[from].tasks, id, 0);
      if IndexOfId(cols[from].tasks, id, 0).None? {
        FirstWithIdFromSpec(cols, id, from + 1);
      }
    }
  }

  /**
   * `find_task_by_id` finds nothing exactly when no task carries the id, and
   * otherwise the first task that does, in column order and then list order.
   */
  lemma FirstWithIdSpec(cols: seq<Column>, id: string)
    ensures FirstWithId(cols, id).None? <==> !IdUsed(cols, id)
    ensures FirstWithId(cols, id).Some? ==>
      var loc := FirstWithId(cols, id).value;
      && ValidLocation(cols, loc) && TaskAt(cols, loc).id == id
      && (forall c, p :: 0 <= c < loc.col && 0 <= p < |cols[c].tasks| ==> cols[c].tasks[p].id != id)
      && (forall q :: 0 <= q < loc.pos ==> cols[loc.col].tasks[q].id != id)
  {
    FirstWithIdFromSpec(cols, id, 0);
  }

  // ---------------------------------------------------------------------------
  // Mutations and their properties

  /** `self.columns[name] = []` for a new key: appended as the last column. */
  function AddColumn(cols: seq<Column>, name: string): seq<Column> {
    cols + [Column(name, [])]
  }

  /** `del self.columns[key]` for the key at position `i`. */
  function DeleteColumn(cols: seq<Column>, i: nat): seq<Column>
    requires i < |cols|
  {
    cols[..i] + cols[i + 1..]
  }

  /** `self.columns[new] = self.columns.pop(old)`: the column is popped, then re-inserted last under the new key. */
  function Rekey(cols: seq<Column>, i: nat, newName: string): seq<Column>
    requires i < |cols|
  {
    DeleteColumn(cols, i) + [Column(newName, cols[i].tasks)]
  }

  /** `columns[a], columns[b] = columns[b], columns[a]`: the names stay, the lists trade places. */
  function SwapTasks(cols: seq<Column>, i: nat, j: nat): seq<Column>
    requires i < |cols| && j < |cols|
  {
    cols[i := Column(cols[i].name, cols[j].tasks)][j := Column(cols[j].name, cols[i].tasks)]
  }

  /** `self.columns[key].append(task)`. */
  function AppendTask(cols: seq<Column>, i: nat, t: Task): seq<Column>
    requires i < |cols|
  {
    cols[i := Column(cols[i].name, cols[i].tasks + [t])]
  }

  /** `self.columns[key].remove(task)` where `task` is the one at `loc`. */
  function RemoveTaskAt(cols: seq<Column>, loc: Location): seq<Column>
    requires ValidLocation(cols, loc)
  {
    var ts := cols[loc.col].tasks;
    cols[loc.col := Column(cols[loc.col].name, ts[..loc.pos] + ts[loc.pos + 1..])]
  }

  /** Remove the task at `loc`, then append it to column `target`. */
  function MoveTask(cols: seq<Column>, loc: Location, target: nat): seq<Column>
    requires ValidLocation(cols, loc) && target < |cols|
  {
    AppendTask(RemoveTaskAt(cols, loc), target, TaskAt(cols, loc))
  }

  /** A field assignment on the task dict at `loc` (priority, description or deadline). */
  function UpdateTask(cols: seq<Column>, loc: Location, t: Task): seq<Column>
    requires ValidLocation(cols, loc)
  {
    cols[loc.col := Column(cols[loc.col].name, cols[loc.col].tasks[loc.pos := t])]
  }

  /** The board invariant: keys distinct, ids unique across the board. */
  ghost predicate Valid(cols: seq<Column>) {
    DistinctNames(cols) && UniqueIds(cols)
  }

  lemma AddColumnSpec(cols: seq<Column>, name: string)
    ensures Names(AddColumn(cols, name)) == Names(cols) + [name]
    ensures AddColumn(cols, name)[|cols|].tasks == []
    ensures AllTasks(AddColumn(cols, name)) == AllTasks(cols)
    ensures Valid(cols) && name !in Names(cols) ==> Valid(AddColumn(cols, name))
  {
    var r := AddColumn(cols, name);
    NamesAppend(cols, Column(name, []));
    assert AllTasks(r) == AllTasks(cols) by {
      AllTasksConcat(cols, [Column(name, [])]);
      assert AllTasks([Column(name, [])]) == [] + AllTasks([]);
    }
    if Valid(cols) && name !in Names(cols) {
      assert DistinctNames(r) by {
        forall a, b | 0 <= a < b < |r|
          ensures r[a].name != r[b].name
        {
          if b == |cols| {
            assert r[a].name == Names(cols)[a];
          }
        }
      }
      assert UniqueIds(r) by {
        assert IdBag(r) == IdBag(cols);
      }
    }
  }

  /** The id bag of the board split around column `i`. */
  lemma IdBagAround(cols: seq<Column>, i: nat)
    requires i < |cols|
    ensures IdBag(cols) == IdBag(cols[..i]) + multiset(Ids(cols[i].tasks)) + IdBag(cols[i + 1..])
  {
    AllTasksAround(cols, i);
    var l, m, h := AllTasks(cols[..i]), cols[i].tasks, AllTasks(cols[i + 1..]);
    IdsConcat(l + m, h);
    IdsConcat(l, m);
  }

  /** Dropping column `i`: its ids leave the id bag. */
  lemma IdBagDelete(cols: seq<Column>, i: nat)
    requires i < |cols|
    ensures IdBag(DeleteColumn(cols, i)) + multiset(Ids(cols[i].tasks)) == IdBag(cols)
    ensures multiset(AllTasks(DeleteColumn(cols, i))) + multiset(cols[i].tasks) == multiset(AllTasks(cols))
  {
    IdBagAround(cols, i);
    AllTasksAround(cols, i);
    AllTasksConcat(cols[..i], cols[i + 1..]);
    IdsConcat(AllTasks(cols[..i]), AllTasks(cols[i + 1..]));
  }

  lemma NamesDelete(cols: seq<Column>, i: nat)
    requires i < |cols|
    ensures Names(DeleteColumn(cols, i)) == Names(cols)[..i] + Names(cols)[i + 1..]
  {
  }

  lemma DeleteKeepsDistinct(cols: seq<Column>, i: nat)
    requires i < |cols| && DistinctNames(cols)
    ensures DistinctNames(DeleteColumn(cols, i))
  {
  }

  /** Taking ids off a board with unique ids keeps them unique. */
  lemma SubBagKeepsUnique(cols: seq<Column>, r: seq<Column>)
    requires UniqueIds(cols) && IdBag(r) <= IdBag(cols)
    ensures UniqueIds(r)
  {
  }

  /** With unique ids, no task of a destroyed column can be found afterwards. */
  lemma DeletedTasksGone(cols: seq<Column>, i: nat)
    requires i < |cols| && UniqueIds(cols)
    ensures forall t :: t in cols[i].tasks ==> !IdUsed(DeleteColumn(cols, i), t.id)
  {
    var r := DeleteColumn(cols, i);
    var m := cols[i].tasks;
    IdBagDelete(cols, i);
    forall t | t in m
      ensures !IdUsed(r, t.id)
    {
      var p :| 0 <= p < |m| && m[p] == t;
      assert Ids(m)[p] == t.id;
      assert multiset(Ids(m))[t.id] >= 1;
      assert IdBag(cols)[t.id] <= 1;
      IdUsedIffInBag(r, t.id);
    }
  }

  /**
   * Destroying a column takes exactly its tasks off the board; with unique
   * ids, none of them can be found afterwards.
   */
  lemma DeleteColumnSpec(cols: seq<Column>, i: nat)
    requires i < |cols|
    ensures Names(DeleteColumn(cols, i)) == Names(cols)[..i] + Names(cols)[i + 1..]
    ensures |DeleteColumn(cols, i)| == |cols| - 1
    ensures forall k :: 0 <= k < i ==> DeleteColumn(cols, i)[k] == cols[k]
    ensures forall k :: i <= k < |cols| - 1 ==> DeleteColumn(cols, i)[k] == cols[k + 1]
    ensures multiset(AllTasks(DeleteColumn(cols, i))) + multiset(cols[i].tasks) == multiset(AllTasks(cols))
    ensures Valid(cols) ==> Valid(DeleteColumn(cols, i))
    ensures Valid(cols) ==> forall t :: t in cols[i].tasks ==> !IdUsed(DeleteColumn(cols, i), t.id)
  {
    var r := DeleteColumn(cols, i);
    IdBagDelete(cols, i);
    NamesDelete(cols, i);
    if Valid(cols) {
      DeleteKeepsDistinct(cols, i);
      SubBagKeepsUnique(cols, r);
      DeletedTasksGone(cols, i);
    }
  }

  lemma NamesAppend(cols: seq<Column>, c: Column)
    ensures Names(cols + [c]) == Names(cols) + [c.name]
  {
  }

  /** Replacing a column by one of the same name keeps the key sequence. */
  lemma NamesUpdate(cols: seq<Column>, i: nat, c: Column)
    requires i < |cols| && c.name == cols[i].name
    ensures Names(cols[i := c]) == Names(cols)
  {
  }

  lemma RekeyKeepsDistinct(cols: seq<Column>, i: nat, newName: string)
    requires i < |cols| && DistinctNames(cols) && newName !in Names(cols)
    ensures DistinctNames(Rekey(cols, i, newName))
  {
    var d, r := DeleteColumn(cols, i), Rekey(cols, i, newName);
    DeleteKeepsDistinct(cols, i);
    forall a, b | 0 <= a < b < |r|
      ensures r[a].name != r[b].name
    {
      if b == |r| - 1 {
        var a' := if a < i then a else a + 1;
        assert r[a] == cols[a'];
        assert Names(cols)[a'] == r[a].name;
      } else {
        assert r[a] == d[a] && r[b] == d[b];
      }
    }
  }

  lemma RekeyDropsOldName(cols: seq<Column>, i: nat, newName: string)
    requires i < |cols| && DistinctNames(cols) && newName != cols[i].name
    ensures cols[i].name !in Names(Rekey(cols, i, newName))
  {
  }

  /** Two boards with the same key sequence: distinct keys carry over. */
  lemma SameNamesKeepDistinct(cols: seq<Column>, r: seq<Column>)
    requires Names(r) == Names(cols) && DistinctNames(cols)
    ensures DistinctNames(r)
  {
    forall a, b | 0 <= a < b < |r|
      ensures r[a].name != r[b].name
    {
      assert |Names(r)| == |r| && |Names(cols)| == |cols|;
      assert r[a].name == Names(r)[a] == Names(cols)[a] == cols[a].name;
      assert r[b].name == Names(r)[b] == Names(cols)[b] == cols[b].name;
    }
  }

  lemma RekeyBags(cols: seq<Column>, i: nat, newName: string)
    requires i < |cols|
    ensures multiset(AllTasks(Rekey(cols, i, newName))) == multiset(AllTasks(cols))
    ensures IdBag(Rekey(cols, i, newName)) == IdBag(cols)
  {
    var d := DeleteColumn(cols, i);
    var c := Column(newName, cols[i].tasks);
    var r := Rekey(cols, i, newName);
    IdBagDelete(cols, i);
    AllTasksConcat(d, [c]);
    assert AllTasks([c]) == c.tasks + AllTasks([]);
    assert AllTasks(r) == AllTasks(d) + c.tasks;
    IdsConcat(AllTasks(d), c.tasks);
    assert IdBag(r) == IdBag(d) + multiset(Ids(c.tasks));
  }

  /**
   * Renaming: the old key is gone, the new key holds the same task list in
   * the last position, and the other columns keep their relative order.
   */
  lemma RekeySpec(cols: seq<Column>, i: nat, newName: string)
    requires i < |cols|
    ensures Names(Rekey(cols, i, newName)) == Names(cols)[..i] + Names(cols)[i + 1..] + [newName]
    ensures |Rekey(cols, i, newName)| == |cols|
    ensures Rekey(cols, i, newName)[|cols| - 1] == Column(newName, cols[i].tasks)
    ensures forall k :: 0 <= k < i ==> Rekey(cols, i, newName)[k] == cols[k]
    ensures forall k :: i <= k < |cols| - 1 ==> Rekey(cols, i, newName)[k] == cols[k + 1]
    ensures multiset(AllTasks(Rekey(cols, i, newName))) == multiset(AllTasks(cols))
    ensures DistinctNames(cols) && newName != cols[i].name ==> cols[i].name !in Names(Rekey(cols, i, newName))
    ensures Valid(cols) && newName !in Names(cols) ==> Valid(Rekey(cols, i, newName))
  {
    var r := Rekey(cols, i, newName);
    assert Names(r) == Names(cols)[..i] + Names(cols)[i + 1..] + [newName] by {
      NamesDelete(cols, i);
      NamesAppend(DeleteColumn(cols, i), Column(newName, cols[i].tasks));
    }
    RekeyBags(cols, i, newName);
    if DistinctNames(cols) && newName != cols[i].name {
      RekeyDropsOldName(cols, i, newName);
    }
    if Valid(cols) && newName !in Names(cols) {
      RekeyKeepsDistinct(cols, i, newName);
    }
  }

  lemma SwapBags(cols: seq<Column>, i: nat, j: nat)
    requires i < |cols| && j < |cols|
    ensures multiset(AllTasks(SwapTasks(cols, i, j))) == multiset(AllTasks(cols))
    ensures IdBag(SwapTasks(cols, i, j)) == IdBag(cols)
  {
    var ci := Column(cols[i].name, cols[j].tasks);
    var u := cols[i := ci];
    var cj := Column(cols[j].name, cols[i].tasks);
    var r := u[j := cj];
    if i == j {
      assert r == cols;
    } else {
      BagsUpdate(cols, i, ci);
      BagsUpdate(u, j, cj);
      assert u[j] == cols[j];
      var mi, mj := multiset(cols[i].tasks), multiset(cols[j].tasks);
      assert multiset(AllTasks(r)) + mj == multiset(AllTasks(cols)) + mj;
      Cancel(multiset(AllTasks(r)), multiset(AllTasks(cols)), mj, multiset{});
      var ni, nj := multiset(Ids(cols[i].tasks)), multiset(Ids(cols[j].tasks));
      assert IdBag(r) + nj == IdBag(cols) + nj;
      Cancel(IdBag(r), IdBag(cols), nj, multiset{});
    }
  }

  /**
   * Swapping exchanges the two task lists; names and order are unchanged,
   * nothing else moves, and a column swapped with itself is left alone.
   */
  lemma SwapTasksSpec(cols: seq<Column>, i: nat, j: nat)
    requires i < |cols| && j < |cols|
    ensures Names(SwapTasks(cols, i, j)) == Names(cols)
    ensures SwapTasks(cols, i, j)[i].tasks == cols[j].tasks
    ensures SwapTasks(cols, i, j)[j].tasks == cols[i].tasks
    ensures forall k :: 0 <= k < |cols| && k != i && k != j ==> SwapTasks(cols, i, j)[k] == cols[k]
    ensures i == j ==> SwapTasks(cols, i, j) == cols
    ensures multiset(AllTasks(SwapTasks(cols, i, j))) == multiset(AllTasks(cols))
    ensures Valid(cols) ==> Valid(SwapTasks(cols, i, j))
  {
    SwapPositions(cols, i, j);
    SwapNames(cols, i, j);
    SwapBags(cols, i, j);
    if Valid(cols) {
      SwapKeepsValid(cols, i, j);
    }
  }

  lemma SwapPositions(cols: seq<Column>, i: nat, j: nat)
    requires i < |cols| && j < |cols|
    ensures |SwapTasks(cols, i, j)| == |cols|
    ensures SwapTasks(cols, i, j)[i].tasks == cols[j].tasks
    ensures SwapTasks(cols, i, j)[j].tasks == cols[i].tasks
    ensures forall k :: 0 <= k < |cols| && k != i && k != j ==> SwapTasks(cols, i, j)[k] == cols[k]
    ensures i == j ==> SwapTasks(cols, i, j) == cols
  {
    var r := SwapTasks(cols, i, j);
    if i == j {
      assert r[i] == cols[i];
      assert forall k :: 0 <= k < |cols| ==> r[k] == cols[k];
    }
  }

  lemma SwapNames(cols: seq<Column>, i: nat, j: nat)
    requires i < |cols| && j < |cols|
    ensures Names(SwapTasks(cols, i, j)) == Names(cols)
  {
    var ci := Column(cols[i].name, cols[j].tasks);
    NamesUpdate(cols, i, ci);
    NamesUpdate(cols[i := ci], j, Column(cols[j].name, cols[i].tasks));
  }

  lemma SwapKeepsValid(cols: seq<Column>, i: nat, j: nat)
    requires i < |cols| && j < |cols| && Valid(cols)
    ensures Valid(SwapTasks(cols, i, j))
  {
    SwapNames(cols, i, j);
    SwapBags(cols, i, j);
    SameNamesKeepDistinct(cols, SwapTasks(cols, i, j));
  }

  /** Cancelling a common part of two multiset sums. */
  lemma Cancel<T>(a: multiset<T>, b: multiset<T>, m: multiset<T>, e: multiset<T>)
    requires a + m == b + m + e
    ensures a == b + e
  {
    forall x
      ensures a[x] == (b + e)[x]
    {
      assert (a + m)[x] == (b + m + e)[x];
    }
  }

  lemma CancelRemoved<T>(a: multiset<T>, b: multiset<T>, m: multiset<T>, e: multiset<T>)
    requires a + (m + e) == b + m
    ensures a + e == b
  {
    forall x
      ensures (a + e)[x] == b[x]
    {
      assert (a + (m + e))[x] == (b + m)[x];
    }
  }

  lemma AppendBags(cols: seq<Column>, i: nat, t: Task)
    requires i < |cols|
    ensures multiset(AllTasks(AppendTask(cols, i, t))) == multiset(AllTasks(cols)) + multiset{t}
    ensures TaskCount(AppendTask(cols, i, t)) == TaskCount(cols) + 1
    ensures IdBag(AppendTask(cols, i, t)) == IdBag(cols) + multiset{t.id}
  {
    var ts := cols[i].tasks;
    var r := AppendTask(cols, i, t);
    BagsUpdate(cols, i, Column(cols[i].name, ts + [t]));
    var a0, a1 := multiset(AllTasks(cols)), multiset(AllTasks(r));
    assert multiset(ts + [t]) == multiset(ts) + multiset{t};
    Cancel(a1, a0, multiset(ts), multiset{t});
    assert |AllTasks(r)| == |a1| == |a0| + 1 == |AllTasks(cols)| + 1;
    var b0, b1 := IdBag(cols), IdBag(r);
    IdsConcat(ts, [t]);
    assert Ids([t]) == [t.id];
    assert multiset(Ids(ts + [t])) == multiset(Ids(ts)) + multiset{t.id};
    Cancel(b1, b0, multiset(Ids(ts)), multiset{t.id});
  }

  lemma FreshIdKeepsUnique(cols: seq<Column>, i: nat, t: Task)
    requires i < |cols| && UniqueIds(cols) && !IdUsed(cols, t.id)
    ensures UniqueIds(AppendTask(cols, i, t))
  {
    var r := AppendTask(cols, i, t);
    AppendBags(cols, i, t);
    IdUsedIffInBag(cols, t.id);
    forall id
      ensures IdBag(r)[id] <= 1
    {
      if id == t.id {
        assert IdBag(cols)[id] == 0;
      }
    }
  }

  /** Appending a task: one more task, at the end of column `i`; a fresh id keeps ids unique. */
  lemma AppendTaskSpec(cols: seq<Column>, i: nat, t: Task)
    requires i < |cols|
    ensures Names(AppendTask(cols, i, t)) == Names(cols)
    ensures AppendTask(cols, i, t)[i].tasks == cols[i].tasks + [t]
    ensures forall k :: 0 <= k < |cols| && k != i ==> AppendTask(cols, i, t)[k] == cols[k]
    ensures multiset(AllTasks(AppendTask(cols, i, t))) == multiset(AllTasks(cols)) + multiset{t}
    ensures TaskCount(AppendTask(cols, i, t)) == TaskCount(cols) + 1
    ensures Valid(cols) && !IdUsed(cols, t.id) ==> Valid(AppendTask(cols, i, t))
  {
    var r := AppendTask(cols, i, t);
    NamesUpdate(cols, i, Column(cols[i].name, cols[i].tasks + [t]));
    AppendBags(cols, i, t);
    if Valid(cols) && !IdUsed(cols, t.id) {
      SameNamesKeepDistinct(cols, r);
      FreshIdKeepsUnique(cols, i, t);
    }
  }

  lemma MultisetRemoveAt<T>(s: seq<T>, p: nat)
    requires p < |s|
    ensures multiset(s) == multiset(s[..p] + s[p + 1..]) + multiset{s[p]}
  {
    assert s == s[..p] + [s[p]] + s[p + 1..];
  }

  lemma IdsRemoveAt(ts: seq<Task>, p: nat)
    requires p < |ts|
    ensures Ids(ts[..p] + ts[p + 1..]) == Ids(ts)[..p] + Ids(ts)[p + 1..]
  {
  }

  lemma RemoveTaskBag(cols: seq<Column>, loc: Location)
    requires ValidLocation(cols, loc)
    ensures multiset(AllTasks(RemoveTaskAt(cols, loc))) + multiset{TaskAt(cols, loc)} == multiset(AllTasks(cols))
  {
    var ts := cols[loc.col].tasks;
    var p := loc.pos;
    var rest := ts[..p] + ts[p + 1..];
    BagsUpdate(cols, loc.col, Column(cols[loc.col].name, rest));
    MultisetRemoveAt(ts, p);
    CancelRemoved(multiset(AllTasks(RemoveTaskAt(cols, loc))), multiset(AllTasks(cols)), multiset(rest), multiset{ts[p]});
  }

  lemma RemoveIdBag(cols: seq<Column>, loc: Location)
    requires ValidLocation(cols, loc)
    ensures IdBag(RemoveTaskAt(cols, loc)) + multiset{TaskAt(cols, loc).id} == IdBag(cols)
  {
    var ts := cols[loc.col].tasks;
    var p := loc.pos;
    var rest := ts[..p] + ts[p + 1..];
    BagsUpdate(cols, loc.col, Column(cols[loc.col].name, rest));
    IdsRemoveAt(ts, p);
    MultisetRemoveAt(Ids(ts), p);
    CancelRemoved(IdBag(RemoveTaskAt(cols, loc)), IdBag(cols), multiset(Ids(rest)), multiset{ts[p].id});
  }

  lemma RemoveBags(cols: seq<Column>, loc: Location)
    requires ValidLocation(cols, loc)
    ensures multiset(AllTasks(RemoveTaskAt(cols, loc))) + multiset{TaskAt(cols, loc)} == multiset(AllTasks(cols))
    ensures TaskCount(RemoveTaskAt(cols, loc)) + 1 == TaskCount(cols)
    ensures IdBag(RemoveTaskAt(cols, loc)) + multiset{TaskAt(cols, loc).id} == IdBag(cols)
  {
    var r := RemoveTaskAt(cols, loc);
    RemoveTaskBag(cols, loc);
    RemoveIdBag(cols, loc);
    assert |multiset(AllTasks(r))| + 1 == |multiset(AllTasks(cols))|;
  }

  /** Removing the task at `loc`: exactly that task leaves the board, nothing else changes. */
  lemma RemoveTaskAtSpec(cols: seq<Column>, loc: Location)
    requires ValidLocation(cols, loc)
    ensures Names(RemoveTaskAt(cols, loc)) == Names(cols)
    ensures forall k :: 0 <= k < |cols| && k != loc.col ==> RemoveTaskAt(cols, loc)[k] == cols[k]
    ensures var ts := cols[loc.col].tasks; RemoveTaskAt(cols, loc)[loc.col].tasks == ts[..loc.pos] + ts[loc.pos + 1..]
    ensures multiset(AllTasks(RemoveTaskAt(cols, loc))) + multiset{TaskAt(cols, loc)} == multiset(AllTasks(cols))
    ensures TaskCount(RemoveTaskAt(cols, loc)) + 1 == TaskCount(cols)
    ensures Valid(cols) ==> Valid(RemoveTaskAt(cols, loc))
    ensures Valid(cols) ==> !IdUsed(RemoveTaskAt(cols, loc), TaskAt(cols, loc).id)
  {
    var ts := cols[loc.col].tasks;
    var r := RemoveTaskAt(cols, loc);
    NamesUpdate(cols, loc.col, Column(cols[loc.col].name, ts[..loc.pos] + ts[loc.pos + 1..]));
    RemoveBags(cols, loc);
    if Valid(cols) {
      SameNamesKeepDistinct(cols, r);
      SubBagKeepsUnique(cols, r);
      IdUsedIffInBag(r, TaskAt(cols, loc).id);
    }
  }

  /**
   * Moving keeps the column keys and the multiset of all tasks; the target
   * column keeps its other tasks in order and gains the task at its end.
   */
  lemma MoveTaskSpec(cols: seq<Column>, loc: Location, target: nat)
    requires ValidLocation(cols, loc) && target < |cols|
    ensures Names(MoveTask(cols, loc, target)) == Names(cols)
    ensures multiset(AllTasks(MoveTask(cols, loc, target))) == multiset(AllTasks(cols))
    ensures var ts := MoveTask(cols, loc, target)[target].tasks; |ts| > 0 && ts[|ts| - 1] == TaskAt(cols, loc)
    ensures target != loc.col ==>
      MoveTask(cols, loc, target)[target].tasks == cols[target].tasks + [TaskAt(cols, loc)]
    ensures target == loc.col ==>
      var ts := cols[loc.col].tasks;
      MoveTask(cols, loc, target)[target].tasks == ts[..loc.pos] + ts[loc.pos + 1..] + [TaskAt(cols, loc)]
    ensures target != loc.col ==>
      var ts := cols[loc.col].tasks;
      MoveTask(cols, loc, target)[loc.col].tasks == ts[..loc.pos] + ts[loc.pos + 1..]
    ensures forall k :: 0 <= k < |cols| && k != loc.col && k != target ==> MoveTask(cols, loc, target)[k] == cols[k]
    ensures Valid(cols) ==> Valid(MoveTask(cols, loc, target))
  {
    var t := TaskAt(cols, loc);
    var d := RemoveTaskAt(cols, loc);
    RemoveTaskAtSpec(cols, loc);
    AppendTaskSpec(d, target, t);
  }

  /** A task updated in place under its own id: keys, other tasks and the invariant are kept. */
  lemma UpdateTaskSpec(cols: seq<Column>, loc: Location, t: Task)
    requires ValidLocation(cols, loc) && t.id == TaskAt(cols, loc).id
    ensures Names(UpdateTask(cols, loc, t)) == Names(cols)
    ensures ValidLocation(UpdateTask(cols, loc, t), loc) && TaskAt(UpdateTask(cols, loc, t), loc) == t
    ensures forall k :: 0 <= k < |cols| && k != loc.col ==> UpdateTask(cols, loc, t)[k] == cols[k]
    ensures forall q :: 0 <= q < |cols[loc.col].tasks| && q != loc.pos ==>
      UpdateTask(cols, loc, t)[loc.col].tasks[q] == cols[loc.col].tasks[q]
    ensures IdBag(UpdateTask(cols, loc, t)) == IdBag(cols)
    ensures Valid(cols) ==> Valid(UpdateTask(cols, loc, t))
  {
    var ts := cols[loc.col].tasks;
    var us := ts[loc.pos := t];
    var c := Column(cols[loc.col].name, us);
    var r := UpdateTask(cols, loc, t);
    NamesUpdate(cols, loc.col, c);
    assert IdBag(r) == IdBag(cols) by {
      BagsUpdate(cols, loc.col, c);
      assert Ids(us) == Ids(ts);
      Cancel(IdBag(r), IdBag(cols), multiset(Ids(ts)), multiset{});
    }
    if Valid(cols) {
      SameNamesKeepDistinct(cols, r);
    }
  }
}
