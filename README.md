# kapyban, modelled in Dafny

kapyban is a terminal Kanban board. A board is an ordered dictionary of
named columns. Each column holds a list of tasks, and each task is a small
record: a short random id of lower-case letters, a description, a creation
timestamp, a priority (`low`, `medium` or `high`) and an optional deadline.

The user types one command line at a time. `parse_and_execute_command`
splits the line into words and resolves the first word fuzzily against a
fixed table of command names (similarity 90 or more). It logs the line and
calls the handler with the remaining words. Handlers find columns in three
ways:

- case-insensitively by name;
- by trying longer and longer prefixes of the words (`rename`, `swap`);
- fuzzily (`add ... to <column>`, `move`).

Handlers find tasks by id, in column order and then list order. Every
outcome is appended to an output log.

A small PHP backend stores uploaded boards. It guards uploads with passwords
read from a two-level `key: value` file by its own parser, `nanoYAML`. A file
is checked against its own entry under `passwords`, or else against
`fallback_password`.

## Modules

- `Wrappers`: the `Option` type.
- `Tokens`: Python's `str.split()`, `' '.join(...)` and `str.lower()` on ASCII.
- `Fuzzy`: `find_best_match`. The similarity score is a parameter: any
  function with values in 0..100.
- `Board`: the board as a sequence of columns, the lookups, and the
  mutations together with their properties. The board invariant `Valid`
  means the keys are distinct and every task id is used by one task only.
- `Commands`: what every command does, written as a function from the
  state before the call to the state after it. The state holds the columns,
  the output log and how many random values have been drawn. Paths where
  Python raises end in `Crashed(fault)`.
- `CommandFacts`: the properties of each command. Each command keeps
  `Valid`. Each command is also specified by what it adds, removes or moves,
  and by what it leaves unchanged.
- `Kanban`: class `KanbanBoard`, with the fields `columns`, `output` and
  `draws`. Its methods are imperative and use loops. Each method's
  postcondition ties the new state to the function of the same name in
  `Commands`. `ParseAndExecuteCommand` is the dispatcher.
- `Passwords`: `nanoYAML` as a loop, proved against a fold `Parse`.
  Class `FileManager` holds the fields that `loadPasswords` assigns and that
  `validatePassword` reads.

## Model

| member | source | states |
|---|---|---|
| Tokens.Split | kapyban.py:587 | every word `str.split()` produces is non-empty and contains no whitespace |
| Tokens.SplitJoin | kapyban.py:58 | splitting the space-joined words gives back the same words (`split` undoes `' '.join`) |
| Tokens.LowerIdempotent | kapyban.py:184 | lower-casing a string twice gives the same as lower-casing it once |
| Fuzzy.BestIndex | kapyban.py:344 | the candidate `extractOne` picks has the highest score; no candidate before it has an equal score |
| Fuzzy.BestMatchSpec | kapyban.py:336-346 | `find_best_match` returns None exactly when every candidate scores below the threshold; otherwise it returns the lower-cased form of a highest-scoring candidate whose score reaches the threshold |
| Board.MaxLength | kapyban.py:122-129 | the longest id length: no id is longer, and some id has exactly this length (0 when there are no ids) |
| Board.IdUsedIffInBag | kapyban.py:131-136 | an id is in use exactly when some task on the board carries it |
| Board.UsedIdIsShort | kapyban.py:122-129 | an id in use is no longer than the longest id on the board, so longer words are always free |
| Board.FindCI | kapyban.py:188-190 | a lookup result is a position on the board |
| Board.FindCISpec | kapyban.py:183-194 | the case-insensitive lookup finds nothing exactly when no key matches in lower case; otherwise it finds the first key that matches |
| Board.FindCIFromSpec | kapyban.py:188-190 | the same, for the lookup loop started at any position |
| Board.LowerNameResolves | kapyban.py:307-314 | the lower-cased form of a key always resolves case-insensitively |
| Board.IndexOfIdSpec | kapyban.py:289-291 | the search inside a column finds the first task with the id, or reports that no task has it |
| Board.FirstWithIdFromSpec | kapyban.py:288-292 | `find_task_by_id` over the columns from a given position finds the first task with the id in column order, then list order |
| Board.FirstWithIdSpec | kapyban.py:283-292 | `find_task_by_id` returns nothing exactly when the id is not in use; otherwise it returns the first task with that id |
| Board.AddColumnSpec | kapyban.py:59-60 | a new key is added last with an empty list, the tasks are unchanged, and a fresh key keeps `Valid` |
| Board.DeleteColumnSpec | kapyban.py:77 | deleting a key removes just that column; the columns before it stay in place and the columns after it shift down by one, each with its own task list; just that column's tasks leave the board; it keeps `Valid`, and leaves none of its ids in use |
| Board.RekeySpec | kapyban.py:240 | pop-and-reinsert moves the column to the end under the new name, keeps the same task list and the same multiset of tasks, and removes the old name; the columns before it stay in place and the columns after it shift down by one, unchanged; a fresh name keeps `Valid` |
| Board.SwapTasksSpec | kapyban.py:217 | the two task lists trade places; the names and all other columns stay; swapping a column with itself changes nothing; the multiset of tasks is kept, and so is `Valid` |
| Board.AppendTaskSpec | kapyban.py:262 | the task is appended at the end of that one column and the count grows by one; a fresh id keeps `Valid` |
| Board.RemoveTaskAtSpec | kapyban.py:333 | the column becomes its old list without that one task, the other tasks keeping their order; every other column and the keys are unchanged; exactly that task leaves the multiset of tasks and the count drops by one; on a valid board its id is then unused |
| Board.MoveTaskSpec | kapyban.py:317-318 | the target column becomes its old list (without the task, when source and target are the same column) followed by the task; the keys, the multiset of tasks and every uninvolved column are unchanged; `Valid` is kept |
| Board.UpdateTaskSpec | kapyban.py:280 | a field update under the same id changes that one task only and keeps `Valid` |
| Commands.Newlines | kapyban.py:36-38 | the prefix `'\n' * newline` has `newline` characters, all newlines, or none for a non-positive count |
| Commands.PrefixScan | kapyban.py:204-214 | the prefix scan changes no column, and any hit lies within the range it was given |
| Commands.PrefixScanHit | kapyban.py:226-231 | the scan stops at the shortest range that names a column and reports that column; it finds nothing exactly when no range does |
| Commands.PrefixScanLog | kapyban.py:192-194 | each range that was tried without a match logs exactly one miss, in order |
| Commands.Letter | kapyban.py:126 | a drawn value becomes a letter `a`..`z` |
| Commands.Word | kapyban.py:126 | `random.choices(..., k=length)` gives a lower-case word of exactly `length` letters |
| Commands.IdSearch | kapyban.py:122-129 | the search returns a lower-case word that no task carries, at most one letter longer than the longest id |
| Commands.IdSearchFree | kapyban.py:127-128 | a drawn word that is not in use ends the search with that word |
| Commands.IdSearchUsed | kapyban.py:125-127 | a drawn word that is in use moves on to the next draw of the same length |
| Commands.IdSearchRound | kapyban.py:125-129 | after 26^length draws the search goes on with words one letter longer |
| Commands.GenerateUniqueIdSpec | kapyban.py:122-129 | the generated id is a non-empty lower-case word that no task carries |
| Commands.MatchFrom | kapyban.py:148-155 | a match found by `find_column_name` is at the position of a word of the command |
| Commands.MatchFromResolves | kapyban.py:149-155 | where the loop stops, the word is `to` and the words after it fuzzy-match the returned name |
| Commands.MatchFromEarliest | kapyban.py:148-155 | no earlier `to` has a suffix that resolves |
| Commands.MatchFromMatched | kapyban.py:148-161 | `find_column_name` takes the first `to` whose suffix resolves |
| Commands.MatchFromNotMatched | kapyban.py:157-159 | no match exactly when no `to` has a suffix that resolves |
| Commands.MatchFromNoCandidates | kapyban.py:149-151 | the call raises exactly when the board has no columns and some word is `to` |
| CommandFacts.CreateColumnSpec | kapyban.py:56-63 | an absent exact key is added as an empty last column and the earlier columns are unchanged; a present key leaves the board unchanged |
| CommandFacts.CreateColumnKeepsValid | kapyban.py:56-63 | `create_column` keeps `Valid` |
| CommandFacts.DestroyColumnFound | kapyban.py:65-78 | destroy deletes the first column that matches case-insensitively; the other columns keep their order and their own task lists; that column's tasks leave the board |
| CommandFacts.DestroyColumnMissing | kapyban.py:70-75 | a name that matches no column changes nothing and logs the miss and then `Column 'None' does not exist.` |
| CommandFacts.DestroyColumnKeepsValid | kapyban.py:65-78 | `destroy_column` keeps `Valid` |
| CommandFacts.RemoveColumnSpec | kapyban.py:371-379 | the column at an index inside the range is deleted, the other columns keeping their order and their task lists; any other index, negative ones included, changes nothing |
| CommandFacts.PrefixScanStopsAt | kapyban.py:226-231 | given the shortest range that names a column, the scan reports exactly that range and that column |
| CommandFacts.PrefixScanFindsNothing | kapyban.py:226-234 | when no range names a column, the scan finds nothing and leaves the board untouched |
| CommandFacts.RenameColumnAt | kapyban.py:226-241 | the old name is the shortest prefix that resolves and the new name is the rest; if the new name is already a key the board is unchanged, otherwise the column goes last under the new name with the same tasks, and the other columns keep their order and their task lists |
| CommandFacts.RenameColumnNoOldName | kapyban.py:221-234 | fewer than two words, or no prefix that resolves, leaves the board unchanged |
| CommandFacts.RenameColumnKeepsValid | kapyban.py:220-241 | `rename_column` keeps `Valid` |
| CommandFacts.SwapColumnsResolved | kapyban.py:201-218 | once the two shortest ranges are known, swap continues with the two task lists exchanged |
| CommandFacts.SwapColumnsAt | kapyban.py:204-218 | the two resolved lists trade places while the keys, their order and all other columns stay; swapping a column with itself is a no-op |
| CommandFacts.SwapColumnsFirstMissing | kapyban.py:204-217 | an unresolved first column raises `KeyError` (`columns[None]`) and the board is unchanged |
| CommandFacts.SwapColumnsSecondMissing | kapyban.py:209-217 | an unresolved second column raises `KeyError` and the board is unchanged |
| CommandFacts.SwapColumnsOnlySwaps | kapyban.py:196-218 | a swap either leaves the board unchanged or exchanges the task lists of two of its columns |
| CommandFacts.SwapColumnsKeepsValid | kapyban.py:196-218 | `swap_columns` keeps `Valid` |
| CommandFacts.BestColumnResolves | kapyban.py:307-314 | whatever `find_best_match` picks among the keys resolves case-insensitively |
| CommandFacts.FindCIOwnName | kapyban.py:170-179 | the column found for a name is also found for its own exact key |
| CommandFacts.MatchFromFirst | kapyban.py:148-155 | the stopping position of `find_column_name` is the first `to` that resolves |
| CommandFacts.AddTaskToColumnSpec | kapyban.py:243-263 | for a name that resolves, one task is appended last to that column: a fresh id, the given description and timestamp, priority low and no deadline; other columns do not change. A name that does not resolve raises `KeyError` with the board unchanged |
| CommandFacts.AddTaskToColumnKeepsValid | kapyban.py:243-263 | `add_task_to_column` keeps `Valid` |
| CommandFacts.AddTaskResolves | kapyban.py:169-177 | `add_task` uses the first `to` whose suffix resolves and takes the words before it as the description |
| CommandFacts.AddTaskAt | kapyban.py:163-179 | a successful `add` appends exactly one task, with a fresh id, that description and low priority, to the resolved column |
| CommandFacts.AddTaskEmptyDescription | kapyban.py:177-181 | nothing before the resolving `to` means the board is unchanged |
| CommandFacts.AddTaskUnresolved | kapyban.py:169-172 | no resolving `to` raises (`None.lower()`, or unpacking `None` when there are no columns) and the board is unchanged |
| CommandFacts.AddTaskKeepsValid | kapyban.py:163-181 | `add_task` keeps `Valid` |
| CommandFacts.MoveTaskByIdFound | kapyban.py:294-319 | a found task leaves its column and is appended to the matched target column, whose earlier tasks keep their order; every other column is unchanged; the keys and the multiset of tasks are kept |
| CommandFacts.MoveTaskByIdMissing | kapyban.py:299-303 | an unknown id leaves the board unchanged |
| CommandFacts.MoveTaskByIdBelowThreshold | kapyban.py:306-312 | a target below the threshold for every column leaves the board unchanged |
| CommandFacts.MoveTaskByIdKeepsValid | kapyban.py:294-319 | on a valid board `move_task_by_id` never raises, and it keeps `Valid` |
| CommandFacts.RemoveTaskByIdFound | kapyban.py:321-334 | exactly the first task with that id is removed; the count drops by one and nothing else changes |
| CommandFacts.RemoveTaskByIdDropsId | kapyban.py:333 | on a valid board the removed id is no longer in use |
| CommandFacts.RemoveTaskByIdMissing | kapyban.py:326-331 | an unknown id leaves the board unchanged |
| CommandFacts.RemoveTaskByIdKeepsValid | kapyban.py:321-334 | `remove_task_by_id` keeps `Valid` |
| CommandFacts.PrioritizeTaskSets | kapyban.py:265-281 | a valid level and a known id set that task's priority; every other field and task stays, and the column keeps its length |
| CommandFacts.PrioritizeTaskUnchanged | kapyban.py:270-278 | an unknown level (checked first) or an unknown id leaves the board unchanged |
| CommandFacts.PriorityOfSpec | kapyban.py:270-271 | exactly `high`, `medium` and `low` are accepted levels |
| CommandFacts.PrioritizeTaskKeepsValid | kapyban.py:265-281 | `prioritize_task` keeps `Valid` |
| CommandFacts.SetTaskDeadlineSpec | kapyban.py:102-119 | for a known id: a parsed date becomes that task's deadline, with every other task and column kept and the column's length unchanged; `None` from the parser raises with the board unchanged; a `ValueError` only logs |
| CommandFacts.SetTaskDeadlineMissing | kapyban.py:107-112 | an unknown id leaves the board unchanged |
| CommandFacts.SetTaskDeadlineKeepsValid | kapyban.py:102-119 | `set_task_deadline` keeps `Valid` |
| CommandFacts.EditTaskDescription | kapyban.py:96-100 | `description` replaces that task's description; every other task and column is kept and the column keeps its length |
| CommandFacts.EditTaskDeadline | kapyban.py:96-97 | `deadline` and `due` are `set_task_deadline` called on the id and the remaining words |
| CommandFacts.EditTaskOtherProperty | kapyban.py:92-94 | any other property name, compared exactly, leaves the board unchanged |
| CommandFacts.EditTaskKeepsValid | kapyban.py:80-100 | `edit_task` keeps `Valid` |
| CommandFacts.LookupFromFinds | kapyban.py:593 | a key that is in the dispatch table is found by `commands[cmd]` |
| CommandFacts.LookupFromSound | kapyban.py:593 | whatever `commands[cmd]` finds is a table entry under that key |
| CommandFacts.CommandKeysLower | kapyban.py:564-585 | every key of the dispatch table is already lower-case |
| CommandFacts.ResolveCommandSpec | kapyban.py:587-593 | a command word is recognised exactly when some key scores at least 90 against it, and the handler is then the entry of a highest-scoring key |
| CommandFacts.ExecuteIgnoresUnknown | kapyban.py:587-598 | an empty line, or a first word that matches no command, changes nothing, not even the log |
| CommandFacts.RunKeepsValid | kapyban.py:593 | every handler keeps `Valid` |
| CommandFacts.ExecuteKeepsValid | kapyban.py:563-598 | `parse_and_execute_command` keeps `Valid` whatever the command line |
| Kanban.KanbanBoard.constructor | kapyban.py:22-29 | a new board has no columns and an empty log, and is `Valid` |
| Kanban.KanbanBoard.ResetOutput | kapyban.py:31-32 | the log is emptied |
| Kanban.KanbanBoard.AddToOutput | kapyban.py:34-39 | exactly one entry is appended: the newlines, then the bold markup or `-- `, then the message |
| Kanban.KanbanBoard.ShowHelp | kapyban.py:530-557 | the help text is appended as one entry |
| Kanban.KanbanBoard.FindColumnCaseInsensitive | kapyban.py:183-194 | the loop returns the position `Board.FindCISpec` characterises and logs a miss |
| Kanban.KanbanBoard.ScanPrefixes | kapyban.py:204-214 | the prefix loop returns what `Commands.PrefixScan` returns, with the same log |
| Kanban.KanbanBoard.FindColumnName | kapyban.py:140-161 | the `to` loop returns the match `Commands.MatchFromMatched` characterises, and logs when nothing resolves |
| Kanban.KanbanBoard.IsIdUsed | kapyban.py:131-136 | the nested loop answers true exactly when some task carries the id |
| Kanban.KanbanBoard.FindTaskById | kapyban.py:283-292 | the nested loop returns the first task that carries the id, or nothing exactly when the id is unused |
| Kanban.KanbanBoard.DrawRound | kapyban.py:125-128 | one round of up to 26^length draws stops at the first free word; a round without one can only happen while `length` is at most the longest id |
| Kanban.KanbanBoard.GenerateUniqueId | kapyban.py:122-129 | the id is a non-empty lower-case word that no task carries, and the draws are counted |
| Kanban.KanbanBoard.CreateColumn | kapyban.py:56-63 | the new state is `Commands.CreateColumn` of the old |
| Kanban.KanbanBoard.DestroyColumn | kapyban.py:65-78 | the new state is `Commands.DestroyColumn` of the old |
| Kanban.KanbanBoard.RemoveColumn | kapyban.py:371-379 | the new state is `Commands.RemoveColumn` of the old |
| Kanban.KanbanBoard.RenameColumn | kapyban.py:220-241 | the new state is `Commands.RenameColumn` of the old |
| Kanban.KanbanBoard.SwapColumns | kapyban.py:196-218 | the new state and outcome are `Commands.SwapColumns` of the old |
| Kanban.KanbanBoard.AddTaskToColumn | kapyban.py:243-263 | the new state and outcome are `Commands.AddTaskToColumn` of the old |
| Kanban.KanbanBoard.AddTask | kapyban.py:163-181 | the new state and outcome are `Commands.AddTask` of the old |
| Kanban.KanbanBoard.RemoveFromColumn | kapyban.py:317 | `list.remove` deletes the first element equal to the task and nothing else |
| Kanban.KanbanBoard.MoveTaskById | kapyban.py:294-319 | the new state and outcome are `Commands.MoveTaskById` of the old |
| Kanban.KanbanBoard.SameTaskFirst | kapyban.py:317 | no earlier task in its column equals the found one, since the found task is the first in its column carrying its id; so `list.remove` takes exactly the found task |
| Kanban.KanbanBoard.RemoveTaskById | kapyban.py:321-334 | the new state is `Commands.RemoveTaskById` of the old |
| Kanban.KanbanBoard.PrioritizeTask | kapyban.py:265-281 | the new state is `Commands.PrioritizeTask` of the old |
| Kanban.KanbanBoard.SetTaskDeadline | kapyban.py:102-119 | the new state and outcome are `Commands.SetTaskDeadline` of the old |
| Kanban.KanbanBoard.EditTask | kapyban.py:80-100 | the new state and outcome are `Commands.EditTask` of the old |
| Kanban.ParseAndExecuteCommand | kapyban.py:563-598 | the new state and outcome are `Commands.Execute` of the old, and a valid board stays valid |
| Passwords.TrimLeftSpec | backends/php/kapyban.php:24-25 | trimming on the left removes the longest leading run of characters from the set, and nothing else |
| Passwords.TrimRightSpec | backends/php/kapyban.php:24-25 | trimming on the right removes the longest trailing run of characters from the set, and nothing else |
| Passwords.TrimSpec | backends/php/kapyban.php:24-25 | `trim` keeps a middle slice whose ends are not in the set; everything cut on either side is in the set |
| Passwords.TrimLeftSkips | backends/php/kapyban.php:24 | leading characters from the set make no difference to `trim` |
| Passwords.FirstColon | backends/php/kapyban.php:22-23 | `strpos` finds nothing exactly when there is no colon; otherwise it finds the first colon |
| Passwords.Store | backends/php/kapyban.php:28-39 | after storing, a section is open only under a key that holds a section |
| Passwords.NanoYaml | backends/php/kapyban.php:16-44 | the `foreach` loop returns `Parse(lines).result` |
| Passwords.ParseSnoc | backends/php/kapyban.php:21-41 | the parse of the lines plus one more line is one more step |
| Passwords.ParseIgnoresNoColon | backends/php/kapyban.php:22 | a line without a colon contributes nothing, wherever it stands |
| Passwords.StepSplitsAtFirstColon | backends/php/kapyban.php:23-25 | a line is split at its first colon only, and both halves are trimmed |
| Passwords.StepIgnoresIndentation | backends/php/kapyban.php:24 | leading whitespace has no effect, so nesting is not read from indentation |
| Passwords.CurrentIsLastOpened | backends/php/kapyban.php:28-30 | the current key is the key of the last line that opens a section |
| Passwords.TopLevelBeforeSection | backends/php/kapyban.php:32-34 | before any section opens, each pair is stored at top level with spaces and quotes stripped; a later pair wins |
| Passwords.SectionCollects | backends/php/kapyban.php:28-38 | after a section opens, every later pair up to the next opening line goes into it, and the rest of the result is as it was |
| Passwords.StepKeepsKeys | backends/php/kapyban.php:28-39 | a colon line always leaves an entry, and no entry is ever deleted |
| Passwords.ParseEmptyIff | backends/php/kapyban.php:16-44 | the parse is empty exactly when no line contains a colon |
| Passwords.FileManager.constructor | backends/php/kapyban.php:5-7 | both fields start as `null` |
| Passwords.FileManager.LoadPasswords | backends/php/kapyban.php:47-56 | loading raises and assigns nothing exactly when no line has a colon; otherwise `passwords` is the `passwords` entry or `[]`, and the fallback is the `fallback_password` entry or `null` |
| Passwords.FileManager.ValidatePassword | backends/php/kapyban.php:59-64 | a password is accepted exactly when it equals the file's own entry if there is one, and otherwise equals the fallback, which must be a string and not `null` |
| Passwords.Authorize | backends/php/kapyban.php:47-64 | load then validate accepts exactly when the file has a colon line and the parse accepts the password for that file name |
| Passwords.PairLine | backends/php/kapyban.php:23-25 | an optionally indented `key: value` line stores that key and value |
| Passwords.SectionLine | backends/php/kapyban.php:28-30 | a `key:` line opens the section `key` |
| Passwords.FallbackFirstParse | backends/php/kapyban.php:21-41 | `fallback_password: f`, `passwords:`, `  file: "s"` parse to a top-level fallback plus a section holding `file := s` |
| Passwords.FallbackFirstScenario | backends/php/kapyban.php:59-64 | with that file, the listed file needs its own secret and any other file takes the fallback |
| Passwords.FallbackAfterSectionParse | backends/php/kapyban.php:28-38 | a `fallback_password` line after the section is read as one more entry of the section |
| Passwords.FallbackAfterSectionScenario | backends/php/kapyban.php:59-64 | with that file there is no fallback, so a file with no entry of its own is refused whatever the password |

## Left out

- Rendering and persistence are not modelled: `print_output`, `show_board`, `generate_html_table`, `nl2br`, `decode_unicode_escapes`, `format_time_difference`, `save_to_json` (local file and remote upload) and `load_from_json`. They are I/O. The `save` command is modelled as a handler that leaves the state unchanged.
- `remove_task(column_index)` is not modelled. It reads the task number from the terminal with `input()`.
- `main` and `clear_screen` are not modelled. They are the interactive loop and a shell call.
- The message that `parse_and_execute_command` returns for an empty or unrecognised line is not modelled. The model shows only that such a line leaves the state unchanged; `main` discards the returned string (kapyban.py:625), so nothing is shown.
- `exit` ends in the outcome `Exited` and does not model `sys.exit`.
- The awaited save after each command is not modelled.
- Board.FindCI: lower-casing is ASCII only, whereas Python's `str.lower()` also folds non-ASCII letters. This changes every case-insensitive column lookup (kapyban.py:183-194), which `destroy`, `rename`, `swap`, `add` and `move` use, and also the `to` test in `find_column_name` (kapyban.py:149) and the priority level in `prioritize_task` (kapyban.py:270). For example, with a column `Äpfel`, Python's `destroy äpfel` deletes it, while the model logs a miss.
- Fuzzy.BestMatchSpec: fuzzywuzzy's `fuzz.ratio` is not modelled. The score is a parameter with values in 0..100, and lower-casing is ASCII only.
- Fuzzy.BestMatch requires a non-empty candidate list. The source crashes on an empty list. Its one caller that can see an empty list, `find_column_name` through `add_task`, has that crash modelled as `Crashed(UnpackNone)`. `move_task_by_id` is covered by its own case: a found task implies at least one column.
- Randomness is modelled as a stream `rng: nat -> nat`, one value per letter, with `letter = 'a' + value % 26`. The `random` module's generator itself is not modelled.
- The clock (`datetime.now().strftime(...)`) is not modelled: the timestamp is a parameter `now`.
- `dateparser.parse` followed by `strftime` is modelled as the parameter `parseDate`. It returns a stamp, `None` (whose `strftime` raises) or a `ValueError`.
- The help text is a parameter of the board. Its wording is not modelled.
- In the log, only the message strings are modelled; the behaviour of the rich console markup is not.
- Task records are modelled as datatypes. The model does not capture sharing: Python aliases the task dict in place, and here an update rebuilds the column.
- The PHP backend's HTTP handling (`uploadFile`, download, view) and its file reading (`file()` with its flags) are not modelled. The parser is given the lines.
- PHP arrays are modelled as maps. Three consequences:
  - the order of keys is not kept;
  - numeric-string keys, which PHP turns into integers, are not distinguished;
  - when `passwords` is a top-level string, the model does not do PHP string-offset indexing with a numeric-string file name; it treats that case as having no entry.
- Passwords.FileManager.LoadPasswords: the exception is modelled as `ok == false` with the fields unchanged. The PHP constructor that raises it produces no object at all.

## Where the code is followed over the documented intent

- `find_best_match` crashes on an empty candidate list, whereas it is described as never raising. The model follows the code.
- It returns the lower-cased candidate, not the candidate as stored.
- `swap` with an unresolved column raises `KeyError` from `self.columns[None]`. It is not handled.
- `add` takes the first `to` whose suffix resolves, not the last `to`.
- `rename` pops the column and re-inserts it, so the renamed column moves to the end of the board.
- `destroy` with an unknown name logs the lookup's miss and then `Column 'None' does not exist.`
