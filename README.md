# Agent team board, message log and brief generator

This project models two scripts of the `codex-agent-teams` skill:

- `team_ops.py` keeps one directory per team. It holds the team record, a
  task board and an append-only message log. Its commands are `init`,
  `add-task`, `claim`, `update-task`, `message`, `broadcast` and `inbox`.
- `create_team_brief.py` renders a markdown team charter from
  comma-separated command-line lists.

The files of a team directory are the fields of one object, `TeamOps.TeamDir`:

- `team` is the team record, or `None` when the directory has not been
  initialized.
- `tasks` and `nextId` are the task board and its `next_id` counter.
- `messages` is the message log.

Each command is a method that changes those fields in place. Each method
states the error case and the new state, including what stays unchanged.
Every method keeps the board invariant `Valid()`: task `i` (0-based) has
identifier `task-{i+1}`, the counter is one past the last task, and an
initialized team has at least one member. Because `str(n)` is injective, no
two tasks share an identifier, and `add-task` always hands out a fresh one.

The inbox is the pure filter `InboxOf` over the log. The `inbox` command
scans the log and is proved equal to that filter.

Python's `split(",")`, `strip()` and `sep.join` are modelled in `Text`.
`strip()` removes the characters `str.isspace` accepts. `Text.SplitClean` is
the `[x.strip() for x in s.split(",") if x.strip()]` idiom shared by
`init`, `add-task`, `update-task` and `parse_csv`.

The brief generator is modelled as pure functions. The rendered brief is
the concatenation of the template's literal pieces and its filled-in
values. Lemmas state:

- the lines and cells of each table;
- the bullet lines of each list;
- which sections the brief contains;
- how `main` defaults and validates its lists.

Clock readings (`utc_now()`, `date.today()`) are parameters.

`add-task`, `claim` and `update-task` accept any owner string; nothing
checks it against the team's members, and the model does the same.

## Model

| member | source | states |
|---|---|---|
| Text.StripSpec | skills_by_openai/codex-agent-teams/scripts/create_team_brief.py:63 | `str.strip()` removes whitespace only: the result is the slice after the leading whitespace, followed by whitespace only; it neither starts nor ends with whitespace; it is empty exactly when the input is all whitespace |
| Text.StripIdempotent | skills_by_openai/codex-agent-teams/scripts/create_team_brief.py:63 | stripping twice is stripping once |
| Text.Split | skills_by_openai/codex-agent-teams/scripts/team_ops.py:67 | `str.split(sep)` yields one more piece than there are separators, so never an empty list |
| Text.SplitPieces | skills_by_openai/codex-agent-teams/scripts/team_ops.py:67 | the pieces hold no separator, and joining them with the separator gives the input back |
| Text.SplitJoin | skills_by_openai/codex-agent-teams/scripts/team_ops.py:67 | splitting a join of separator-free pieces gives the pieces back |
| Text.SplitAppend | skills_by_openai/codex-agent-teams/scripts/team_ops.py:67 | splitting `a + sep + b` gives the pieces of `a` followed by the pieces of `b` |
| Text.CleanPiecesItems | skills_by_openai/codex-agent-teams/scripts/team_ops.py:91 | after the strip-and-drop-blank step every item is non-empty and stripped; no items remain exactly when every piece was blank |
| Text.SplitCleanItems | skills_by_openai/codex-agent-teams/scripts/team_ops.py:67-69 | the member, dependency and CSV lists hold only non-empty, stripped, comma-free items; the list is empty exactly when the input is nothing but commas and whitespace |
| Text.SplitCleanAppend | skills_by_openai/codex-agent-teams/scripts/team_ops.py:91 | items keep their input order: the items of `a,b` are those of `a` followed by those of `b` |
| Text.SplitCleanJoin | skills_by_openai/codex-agent-teams/scripts/team_ops.py:150 | a comma-join of clean items reads back as exactly those items |
| TeamOps.ParseStatus | skills_by_openai/codex-agent-teams/scripts/team_ops.py:19 | a status string is accepted exactly when it is one of `pending`, `in_progress`, `completed`, and it then names the status it parses to |
| TeamOps.ParseStatusName | skills_by_openai/codex-agent-teams/scripts/team_ops.py:19 | every status is accepted under its stored name |
| TeamOps.DecimalString | skills_by_openai/codex-agent-teams/scripts/team_ops.py:90 | `str(n)` is a non-empty digit string without leading zeros whose decimal value is `n`, so `task-7` and never `task-007` |
| TeamOps.TaskIdInjective | skills_by_openai/codex-agent-teams/scripts/team_ops.py:90 | different counters give different `task-{n}` identifiers |
| TeamOps.WellNumberedIds | skills_by_openai/codex-agent-teams/scripts/team_ops.py:90-103 | on a well-numbered board every id is `task-k` with `1 <= k < next_id`, ids are pairwise distinct, and `task-{next_id}` is unused |
| TeamOps.IndexOf | skills_by_openai/codex-agent-teams/scripts/team_ops.py:108-114 | the position of the first task with the given id, or none exactly when no task has it |
| TeamOps.FindNumberedTask | skills_by_openai/codex-agent-teams/scripts/team_ops.py:108-114 | on a well-numbered board `task-k` is found at position `k - 1` for every `1 <= k < next_id` |
| TeamOps.NewTaskFields | skills_by_openai/codex-agent-teams/scripts/team_ops.py:91-101 | a new task has empty notes, both timestamps `now`, and dependencies that are non-empty, stripped and comma-free; it has none for a missing or blank argument |
| TeamOps.InboxOfMembers | skills_by_openai/codex-agent-teams/scripts/team_ops.py:207-215 | a message is in a member's inbox exactly when it is in the log and is a broadcast or addressed to that member |
| TeamOps.InboxOfAppend | skills_by_openai/codex-agent-teams/scripts/team_ops.py:207-215 | the inbox keeps log order: the inbox of a concatenated log is the concatenation of the inboxes |
| TeamOps.BroadcastReachesAll | skills_by_openai/codex-agent-teams/scripts/team_ops.py:186-196 | after a broadcast, every member's inbox is the old inbox plus that message at the end |
| TeamOps.DirectReachesRecipient | skills_by_openai/codex-agent-teams/scripts/team_ops.py:173-183 | after a direct message, only the recipient's inbox grows, by that message at the end |
| TeamOps.TeamDir.constructor | skills_by_openai/codex-agent-teams/scripts/team_ops.py:88 | an uninitialized directory: no team, and the default board with no tasks and `next_id` 1 |
| TeamOps.TeamDir.Init | skills_by_openai/codex-agent-teams/scripts/team_ops.py:66-80 | rejects a member list that is blank after splitting and changes nothing; otherwise it writes the record with the cleaned members and resets the board to no tasks with `next_id` 1, keeping the message log |
| TeamOps.TeamDir.AddTask | skills_by_openai/codex-agent-teams/scripts/team_ops.py:84-104 | fails with nothing changed when the team is missing or the status is invalid; otherwise it appends exactly one task with id `task-{old next_id}` that no earlier task holds, bumps the counter by one and leaves the other tasks and the log alone |
| TeamOps.TeamDir.FindTask | skills_by_openai/codex-agent-teams/scripts/team_ops.py:108-114 | the linear scan returns exactly `IndexOf`: the first match, or none |
| TeamOps.TeamDir.Claim | skills_by_openai/codex-agent-teams/scripts/team_ops.py:117-128 | fails with nothing changed for a missing team, an unknown task or a completed task; otherwise only the target task changes, to owner = member, status in progress and update time `now` |
| TeamOps.TeamDir.UpdateTask | skills_by_openai/codex-agent-teams/scripts/team_ops.py:132-152 | fails with nothing changed for a missing team, a non-empty invalid status or an unknown task; otherwise only the target task changes. A non-empty status or owner replaces the old value. A non-empty note is appended after the earlier notes. A supplied dependency list replaces the old one, even when empty. The update time is always `now` |
| TeamOps.TeamDir.SendMessage | skills_by_openai/codex-agent-teams/scripts/team_ops.py:173-182 | appends exactly one direct message to the log; the earlier entries and the board are unchanged |
| TeamOps.TeamDir.SendBroadcast | skills_by_openai/codex-agent-teams/scripts/team_ops.py:186-195 | appends exactly one broadcast addressed to `*`; the earlier entries and the board are unchanged |
| TeamOps.TeamDir.Inbox | skills_by_openai/codex-agent-teams/scripts/team_ops.py:199-217 | the scan yields exactly `InboxOf(messages, member)`, and the `found` flag is set exactly when that is non-empty |
| Brief.ParseCsv | skills_by_openai/codex-agent-teams/scripts/create_team_brief.py:60-63 | `[]` for a missing or empty argument; every item is non-empty, stripped and comma-free |
| Brief.ParseCsvAgrees | skills_by_openai/codex-agent-teams/scripts/create_team_brief.py:60-63 | `parse_csv` of a present argument is the same list the team commands build from a comma-separated argument |
| Brief.ParseCsvJoin | skills_by_openai/codex-agent-teams/scripts/create_team_brief.py:63 | `parse_csv` of a comma-join of clean items gives exactly those items |
| Brief.ParseCsvAppend | skills_by_openai/codex-agent-teams/scripts/create_team_brief.py:63 | items come out in input order |
| Brief.RowSplit | skills_by_openai/codex-agent-teams/scripts/create_team_brief.py:73 | a table row, split at its bar characters, gives its cells padded with one space on each side, between two empty ends |
| Brief.RoleInfoPlain | skills_by_openai/codex-agent-teams/scripts/create_team_brief.py:11-36 | no preset or placeholder mission or deliverable contains a bar or a line break |
| Brief.RoleRowCells | skills_by_openai/codex-agent-teams/scripts/create_team_brief.py:66-73 | a role's row has the cells role, mission, deliverables. Those are the preset's texts for a known role and `Define mission for this role.` / `Define expected deliverables.` otherwise |
| Brief.RoleRowsLines | skills_by_openai/codex-agent-teams/scripts/create_team_brief.py:66-74 | the role table has exactly one line per role, in role order |
| Brief.RoleTableRow | skills_by_openai/codex-agent-teams/scripts/create_team_brief.py:66-74 | the role table has one line per role, and line `k`'s cells are the `k`-th role with its preset or placeholder texts |
| Brief.WorkstreamRowCells | skills_by_openai/codex-agent-teams/scripts/create_team_brief.py:80 | a workstream's row has the cells workstream, `TBD`, `planned`, verification |
| Brief.VerificationCellPlain | skills_by_openai/codex-agent-teams/scripts/create_team_brief.py:78 | the `"; "`-joined verification cell (or `TBD`) has a bar or line break only if a check does |
| Brief.WorkstreamRowsLines | skills_by_openai/codex-agent-teams/scripts/create_team_brief.py:77-81 | the workstream table has exactly one line per workstream, in order |
| Brief.WorkstreamTableRow | skills_by_openai/codex-agent-teams/scripts/create_team_brief.py:77-81 | line `k` of the workstream table names the `k`-th workstream with owner `TBD`, status `planned` and the shared verification cell (`TBD` when there are no checks) |
| Brief.MarkdownListLines | skills_by_openai/codex-agent-teams/scripts/create_team_brief.py:84-87 | the list is the single line `- {empty_value}` for no items, otherwise exactly one `- item` line per item, in order |
| Brief.BuildBrief | skills_by_openai/codex-agent-teams/scripts/create_team_brief.py:103-104 | fails exactly for a topology outside the four known ones, naming it |
| Brief.BriefOpening | skills_by_openai/codex-agent-teams/scripts/create_team_brief.py:105 | a brief starts with `# Team Brief: ` followed by the team name |
| Brief.BriefModes | skills_by_openai/codex-agent-teams/scripts/create_team_brief.py:104-117 | a brief shows the topology's note, the communication mode and the delegate mode as `enabled` or `disabled` |
| Brief.BriefSections | skills_by_openai/codex-agent-teams/scripts/create_team_brief.py:119-137 | a brief contains the rendered definition of done, constraints, skill links, role table and workstream table, each right after its own heading |
| Brief.ResolveInputs | skills_by_openai/codex-agent-teams/scripts/create_team_brief.py:219-229 | rejects the input when the workstreams are only commas and whitespace. Otherwise it rejects blank roles. On success all six lists are the parsed ones, except that an empty definition of done or skill list falls back to the defaults |
| Brief.Generate | skills_by_openai/codex-agent-teams/scripts/create_team_brief.py:216-243 | a brief is produced exactly when the topology is known and there is a workstream and a role; an unknown topology is reported first, as `parse_args` (called at line 217) rejects it, then missing workstreams |

## Left out

- File I/O and JSON: reading and writing `team.json`, `tasks.json` and `messages.jsonl`, directory creation and `touch`. The files are the fields of `TeamDir`. A malformed log line, which makes `json.loads` raise, is not modelled.
- `require_team` is modelled as the presence of the team record. Only boards these commands wrote are modelled, since every method requires `Valid()`. A `tasks.json` changed by other means, for example by hand, is not. On such a board `add-task` takes `next_id` as stored (team_ops.py:90) and can repeat an id, and `find_task` returns the first task with it.
- The `isinstance` checks and the non-list `notes` fallback in `update-task` (team_ops.py:144-147): typed records always hold a list of notes.
- `inbox` on a directory whose log file is missing prints `No messages.`. The model always has a log, possibly empty. All console output is left out, including the message lines, `No inbox messages for ...`, the `Added task-n` lines and the `list-tasks` listing (team_ops.py:156-170), which only formats the board.
- Argument parsing with `argparse` and command dispatch. The `--topology` choice list is modelled as the first check in `Generate`; `BuildBrief`'s own rejection models the `TOPOLOGY_NOTES[topology]` lookup failing, which `Generate` never reaches. The `--communication-mode` choices are not checked.
- Writing the brief to a file or to standard output.
- Clocks: `utc_now()` and `date.today()` are parameters. `add-task` reads the clock twice (`created_at`, `updated_at`), and so does `update-task` with a note (the note's `at` and `updated_at`, team_ops.py:148 and 151); the model gives both readings the same value `now`.
- Concurrency: the scripts take no locks, and interleaved commands are not modelled.
- Unicode beyond the whitespace set of `str.isspace`: strings are sequences of characters with no encoding.
- No lock manager, atomic record store, debate engine or monitor log is modelled; neither script contains one.
