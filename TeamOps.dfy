/**
 * The shared state of one team: its record, the task board and the message
 * log, and the commands that read and change them (`init`, `add-task`,
 * `claim`, `update-task`, `message`, `broadcast`, `inbox`).
 *
 * The three files of a team directory (the team record, the board with its
 * tasks and `next_id` counter, and the message log) are the fields of one
 * `TeamDir` object; clock readings are passed in as timestamps.
 */
module TeamOps {
  import opened Wrappers
  import opened Text

  /** The task statuses the commands accept. */
  const TaskStatuses: set<string> := {"pending", "in_progress", "completed"}

  datatype Status = Pending | InProgress | Completed

  /** The name under which a status is stored and accepted. */
  function StatusName(st: Status): string {
    match st
    case Pending => "pending"
    case InProgress => "in_progress"
    case Completed => "completed"
  }

  /** Validation of a `--status` argument: accepted exactly when it names one of the statuses. */
  function ParseStatus(name: string): (r: Option<Status>)
    ensures r.Some? <==> name in TaskStatuses
    ensures r.Some? ==> StatusName(r.value) == name
  {
    if name == "pending" then Some(Pending)
    else if name == "in_progress" then Some(InProgress)
    else if name == "completed" then Some(Completed)
    else None
  }

  /** Every status is accepted under its own name. */
  lemma ParseStatusName(st: Status)
    ensures ParseStatus(StatusName(st)) == Some(st)
  {
  }

  /** A timestamped note on a task. */
  datatype Note = Note(at: string, text: string)

  datatype Task = Task(
    id: string,
    title: string,
    owner: string,
    status: Status,
    dependsOn: seq<string>,
    notes: seq<Note>,
    createdAt: string,
    updatedAt: string)

  datatype TeamRecord = TeamRecord(name: string, goal: string, members: seq<string>, createdAt: string)

  datatype MessageKind = Direct | Broadcast

  datatype Message = Message(at: string, kind: MessageKind, sender: string, recipient: string, body: string)

  datatype Error =
    | NotInitialized
    | NoMembers
    | InvalidStatus(status: string)
    | TaskNotFound(taskId: string)
    | CompletedTask(taskId: string)

  /** Python truthiness of an optional string argument: supplied and not empty. */
  predicate Given(arg: Option<string>) {
    arg.Some? && arg.value != ""
  }

  /** The decimal digit character for `d`. */
  function DigitChar(d: nat): (c: char)
    requires d < 10
    ensures '0' <= c <= '9' && c as int - '0' as int == d
  {
    (d + '0' as int) as char
  }

  predicate IsDigits(s: string) {
    forall i :: 0 <= i < |s| ==> '0' <= s[i] <= '9'
  }

  /** The value of a string of decimal digits. */
  function DecimalValue(s: string): nat
    requires IsDigits(s)
  {
    if s == [] then 0
    else DecimalValue(s[..|s| - 1]) * 10 + (s[|s| - 1] as int - '0' as int)
  }

  /**
   * `str(n)` for a natural number: a non-empty string of decimal digits
   * without leading zeros whose value is `n`, so different numbers give
   * different strings.
   */
  function DecimalString(n: nat): (s: string)
    ensures s != [] && IsDigits(s)
    ensures |s| == 1 || s[0] != '0'
    ensures DecimalValue(s) == n
  {
    if n < 10 then [DigitChar(n)]
    else
      var s := DecimalString(n / 10) + [DigitChar(n % 10)];
      assert s[..|s| - 1] == DecimalString(n / 10);
      s
  }

  /** The identifier `task-{n}` given to the task added when the counter is `n`. */
  function TaskId(n: nat): string {
    "task-" + DecimalString(n)
  }

  /** Distinct counters give distinct task identifiers. */
  lemma TaskIdInjective(m: nat, n: nat)
    ensures TaskId(m) == TaskId(n) ==> m == n
  {
    if TaskId(m) == TaskId(n) {
      assert TaskId(m)[5..] == DecimalString(m);
      assert TaskId(n)[5..] == DecimalString(n);
    }
  }

  /**
   * The board invariant: the tasks carry the identifiers `task-1`,
   * `task-2`, ... in board order, and the counter is the next number.
   */
  ghost predicate WellNumbered(tasks: seq<Task>, nextId: nat) {
    && nextId == |tasks| + 1
    && forall i :: 0 <= i < |tasks| ==> tasks[i].id == TaskId(i + 1)
  }

  /** Appending a task that carries the counter's identifier and advancing the counter keeps the numbering. */
  lemma WellNumberedAppend(tasks: seq<Task>, nextId: nat, task: Task)
    requires WellNumbered(tasks, nextId) && task.id == TaskId(nextId)
    ensures WellNumbered(tasks + [task], nextId + 1)
  {
  }

  /** Replacing a task by one with the same identifier keeps the numbering. */
  lemma WellNumberedUpdate(tasks: seq<Task>, nextId: nat, i: nat, task: Task)
    requires WellNumbered(tasks, nextId) && i < |tasks| && task.id == tasks[i].id
    ensures WellNumbered(tasks[i := task], nextId)
  {
  }

  /** `id` is `task-k` for some `k` from 1 up to, but not including, `bound`. */
  ghost predicate NumberedBelow(id: string, bound: nat) {
    exists k: nat :: 1 <= k < bound && id == TaskId(k)
  }

  /**
   * On a well-numbered board every identifier is `task-k` with `k` below
   * the counter, no two tasks share an identifier, and the identifier the
   * counter would give next is held by no task.
   */
  lemma WellNumberedIds(tasks: seq<Task>, nextId: nat)
    requires WellNumbered(tasks, nextId)
    ensures forall i :: 0 <= i < |tasks| ==> NumberedBelow(tasks[i].id, nextId)
    ensures forall i, j :: 0 <= i < j < |tasks| ==> tasks[i].id != tasks[j].id
    ensures forall i :: 0 <= i < |tasks| ==> tasks[i].id != TaskId(nextId)
  {
    forall i | 0 <= i < |tasks| ensures NumberedBelow(tasks[i].id, nextId) {
      assert tasks[i].id == TaskId(i + 1);
    }
    forall i, j | 0 <= i < j < |tasks| ensures tasks[i].id != tasks[j].id {
      TaskIdInjective(i + 1, j + 1);
    }
    forall i | 0 <= i < |tasks| ensures tasks[i].id != TaskId(nextId) {
      TaskIdInjective(i + 1, nextId);
    }
  }

  /**
   * `find_task`'s answer: the position of the first task with identifier
   * `id`, or nothing when no task has it.
   */
  function IndexOf(tasks: seq<Task>, id: string): (r: Option<nat>)
    ensures r.Some? ==> r.value < |tasks| && tasks[r.value].id == id
    ensures r.Some? ==> forall j :: 0 <= j < r.value ==> tasks[j].id != id
    ensures r.None? ==> forall j :: 0 <= j < |tasks| ==> tasks[j].id != id
  {
    if tasks == [] then None
    else if tasks[0].id == id then Some(0)
    else match IndexOf(tasks[1..], id)
      case None => None
      case Some(k) => Some(k + 1)
  }

  /** On a well-numbered board, `task-k` is found at position `k - 1`. */
  lemma FindNumberedTask(tasks: seq<Task>, nextId: nat, k: nat)
    requires WellNumbered(tasks, nextId) && 1 <= k < nextId
    ensures IndexOf(tasks, TaskId(k)) == Some(k - 1)
  {
    var r := IndexOf(tasks, TaskId(k));
    assert tasks[k - 1].id == TaskId(k);
    if r != Some(k - 1) {
      var j := r.value;
      assert j < k - 1;
      TaskIdInjective(j + 1, k);
    }
  }

  /** The task `add-task` appends once its arguments are accepted. */
  function NewTask(id: string, title: string, owner: string, status: Status,
                   dependsOn: Option<string>, now: string): Task
  {
    var deps := if dependsOn.Some? then dependsOn.value else "";
    Task(id, title, owner, status, SplitClean(deps), [], now, now)
  }

  /**
   * A new task has no notes, and its dependencies are the non-empty,
   * stripped, comma-free items of the argument: none when it is missing
   * or holds only commas and whitespace.
   */
  lemma NewTaskFields(id: string, title: string, owner: string, status: Status,
                      dependsOn: Option<string>, now: string)
    ensures var t := NewTask(id, title, owner, status, dependsOn, now);
      && t.id == id && t.title == title && t.owner == owner && t.status == status
      && t.notes == [] && t.createdAt == now && t.updatedAt == now
      && (forall k :: 0 <= k < |t.dependsOn| ==>
            t.dependsOn[k] != [] && IsStripped(t.dependsOn[k]) && ',' !in t.dependsOn[k])
      && (dependsOn.None? ==> t.dependsOn == [])
      && (dependsOn.Some? ==>
            (t.dependsOn == [] <==> forall i :: 0 <= i < |dependsOn.value| ==>
                                      dependsOn.value[i] == ',' || IsSpace(dependsOn.value[i])))
  {
    var deps := if dependsOn.Some? then dependsOn.value else "";
    SplitCleanItems(deps);
  }

  /** Whether `member`'s inbox shows message `m`: every broadcast, and what is addressed to them. */
  predicate Visible(m: Message, member: string) {
    m.kind == Broadcast || m.recipient == member
  }

  /** The inbox of `member`: the messages of the log they may see, in log order. */
  function InboxOf(log: seq<Message>, member: string): (r: seq<Message>)
    ensures |r| <= |log|
  {
    if log == [] then []
    else
      var rest := InboxOf(log[1..], member);
      if Visible(log[0], member) then [log[0]] + rest else rest
  }

  /** A message is in the inbox exactly when it is in the log and `member` may see it. */
  lemma {:induction false} InboxOfMembers(log: seq<Message>, member: string)
    ensures forall m :: m in InboxOf(log, member) <==> m in log && Visible(m, member)
  {
    if log != [] {
      InboxOfMembers(log[1..], member);
      assert forall m :: m in log <==> m == log[0] || m in log[1..];
    }
  }

  /** The inbox of a concatenated log is the concatenation of the inboxes. */
  lemma {:induction false} InboxOfAppend(a: seq<Message>, b: seq<Message>, member: string)
    ensures InboxOf(a + b, member) == InboxOf(a, member) + InboxOf(b, member)
  {
    if a == [] {
      assert a + b == b;
    } else {
      InboxOfAppend(a[1..], b, member);
      var ab := a + b;
      assert ab != [];
      assert ab[0] == a[0] && ab[1..] == a[1..] + b;
      var ra, rb := InboxOf(a[1..], member), InboxOf(b, member);
      if Visible(a[0], member) {
        assert InboxOf(ab, member) == [a[0]] + (ra + rb);
        assert InboxOf(a, member) == [a[0]] + ra;
        SeqAssoc([a[0]], ra, rb);
      } else {
        assert InboxOf(ab, member) == ra + rb;
        assert InboxOf(a, member) == ra;
      }
    }
  }

  /** A broadcast joins the end of every member's inbox. */
  lemma BroadcastReachesAll(log: seq<Message>, at: string, sender: string, body: string, member: string)
    ensures var m := Message(at, Broadcast, sender, "*", body);
            InboxOf(log + [m], member) == InboxOf(log, member) + [m]
  {
    var m := Message(at, Broadcast, sender, "*", body);
    InboxOfAppend(log, [m], member);
    assert InboxOf([m], member) == [m] + InboxOf([], member);
  }

  /** A direct message joins the inbox of its recipient and of no one else. */
  lemma DirectReachesRecipient(log: seq<Message>, at: string, sender: string, to: string,
                               body: string, member: string)
    ensures var m := Message(at, Direct, sender, to, body);
            InboxOf(log + [m], member) == InboxOf(log, member) + (if member == to then [m] else [])
  {
    var m := Message(at, Direct, sender, to, body);
    InboxOfAppend(log, [m], member);
    assert [m][1..] == [];
  }

  /**
   * The files of one team directory. `team` is the team record (`None`
   * until `init` has run), `tasks` and `nextId` the task board, `messages`
   * the message log.
   */
  class TeamDir {
    var team: Option<TeamRecord>
    var tasks: seq<Task>
    var nextId: nat
    var messages: seq<Message>

    ghost predicate Valid()
      reads this
    {
      && WellNumbered(tasks, nextId)
      && (team.Some? ==> team.value.members != [])
    }

    /** A directory where no team has been initialized: the board is the default empty board. */
    constructor ()
      ensures Valid()
      ensures team == None && tasks == [] && nextId == 1 && messages == []
    {
      team, tasks, nextId, messages := None, [], 1, [];
    }

    /**
     * `init`: rejects a member list that is empty once split and stripped;
     * otherwise writes the team record and resets the board to no tasks
     * with counter 1. The message log is kept.
     */
    method Init(teamName: string, goal: string, members: string, now: string)
      returns (r: Result<seq<string>, Error>)
      requires Valid()
      modifies this
      ensures Valid()
      ensures var parsed := SplitClean(members);
        if parsed == [] then r == Err(NoMembers) && unchanged(this)
        else
          && r == Ok(parsed)
          && team == Some(TeamRecord(teamName, goal, parsed, now))
          && tasks == [] && nextId == 1
          && messages == old(messages)
    {
      var parsed := SplitClean(members);
      if parsed == [] {
        r := Err(NoMembers);
      } else {
        team := Some(TeamRecord(teamName, goal, parsed, now));
        tasks, nextId := [], 1;
        r := Ok(parsed);
      }
    }

    /**
     * `add-task`: after the team and status checks, appends one task with
     * identifier `task-{next_id}`, no notes and the cleaned dependency list,
     * and advances the counter by one. The new identifier is held by no
     * earlier task.
     */
    method AddTask(title: string, owner: string, status: string, dependsOn: Option<string>, now: string)
      returns (r: Result<string, Error>)
      requires Valid()
      modifies this
      ensures Valid()
      ensures old(team).None? ==> r == Err(NotInitialized) && unchanged(this)
      ensures old(team).Some? && ParseStatus(status).None? ==>
        r == Err(InvalidStatus(status)) && unchanged(this)
      ensures old(team).Some? && ParseStatus(status).Some? ==>
        && r == Ok(TaskId(old(nextId)))
        && tasks == old(tasks) + [NewTask(r.value, title, owner, ParseStatus(status).value, dependsOn, now)]
        && nextId == old(nextId) + 1
        && (forall i :: 0 <= i < |old(tasks)| ==> old(tasks)[i].id != r.value)
        && team == old(team) && messages == old(messages)
    {
      if team.None? {
        return Err(NotInitialized);
      }
      var st := ParseStatus(status);
      if st.None? {
        return Err(InvalidStatus(status));
      }
      WellNumberedIds(tasks, nextId);
      var id := TaskId(nextId);
      var task := NewTask(id, title, owner, st.value, dependsOn, now);
      WellNumberedAppend(tasks, nextId, task);
      tasks := tasks + [task];
      nextId := nextId + 1;
      r := Ok(id);
    }

    /** `find_task`: a scan of the board for the first task with identifier `id`. */
    method FindTask(id: string) returns (r: Option<nat>)
      ensures r == IndexOf(tasks, id)
    {
      var i := 0;
      while i < |tasks|
        invariant 0 <= i <= |tasks|
        invariant forall j :: 0 <= j < i ==> tasks[j].id != id
      {
        if tasks[i].id == id {
          return Some(i);
        }
        i := i + 1;
      }
      r := None;
    }

    /**
     * `claim`: fails when the team is missing, the task is missing or the
     * task is completed, leaving everything as it was; otherwise the task
     * gets `member` as owner and status in progress, and no other task
     * changes.
     */
    method Claim(id: string, member: string, now: string) returns (r: Outcome<Error>)
      requires Valid()
      modifies this
      ensures Valid()
      ensures old(team).None? ==> r == Fail(NotInitialized) && unchanged(this)
      ensures old(team).Some? && IndexOf(old(tasks), id).None? ==>
        r == Fail(TaskNotFound(id)) && unchanged(this)
      ensures old(team).Some? && IndexOf(old(tasks), id).Some? ==>
        var i := IndexOf(old(tasks), id).value;
        if old(tasks)[i].status == Completed then
          r == Fail(CompletedTask(id)) && unchanged(this)
        else
          && r == Pass
          && tasks == old(tasks)[i := old(tasks)[i].(owner := member, status := InProgress, updatedAt := now)]
          && nextId == old(nextId) && team == old(team) && messages == old(messages)
    {
      if team.None? {
        return Fail(NotInitialized);
      }
      var found := FindTask(id);
      if found.None? {
        return Fail(TaskNotFound(id));
      }
      var i := found.value;
      if tasks[i].status == Completed {
        return Fail(CompletedTask(id));
      }
      var task := tasks[i].(owner := member, status := InProgress, updatedAt := now);
      WellNumberedUpdate(tasks, nextId, i, task);
      tasks := tasks[i := task];
      r := Pass;
    }

    /**
     * `update-task`: after the team, status and lookup checks, changes only
     * what was supplied. A non-empty status or owner replaces the old one, a
     * non-empty note is appended after the earlier notes, a supplied
     * dependency list (even an empty one) replaces the old list, and the
     * update time is always refreshed. No other task changes.
     */
    method UpdateTask(id: string, status: Option<string>, owner: Option<string>,
                      dependsOn: Option<string>, note: Option<string>, now: string)
      returns (r: Outcome<Error>)
      requires Valid()
      modifies this
      ensures Valid()
      ensures old(team).None? ==> r == Fail(NotInitialized) && unchanged(this)
      ensures old(team).Some? && Given(status) && ParseStatus(status.value).None? ==>
        r == Fail(InvalidStatus(status.value)) && unchanged(this)
      ensures old(team).Some? && !(Given(status) && ParseStatus(status.value).None?)
              && IndexOf(old(tasks), id).None? ==>
        r == Fail(TaskNotFound(id)) && unchanged(this)
      ensures old(team).Some? && !(Given(status) && ParseStatus(status.value).None?)
              && IndexOf(old(tasks), id).Some? ==>
        && r == Pass
        && |tasks| == |old(tasks)|
        && nextId == old(nextId) && team == old(team) && messages == old(messages)
      ensures old(team).Some? && !(Given(status) && ParseStatus(status.value).None?)
              && IndexOf(old(tasks), id).Some? ==>
        var i := IndexOf(old(tasks), id).value;
        && i < |tasks|
        && (forall j :: 0 <= j < |tasks| && j != i ==> tasks[j] == old(tasks)[j])
        && var t, u := old(tasks)[i], tasks[i];
        && u.id == t.id && u.title == t.title && u.createdAt == t.createdAt
        && u.status == (if Given(status) then ParseStatus(status.value).value else t.status)
        && u.owner == (if Given(owner) then owner.value else t.owner)
        && u.notes == (if Given(note) then t.notes + [Note(now, note.value)] else t.notes)
        && u.dependsOn == (if dependsOn.Some? then SplitClean(dependsOn.value) else t.dependsOn)
        && u.updatedAt == now
    {
      if team.None? {
        r := Fail(NotInitialized);
      } else if Given(status) && ParseStatus(status.value).None? {
        r := Fail(InvalidStatus(status.value));
      } else {
        var found := FindTask(id);
        if found.None? {
          r := Fail(TaskNotFound(id));
        } else {
          var i := found.value;
          var t := tasks[i];
          var task := t.(
            status := if Given(status) then ParseStatus(status.value).value else t.status,
            owner := if Given(owner) then owner.value else t.owner,
            notes := if Given(note) then t.notes + [Note(now, note.value)] else t.notes,
            dependsOn := if dependsOn.Some? then SplitClean(dependsOn.value) else t.dependsOn,
            updatedAt := now);
          WellNumberedUpdate(tasks, nextId, i, task);
          tasks := tasks[i := task];
          r := Pass;
        }
      }
    }

    /** `message`: appends one direct message to the log and changes nothing else. */
    method SendMessage(sender: string, to: string, body: string, now: string) returns (r: Outcome<Error>)
      requires Valid()
      modifies this
      ensures Valid()
      ensures old(team).None? ==> r == Fail(NotInitialized) && unchanged(this)
      ensures old(team).Some? ==>
        && r == Pass
        && messages == old(messages) + [Message(now, Direct, sender, to, body)]
        && team == old(team) && tasks == old(tasks) && nextId == old(nextId)
    {
      if team.None? {
        return Fail(NotInitialized);
      }
      messages := messages + [Message(now, Direct, sender, to, body)];
      r := Pass;
    }

    /** `broadcast`: appends one message addressed to `*` and changes nothing else. */
    method SendBroadcast(sender: string, body: string, now: string) returns (r: Outcome<Error>)
      requires Valid()
      modifies this
      ensures Valid()
      ensures old(team).None? ==> r == Fail(NotInitialized) && unchanged(this)
      ensures old(team).Some? ==>
        && r == Pass
        && messages == old(messages) + [Message(now, Broadcast, sender, "*", body)]
        && team == old(team) && tasks == old(tasks) && nextId == old(nextId)
    {
      if team.None? {
        return Fail(NotInitialized);
      }
      messages := messages + [Message(now, Broadcast, sender, "*", body)];
      r := Pass;
    }

    /**
     * `inbox`: a scan of the log that collects the messages `member` may
     * see, in log order, and records whether there was any.
     */
    method Inbox(member: string) returns (r: Result<seq<Message>, Error>, found: bool)
      ensures team.None? ==> r == Err(NotInitialized) && !found
      ensures team.Some? ==> r == Ok(InboxOf(messages, member))
      ensures found <==> r.Ok? && r.value != []
    {
      if team.None? {
        return Err(NotInitialized), false;
      }
      var shown: seq<Message> := [];
      found := false;
      var i := 0;
      while i < |messages|
        invariant 0 <= i <= |messages|
        invariant shown == InboxOf(messages[..i], member)
        invariant found <==> shown != []
      {
        var m := messages[i];
        if m.kind == Broadcast || m.recipient == member {
          found := true;
          shown := shown + [m];
        }
        assert messages[..i + 1] == messages[..i] + [m];
        InboxOfAppend(messages[..i], [m], member);
        i := i + 1;
      }
      assert messages[..i] == messages;
      r := Ok(shown);
    }
  }
}
