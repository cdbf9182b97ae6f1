/**
 * The team brief generator: reads comma-separated arguments, fills in
 * defaults, rejects a brief without workstreams or roles, and renders a
 * fixed markdown template with bullet lists and tables for the roles and
 * workstreams. The date is passed in.
 */
module Brief {
  import opened Wrappers
  import opened Text

  /**
   * Mission and deliverables of the known roles. Each mission is written as
   * two named halves, which keeps the proofs about its characters small; the
   * values are the same.
   */
  const LeadMissionStart := "Coordinate priorities, unblock "
  const LeadMissionEnd := "teammates, and integrate final output."
  const LeadMission := LeadMissionStart + LeadMissionEnd
  const LeadDeliverables := "Plan, decision log, " + "final integration summary"
  const ImplementerMissionStart := "Deliver scoped code or artifact "
  const ImplementerMissionEnd := "changes for assigned workstreams."
  const ImplementerMission := ImplementerMissionStart + ImplementerMissionEnd
  const ImplementerDeliverables := "Diff summary, verification notes"
  const ResearcherMissionStart := "Collect evidence and reduce "
  const ResearcherMissionEnd := "ambiguity before implementation."
  const ResearcherMission := ResearcherMissionStart + ResearcherMissionEnd
  const ResearcherDeliverables := "Findings memo, option matrix"
  const ReviewerMissionStart := "Check spec alignment, quality, "
  const ReviewerMissionEnd := "and regression risk."
  const ReviewerMission := ReviewerMissionStart + ReviewerMissionEnd
  const ReviewerDeliverables := "Review verdict, required fixes"
  const ChallengerMissionStart := "Stress-test assumptions and "
  const ChallengerMissionEnd := "propose safer alternatives."
  const ChallengerMission := ChallengerMissionStart + ChallengerMissionEnd
  const ChallengerDeliverables := "Risk critique, alternative proposal"
  const TesterMissionStart := "Run verification commands and "
  const TesterMissionEnd := "report reproducible outcomes."
  const TesterMission := TesterMissionStart + TesterMissionEnd
  const TesterDeliverables := "Test report, failing scenarios"

  const RolePresets: map<string, (string, string)> := map[
    "lead" := (LeadMission, LeadDeliverables),
    "implementer" := (ImplementerMission, ImplementerDeliverables),
    "researcher" := (ResearcherMission, ResearcherDeliverables),
    "reviewer" := (ReviewerMission, ReviewerDeliverables),
    "challenger" := (ChallengerMission, ChallengerDeliverables),
    "tester" := (TesterMission, TesterDeliverables)
  ]

  const PlaceholderMission := "Define mission for this role."
  const PlaceholderDeliverables := "Define expected deliverables."

  /** The known topologies and the note shown for each. */
  const TopologyNotes: map<string, string> := map[
    "lead-hub" := "Lead assigns and integrates independent specialists.",
    "pipeline" := "Each role hands output to the next role in sequence.",
    "red-blue" := "Two competing implementers plus one adjudicator.",
    "parallel-pods" := "Multiple small pods each own a subsystem boundary."
  ]

  const DefaultDone: seq<string> := [
    "All workstreams have a named owner and status.",
    "Verification commands pass for changed scope.",
    "Open risks and follow-ups are recorded."
  ]

  const DefaultSkills: seq<string> := [
    "superpowers:brainstorming",
    "superpowers:writing-plans",
    "superpowers:subagent-driven-development",
    "superpowers:dispatching-parallel-agents",
    "superpowers:verification-before-completion"
  ]

  datatype BriefError = NoWorkstreams | NoRoles | UnknownTopology(topology: string)

  /**
   * `parse_csv`: nothing for a missing or empty argument, otherwise the
   * non-blank comma-separated items, stripped.
   */
  function ParseCsv(value: Option<string>): (items: seq<string>)
    ensures value.None? || value.value == "" ==> items == []
    ensures forall k :: 0 <= k < |items| ==> items[k] != [] && IsStripped(items[k]) && ',' !in items[k]
  {
    if value.None? || value.value == "" then []
    else
      SplitCleanItems(value.value);
      SplitClean(value.value)
  }

  /** `parse_csv` reads a present argument exactly as the team commands split their lists. */
  lemma ParseCsvAgrees(s: string)
    ensures ParseCsv(Some(s)) == SplitClean(s)
  {
    if s == "" {
      SplitCleanItems(s);
    }
  }

  /** `parse_csv` gives back the items of a comma-join of clean items, in order. */
  lemma ParseCsvJoin(items: seq<string>)
    requires forall k :: 0 <= k < |items| ==> items[k] != [] && IsStripped(items[k]) && ',' !in items[k]
    ensures ParseCsv(Some(Join(items, ","))) == items
  {
    ParseCsvAgrees(Join(items, ","));
    SplitCleanJoin(items);
  }

  /** Reading `a,b` gives the items of `a` followed by those of `b`: order is kept. */
  lemma ParseCsvAppend(a: string, b: string)
    ensures ParseCsv(Some(a + "," + b)) == ParseCsv(Some(a)) + ParseCsv(Some(b))
  {
    ParseCsvAgrees(a + "," + b);
    ParseCsvAgrees(a);
    ParseCsvAgrees(b);
    SplitCleanAppend(a, b);
  }

  /** A markdown table row `| a | b | c |`. */
  function Row(cells: seq<string>): string {
    "|" + RowCells(cells)
  }

  function RowCells(cells: seq<string>): string {
    if cells == [] then "" else Pad(cells[0]) + "|" + RowCells(cells[1..])
  }

  /** A cell as it sits between the bars, with one space of padding on each side. */
  function Pad(cell: string): string {
    " " + cell + " "
  }

  /** Padding adds only spaces. */
  lemma PadAvoids(cell: string, c: char)
    requires c != ' ' && c !in cell
    ensures c !in Pad(cell)
  {
  }

  function Padded(cells: seq<string>): seq<string> {
    seq(|cells|, i requires 0 <= i < |cells| => Pad(cells[i]))
  }

  /** Splitting a row at its bars gives back its cells, padded, between two empty ends. */
  lemma RowSplit(cells: seq<string>)
    requires forall k :: 0 <= k < |cells| ==> '|' !in cells[k]
    ensures Split(Row(cells), '|') == [""] + Padded(cells) + [""]
  {
    SplitPrefix("", RowCells(cells), '|');
    assert "" + ['|'] + RowCells(cells) == Row(cells);
    RowCellsSplit(cells);
  }

  lemma {:induction false} RowCellsSplit(cells: seq<string>)
    requires forall k :: 0 <= k < |cells| ==> '|' !in cells[k]
    ensures Split(RowCells(cells), '|') == Padded(cells) + [""]
  {
    if cells != [] {
      PadAvoids(cells[0], '|');
      RowCellsSplit(cells[1..]);
      SplitPrefix(Pad(cells[0]), RowCells(cells[1..]), '|');
      assert Padded(cells) == [Pad(cells[0])] + Padded(cells[1..]);
    }
  }

  /** A row of cells without line breaks has none either. */
  lemma RowOneLine(cells: seq<string>)
    requires forall k :: 0 <= k < |cells| ==> '\n' !in cells[k]
    ensures '\n' !in Row(cells)
  {
    RowCellsOneLine(cells);
  }

  lemma {:induction false} RowCellsOneLine(cells: seq<string>)
    requires forall k :: 0 <= k < |cells| ==> '\n' !in cells[k]
    ensures '\n' !in RowCells(cells)
  {
    if cells != [] {
      PadAvoids(cells[0], '\n');
      RowCellsOneLine(cells[1..]);
    }
  }

  /** `ROLE_PRESETS.get(role, placeholders)`. */
  function RoleInfo(role: string): (string, string) {
    if role in RolePresets then RolePresets[role] else (PlaceholderMission, PlaceholderDeliverables)
  }

  /** The table row of one role: its name, mission and deliverables. */
  function RoleRow(role: string): string {
    var (mission, deliverables) := RoleInfo(role);
    Row([role, mission, deliverables])
  }

  function RoleRowList(roles: seq<string>): seq<string> {
    seq(|roles|, i requires 0 <= i < |roles| => RoleRow(roles[i]))
  }

  /** `role_rows`: one table row per role, joined by line breaks. */
  function RoleRows(roles: seq<string>): string {
    Join(RoleRowList(roles), "\n")
  }

  /**
   * A role's row has three cells: the role, then its preset mission and
   * deliverables, or the placeholders for a role without a preset.
   */
  lemma RoleRowCells(role: string)
    requires '|' !in role
    ensures role in RolePresets ==>
      Split(RoleRow(role), '|') == ["", " " + role + " ", " " + RolePresets[role].0 + " ",
                                    " " + RolePresets[role].1 + " ", ""]
    ensures role !in RolePresets ==>
      Split(RoleRow(role), '|') == ["", " " + role + " ", " " + PlaceholderMission + " ",
                                    " " + PlaceholderDeliverables + " ", ""]
  {
    var (mission, deliverables) := RoleInfo(role);
    RoleInfoPlain(role);
    var cells := [role, mission, deliverables];
    RowSplit(cells);
    assert Padded(cells) == [" " + role + " ", " " + mission + " ", " " + deliverables + " "];
  }

  /** No preset or placeholder text holds a bar or a line break. */
  lemma RoleInfoPlain(role: string)
    ensures '|' !in RoleInfo(role).0 && '|' !in RoleInfo(role).1
    ensures '\n' !in RoleInfo(role).0 && '\n' !in RoleInfo(role).1
  {
    LeadMissionPlain();
    LeadDeliverablesPlain();
    ImplementerMissionPlain();
    ImplementerDeliverablesPlain();
    ResearcherMissionPlain();
    ResearcherDeliverablesPlain();
    ReviewerMissionPlain();
    ReviewerDeliverablesPlain();
    ChallengerMissionPlain();
    ChallengerDeliverablesPlain();
    TesterMissionPlain();
    TesterDeliverablesPlain();
    if role in RolePresets {
      assert RoleInfo(role).0 in {LeadMission, ImplementerMission, ResearcherMission,
                                  ReviewerMission, ChallengerMission, TesterMission};
      assert RoleInfo(role).1 in {LeadDeliverables, ImplementerDeliverables, ResearcherDeliverables,
                                  ReviewerDeliverables, ChallengerDeliverables, TesterDeliverables};
    }
  }

  /** Neither a bar nor a line break. */
  predicate Plain(t: string) {
    '|' !in t && '\n' !in t
  }

  lemma LeadMissionPlain() ensures Plain(LeadMission) { LeadMissionStartPlain(); LeadMissionEndPlain(); }
  lemma LeadMissionStartPlain() ensures Plain(LeadMissionStart) { }
  lemma LeadMissionEndPlain() ensures Plain(LeadMissionEnd) { }
  lemma LeadDeliverablesPlain() ensures Plain(LeadDeliverables) { }

  lemma ImplementerMissionPlain() ensures Plain(ImplementerMission) { ImplementerMissionStartPlain(); ImplementerMissionEndPlain(); }
  lemma ImplementerMissionStartPlain() ensures Plain(ImplementerMissionStart) { }
  lemma ImplementerMissionEndPlain() ensures Plain(ImplementerMissionEnd) { }
  lemma ImplementerDeliverablesPlain() ensures Plain(ImplementerDeliverables) { }

  lemma ResearcherMissionPlain() ensures Plain(ResearcherMission) { ResearcherMissionStartPlain(); ResearcherMissionEndPlain(); }
  lemma ResearcherMissionStartPlain() ensures Plain(ResearcherMissionStart) { }
  lemma ResearcherMissionEndPlain() ensures Plain(ResearcherMissionEnd) { }
  lemma ResearcherDeliverablesPlain() ensures Plain(ResearcherDeliverables) { }

  lemma ReviewerMissionPlain() ensures Plain(ReviewerMission) { ReviewerMissionStartPlain(); ReviewerMissionEndPlain(); }
  lemma ReviewerMissionStartPlain() ensures Plain(ReviewerMissionStart) { }
  lemma ReviewerMissionEndPlain() ensures Plain(ReviewerMissionEnd) { }
  lemma ReviewerDeliverablesPlain() ensures Plain(ReviewerDeliverables) { }

  lemma ChallengerMissionPlain() ensures Plain(ChallengerMission) { ChallengerMissionStartPlain(); ChallengerMissionEndPlain(); }
  lemma ChallengerMissionStartPlain() ensures Plain(ChallengerMissionStart) { }
  lemma ChallengerMissionEndPlain() ensures Plain(ChallengerMissionEnd) { }
  lemma ChallengerDeliverablesPlain() ensures Plain(ChallengerDeliverables) { }

  lemma TesterMissionPlain() ensures Plain(TesterMission) { TesterMissionStartPlain(); TesterMissionEndPlain(); }
  lemma TesterMissionStartPlain() ensures Plain(TesterMissionStart) { }
  lemma TesterMissionEndPlain() ensures Plain(TesterMissionEnd) { }
  lemma TesterDeliverablesPlain() ensures Plain(TesterDeliverables) { }

  /** `role_rows` renders exactly one line per role, in order, when no role holds a line break. */
  lemma RoleRowsLines(roles: seq<string>)
    requires roles != []
    requires forall k :: 0 <= k < |roles| ==> '\n' !in roles[k]
    ensures Split(RoleRows(roles), '\n') == RoleRowList(roles)
  {
    var rows := RoleRowList(roles);
    forall k | 0 <= k < |rows| ensures '\n' !in rows[k] {
      var (mission, deliverables) := RoleInfo(roles[k]);
      RoleInfoPlain(roles[k]);
      RowOneLine([roles[k], mission, deliverables]);
    }
    SplitJoin(rows, '\n');
  }

  /** The verification cell: the checks joined by `"; "`, or `TBD` when there are none. */
  function VerificationCell(verification: seq<string>): string {
    if verification == [] then "TBD" else Join(verification, "; ")
  }

  /** The table row of one workstream: owner `TBD`, status `planned`, and the shared verification cell. */
  function WorkstreamRow(workstream: string, verify: string): string {
    Row([workstream, "TBD", "planned", verify])
  }

  function WorkstreamRowList(workstreams: seq<string>, verification: seq<string>): seq<string> {
    var verify := VerificationCell(verification);
    seq(|workstreams|, i requires 0 <= i < |workstreams| => WorkstreamRow(workstreams[i], verify))
  }

  /** `workstream_rows`: one table row per workstream, joined by line breaks. */
  function WorkstreamRows(workstreams: seq<string>, verification: seq<string>): string {
    Join(WorkstreamRowList(workstreams, verification), "\n")
  }

  /** No separator-free parts joined with a separator-free glue give the character. */
  lemma {:induction false} JoinAvoids(parts: seq<string>, sep: string, c: char)
    requires c !in sep
    requires forall k :: 0 <= k < |parts| ==> c !in parts[k]
    ensures c !in Join(parts, sep)
  {
    if |parts| > 1 {
      JoinAvoids(parts[1..], sep, c);
    }
  }

  /**
   * A workstream's row has four cells: the workstream, owner `TBD`, status
   * `planned`, and the checks joined by `"; "` or `TBD` when there are none.
   */
  lemma WorkstreamRowCells(workstream: string, verify: string)
    requires '|' !in workstream && '|' !in verify
    ensures Split(WorkstreamRow(workstream, verify), '|') ==
            ["", " " + workstream + " ", " TBD ", " planned ", " " + verify + " ", ""]
  {
    var cells := [workstream, "TBD", "planned", verify];
    RowSplit(cells);
    assert Padded(cells)[1] == " TBD ";
    assert Padded(cells)[2] == " planned ";
  }

  /**
   * Line `k` of the role table names the `k`-th role with its preset
   * mission and deliverables, or the placeholders.
   */
  lemma RoleTableRow(roles: seq<string>, k: nat)
    requires k < |roles|
    requires forall j :: 0 <= j < |roles| ==> '\n' !in roles[j] && '|' !in roles[j]
    ensures var lines := Split(RoleRows(roles), '\n');
      && |lines| == |roles|
      && Split(lines[k], '|') == ["", " " + roles[k] + " ", " " + RoleInfo(roles[k]).0 + " ",
                                  " " + RoleInfo(roles[k]).1 + " ", ""]
  {
    RoleRowsLines(roles);
    RoleRowCells(roles[k]);
  }

  /**
   * Line `k` of the workstream table names the `k`-th workstream, owner
   * `TBD`, status `planned` and the shared verification cell.
   */
  lemma WorkstreamTableRow(workstreams: seq<string>, verification: seq<string>, k: nat)
    requires k < |workstreams|
    requires forall j :: 0 <= j < |workstreams| ==> '\n' !in workstreams[j] && '|' !in workstreams[j]
    requires forall j :: 0 <= j < |verification| ==> '\n' !in verification[j] && '|' !in verification[j]
    ensures var lines := Split(WorkstreamRows(workstreams, verification), '\n');
      && |lines| == |workstreams|
      && Split(lines[k], '|') == ["", " " + workstreams[k] + " ", " TBD ", " planned ",
                                  " " + VerificationCell(verification) + " ", ""]
  {
    WorkstreamRowsLines(workstreams, verification);
    VerificationCellPlain(verification);
    WorkstreamRowCells(workstreams[k], VerificationCell(verification));
  }

  /** The verification cell holds no bar or line break unless a check does. */
  lemma VerificationCellPlain(verification: seq<string>)
    ensures (forall k :: 0 <= k < |verification| ==> '|' !in verification[k]) ==> '|' !in VerificationCell(verification)
    ensures (forall k :: 0 <= k < |verification| ==> '\n' !in verification[k]) ==> '\n' !in VerificationCell(verification)
  {
    if verification != [] {
      if forall k :: 0 <= k < |verification| ==> '|' !in verification[k] {
        JoinAvoids(verification, "; ", '|');
      }
      if forall k :: 0 <= k < |verification| ==> '\n' !in verification[k] {
        JoinAvoids(verification, "; ", '\n');
      }
    }
  }

  /** `workstream_rows` renders exactly one line per workstream, in order. */
  lemma WorkstreamRowsLines(workstreams: seq<string>, verification: seq<string>)
    requires workstreams != []
    requires forall k :: 0 <= k < |workstreams| ==> '\n' !in workstreams[k]
    requires forall k :: 0 <= k < |verification| ==> '\n' !in verification[k]
    ensures Split(WorkstreamRows(workstreams, verification), '\n') == WorkstreamRowList(workstreams, verification)
  {
    var verify := VerificationCell(verification);
    VerificationCellPlain(verification);
    var rows := WorkstreamRowList(workstreams, verification);
    forall k | 0 <= k < |rows| ensures '\n' !in rows[k] {
      RowOneLine([workstreams[k], "TBD", "planned", verify]);
    }
    SplitJoin(rows, '\n');
  }

  function Bullets(items: seq<string>): seq<string> {
    seq(|items|, i requires 0 <= i < |items| => "- " + items[i])
  }

  /** `markdown_list`: one `- item` line per item, or the single line `- {emptyValue}` for no items. */
  function MarkdownList(items: seq<string>, emptyValue: string): string {
    if items == [] then "- " + emptyValue else Join(Bullets(items), "\n")
  }

  /**
   * When neither the items nor the fallback hold a line break, the list has
   * exactly one line per item, `- item`, in order, or the one fallback line.
   */
  lemma MarkdownListLines(items: seq<string>, emptyValue: string)
    requires '\n' !in emptyValue
    requires forall k :: 0 <= k < |items| ==> '\n' !in items[k]
    ensures Split(MarkdownList(items, emptyValue), '\n') ==
            if items == [] then ["- " + emptyValue] else Bullets(items)
  {
    if items == [] {
      SplitNoSep("- " + emptyValue, '\n');
    } else {
      var lines := Bullets(items);
      assert forall k :: 0 <= k < |lines| ==> lines[k] == "- " + items[k];
      SplitJoin(lines, '\n');
    }
  }

  /** How delegate mode is shown. */
  function DelegateModeValue(delegateMode: bool): string {
    if delegateMode then "enabled" else "disabled"
  }

  /** The fixed closing sections: handoff protocol, debate protocol and decision log. */
  const Protocols :=
    "\n\n## Handoff Protocol\n"
    + "1. Lead posts assignment with owner, boundary, and deadline.\n"
    + "2. Specialist returns summary, touched scope, verification output, and risks.\n"
    + "3. Reviewer validates spec and quality before status changes to complete.\n"
    + "4. Lead records decision and next action in this brief.\n"
    + "\n## Debate and Reflection Protocol\n"
    + "1. For conflicting approaches, open a formal debate linked to the blocked task.\n"
    + "2. Require one position per debate member with option, rationale, and confidence.\n"
    + "3. Decide with explicit rationale, then apply outcome to task status/owner.\n"
    + "4. Broadcast the chosen path and resume implementation on the linked task.\n"
    + "\n## Decision Log\n"
    + "- [ ] Decision:\n"
    + "  Context:\n"
    + "  Chosen option:\n"
    + "  Why:\n"
    + "  Follow-up:\n"

  /**
   * The template of the brief cut at its placeholders: each label is followed
   * by the value filled in after it.
   */
  function Interleave(labels: seq<string>, values: seq<string>): (pieces: seq<string>)
    requires |labels| == |values|
    ensures |pieces| == 2 * |labels|
    ensures forall k :: 0 <= k < |labels| ==> pieces[2 * k] == labels[k] && pieces[2 * k + 1] == values[k]
  {
    if labels == [] then []
    else [labels[0], values[0]] + Interleave(labels[1..], values[1..])
  }

  /** The filled-in template opens with its first label and first value. */
  lemma InterleaveOpening(labels: seq<string>, values: seq<string>, tail: seq<string>)
    requires |labels| == |values| && labels != []
    ensures var text := Concat(Interleave(labels, values) + tail);
      |text| >= |labels[0]| + |values[0]| && text[..|labels[0]| + |values[0]|] == labels[0] + values[0]
  {
    var pieces := Interleave(labels, values) + tail;
    assert pieces[0] == labels[0] && pieces[1] == values[0];
    ConcatOpening(pieces);
  }

  /** The filled-in template shows each value right after its label. */
  lemma InterleaveContainsPair(labels: seq<string>, values: seq<string>, tail: seq<string>, k: nat)
    requires |labels| == |values| && k < |labels|
    ensures Contains(Concat(Interleave(labels, values) + tail), labels[k] + values[k])
  {
    var pieces := Interleave(labels, values) + tail;
    assert pieces[2 * k] == labels[k] && pieces[2 * k + 1] == values[k];
    ConcatContainsPair(pieces, 2 * k);
  }

  /** The literal text before each placeholder of the brief. */
  const Labels: seq<string> := [
    "# Team Brief: ",
    "\n\nDate: ",
    "\n\n## Goal\n",
    "\n\n## Topology\n- Choice: ",
    "\n- Note: ",
    "\n\n## Team Modes\n- Communication: ",
    "\n- Delegate mode: ",
    "\n\n## Definition of Done\n",
    "\n\n## Constraints\n",
    "\n\n## Skill Links\n",
    "\n\n## Roles\n| Role | Mission | Deliverables |\n| --- | --- | --- |\n",
    "\n\n## Workstreams\n| Workstream | Owner | Status | Verification |\n| --- | --- | --- | --- |\n"
  ]

  /** The values filled in after each label, in the same order. */
  function Fields(
    teamName: string, goal: string, topology: string, note: string,
    workstreams: seq<string>, roles: seq<string>, doneCriteria: seq<string>,
    constraints: seq<string>, verification: seq<string>, skillRefs: seq<string>,
    communicationMode: string, delegateMode: bool, today: string): seq<string>
  {
    [ teamName, today, goal, topology, note, communicationMode, DelegateModeValue(delegateMode),
      MarkdownList(doneCriteria, "Define completion criteria."),
      MarkdownList(constraints, "No additional constraints supplied."),
      MarkdownList(skillRefs, "No skill links supplied."),
      RoleRows(roles), WorkstreamRows(workstreams, verification) ]
  }

  /**
   * `build_brief`: the template filled in and followed by the fixed closing
   * sections, or a failure for a topology that is not one of the four known ones.
   */
  function BuildBrief(
    teamName: string, goal: string, topology: string,
    workstreams: seq<string>, roles: seq<string>, doneCriteria: seq<string>,
    constraints: seq<string>, verification: seq<string>, skillRefs: seq<string>,
    communicationMode: string, delegateMode: bool, today: string): (r: Result<string, BriefError>)
    ensures r.Err? <==> topology !in TopologyNotes
    ensures r.Err? ==> r.error == UnknownTopology(topology)
  {
    if topology !in TopologyNotes then Err(UnknownTopology(topology))
    else Ok(Concat(Interleave(Labels, Fields(teamName, goal, topology, TopologyNotes[topology], workstreams, roles,
                        doneCriteria, constraints, verification, skillRefs,
                        communicationMode, delegateMode, today)) + [Protocols]))
  }

  /** A brief for a known topology opens with `# Team Brief: ` and the team name. */
  lemma BriefOpening(
    teamName: string, goal: string, topology: string,
    workstreams: seq<string>, roles: seq<string>, doneCriteria: seq<string>,
    constraints: seq<string>, verification: seq<string>, skillRefs: seq<string>,
    communicationMode: string, delegateMode: bool, today: string)
    requires topology in TopologyNotes
    ensures var r := BuildBrief(teamName, goal, topology, workstreams, roles, doneCriteria,
                                constraints, verification, skillRefs, communicationMode,
                                delegateMode, today);
      && r.Ok?
      && |r.value| >= 14 + |teamName| && r.value[..14 + |teamName|] == "# Team Brief: " + teamName
  {
    InterleaveOpening(Labels, Fields(teamName, goal, topology, TopologyNotes[topology], workstreams, roles,
                      doneCriteria, constraints, verification, skillRefs,
                      communicationMode, delegateMode, today), [Protocols]);
  }

  /**
   * A brief for a known topology shows the topology's note, the
   * communication mode, and the delegate mode as `enabled` or `disabled`.
   */
  lemma BriefModes(
    teamName: string, goal: string, topology: string,
    workstreams: seq<string>, roles: seq<string>, doneCriteria: seq<string>,
    constraints: seq<string>, verification: seq<string>, skillRefs: seq<string>,
    communicationMode: string, delegateMode: bool, today: string)
    requires topology in TopologyNotes
    ensures var r := BuildBrief(teamName, goal, topology, workstreams, roles, doneCriteria,
                                constraints, verification, skillRefs, communicationMode,
                                delegateMode, today);
      && r.Ok?
      && Contains(r.value, "\n- Note: " + TopologyNotes[topology])
      && Contains(r.value, "\n\n## Team Modes\n- Communication: " + communicationMode)
      && Contains(r.value, "\n- Delegate mode: " + (if delegateMode then "enabled" else "disabled"))
  {
    var values := Fields(teamName, goal, topology, TopologyNotes[topology], workstreams, roles,
                      doneCriteria, constraints, verification, skillRefs,
                      communicationMode, delegateMode, today);
    InterleaveContainsPair(Labels, values, [Protocols], 4);
    InterleaveContainsPair(Labels, values, [Protocols], 5);
    InterleaveContainsPair(Labels, values, [Protocols], 6);
  }

  /**
   * A brief for a known topology holds the rendered definition of done,
   * constraints, skill links, role table and workstream table, each right
   * after its own heading.
   */
  lemma BriefSections(
    teamName: string, goal: string, topology: string,
    workstreams: seq<string>, roles: seq<string>, doneCriteria: seq<string>,
    constraints: seq<string>, verification: seq<string>, skillRefs: seq<string>,
    communicationMode: string, delegateMode: bool, today: string)
    requires topology in TopologyNotes
    ensures var r := BuildBrief(teamName, goal, topology, workstreams, roles, doneCriteria,
                                constraints, verification, skillRefs, communicationMode,
                                delegateMode, today);
      && r.Ok?
      && Contains(r.value, "\n\n## Definition of Done\n"
                          + MarkdownList(doneCriteria, "Define completion criteria."))
      && Contains(r.value, "\n\n## Constraints\n"
                          + MarkdownList(constraints, "No additional constraints supplied."))
      && Contains(r.value, "\n\n## Skill Links\n"
                          + MarkdownList(skillRefs, "No skill links supplied."))
      && Contains(r.value, "\n\n## Roles\n| Role | Mission | Deliverables |\n| --- | --- | --- |\n"
                          + RoleRows(roles))
      && Contains(r.value, "\n\n## Workstreams\n| Workstream | Owner | Status | Verification |\n| --- | --- | --- | --- |\n"
                          + WorkstreamRows(workstreams, verification))
  {
    var values := Fields(teamName, goal, topology, TopologyNotes[topology], workstreams, roles,
                      doneCriteria, constraints, verification, skillRefs,
                      communicationMode, delegateMode, today);
    InterleaveContainsPair(Labels, values, [Protocols], 7);
    InterleaveContainsPair(Labels, values, [Protocols], 8);
    InterleaveContainsPair(Labels, values, [Protocols], 9);
    InterleaveContainsPair(Labels, values, [Protocols], 10);
    InterleaveContainsPair(Labels, values, [Protocols], 11);
  }

  /** The command-line arguments, after option parsing. */
  datatype BriefArgs = BriefArgs(
    teamName: string,
    goal: string,
    topology: string,
    workstreams: string,
    roles: string,
    doneCriteria: Option<string>,
    constraints: Option<string>,
    verification: Option<string>,
    skillRefs: Option<string>,
    communicationMode: string,
    delegateMode: bool)

  /** The lists the brief is built from, once read, defaulted and validated. */
  datatype BriefInputs = BriefInputs(
    workstreams: seq<string>,
    roles: seq<string>,
    doneCriteria: seq<string>,
    constraints: seq<string>,
    verification: seq<string>,
    skillRefs: seq<string>)

  /** `parse_csv(value) or default`. */
  function OrDefault(items: seq<string>, default: seq<string>): seq<string> {
    if items == [] then default else items
  }

  /**
   * The reading and checking in `main`: blank definition of done and skill
   * links fall back to the defaults, while a brief without workstreams, or
   * then without roles, is rejected.
   */
  function ResolveInputs(args: BriefArgs): (r: Result<BriefInputs, BriefError>)
    ensures r == Err(NoWorkstreams) <==>
              forall i :: 0 <= i < |args.workstreams| ==> args.workstreams[i] == ',' || IsSpace(args.workstreams[i])
    ensures r == Err(NoRoles) <==>
              && (exists i :: 0 <= i < |args.workstreams| && args.workstreams[i] != ',' && !IsSpace(args.workstreams[i]))
              && (forall i :: 0 <= i < |args.roles| ==> args.roles[i] == ',' || IsSpace(args.roles[i]))
    ensures r.Ok? ==>
      && r.value.workstreams == SplitClean(args.workstreams) != []
      && r.value.roles == SplitClean(args.roles) != []
      && r.value.constraints == ParseCsv(args.constraints)
      && r.value.verification == ParseCsv(args.verification)
      && r.value.doneCriteria != [] && r.value.skillRefs != []
      && (ParseCsv(args.doneCriteria) == [] ==> r.value.doneCriteria == DefaultDone)
      && (ParseCsv(args.doneCriteria) != [] ==> r.value.doneCriteria == ParseCsv(args.doneCriteria))
      && (ParseCsv(args.skillRefs) == [] ==> r.value.skillRefs == DefaultSkills)
      && (ParseCsv(args.skillRefs) != [] ==> r.value.skillRefs == ParseCsv(args.skillRefs))
  {
    var workstreams := ParseCsv(Some(args.workstreams));
    var roles := ParseCsv(Some(args.roles));
    ParseCsvAgrees(args.workstreams);
    ParseCsvAgrees(args.roles);
    SplitCleanItems(args.workstreams);
    SplitCleanItems(args.roles);
    if workstreams == [] then Err(NoWorkstreams)
    else if roles == [] then Err(NoRoles)
    else Ok(BriefInputs(
      workstreams,
      roles,
      OrDefault(ParseCsv(args.doneCriteria), DefaultDone),
      ParseCsv(args.constraints),
      ParseCsv(args.verification),
      OrDefault(ParseCsv(args.skillRefs), DefaultSkills)))
  }

  /**
   * `main` without the output step: the brief for the arguments, or why
   * there is none. Option parsing rejects an unknown topology before `main`
   * looks at the lists; then a brief needs a workstream and a role.
   */
  function Generate(args: BriefArgs, today: string): (r: Result<string, BriefError>)
    ensures r.Ok? <==> SplitClean(args.workstreams) != [] && SplitClean(args.roles) != []
                       && args.topology in TopologyNotes
    ensures args.topology !in TopologyNotes ==> r == Err(UnknownTopology(args.topology))
    ensures args.topology in TopologyNotes && SplitClean(args.workstreams) == [] ==> r == Err(NoWorkstreams)
  {
    if args.topology !in TopologyNotes then Err(UnknownTopology(args.topology))
    else
      match ResolveInputs(args)
      case Err(e) => Err(e)
      case Ok(inputs) =>
        BuildBrief(args.teamName, args.goal, args.topology, inputs.workstreams, inputs.roles,
                   inputs.doneCriteria, inputs.constraints, inputs.verification, inputs.skillRefs,
                   args.communicationMode, args.delegateMode, today)
  }
}
