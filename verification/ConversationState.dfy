/** The list of cases of one conversation and the id of its active case. */
module ConversationState {
  import opened Options
  import opened Sequences

  datatype Status = Active | Archived | Switched

  /** The value of a case as the conversation sees it. */
  datatype Case = Case(id: string, workflow: string, status: Status)

  /** The value of a conversation; the empty id stands for no active case. */
  datatype Conversation = Conversation(active: string, cases: seq<Case>)

  const NEW_CONVERSATION := Conversation("", [])

  function HasId(id: string): Case -> bool {
    (c: Case) => c.id == id
  }

  /** The first case with an id. */
  function Find(cases: seq<Case>, id: string): (i: Option<nat>)
    ensures i.Some? ==> i.value < |cases| && cases[i.value].id == id
    ensures forall k :: 0 <= k < (if i.Some? then i.value else |cases|) ==> cases[k].id != id
  {
    FirstFrom(cases, HasId(id), 0)
  }

  /** The last archived case of a workflow. */
  function LastArchived(cases: seq<Case>, workflow: string): (i: Option<nat>)
    ensures i.Some? ==> i.value < |cases| && cases[i.value].workflow == workflow && cases[i.value].status == Archived
    ensures forall k :: (if i.Some? then i.value + 1 else 0) <= k < |cases| ==>
                          !(cases[k].workflow == workflow && cases[k].status == Archived)
  {
    if cases == [] then None
    else
      var c := cases[|cases| - 1];
      if c.workflow == workflow && c.status == Archived then Some(|cases| - 1)
      else LastArchived(cases[..|cases| - 1], workflow)
  }

  function SetStatus(cases: seq<Case>, i: nat, status: Status): seq<Case>
    requires i < |cases|
  {
    cases[i := cases[i].(status := status)]
  }

  datatype Op =
    | Create(workflow: string, id: string)
    | Archive(id: string)
    | ArchiveAndCreate(workflow: string, id: string)
    | Restore(workflow: string)
    | SwitchTo(id: string)

  function Archiving(c: Conversation, id: string): Conversation {
    var i := Find(c.cases, id);
    if i == None then c
    else Conversation(if c.active == id then "" else c.active, SetStatus(c.cases, i.value, Archived))
  }

  function Creating(c: Conversation, workflow: string, id: string): Conversation {
    Conversation(id, c.cases + [Case(id, workflow, Active)])
  }

  function Apply(c: Conversation, op: Op): Conversation {
    match op
    case Create(workflow, id) => Creating(c, workflow, id)
    case Archive(id) => Archiving(c, id)
    case ArchiveAndCreate(workflow, id) =>
      Creating(if c.active != "" then Archiving(c, c.active) else c, workflow, id)
    case Restore(workflow) =>
      var i := LastArchived(c.cases, workflow);
      if i == None then c else Conversation(c.cases[i.value].id, SetStatus(c.cases, i.value, Active))
    case SwitchTo(id) =>
      var i := Find(c.cases, id);
      if i == None then c
      else
        var reopened := if c.cases[i.value].status == Archived then SetStatus(c.cases, i.value, Active) else c.cases;
        var d := Conversation(c.active, reopened);
        (if c.active != "" && c.active != id then Archiving(d, c.active) else d).(active := id)
  }

  class CaseState {
    const caseId: string
    const workflowId: string
    var status: Status

    constructor (workflowId: string, caseId: string)
      ensures View() == Case(caseId, workflowId, Active)
    {
      this.workflowId, this.caseId, status := workflowId, caseId, Active;
    }

    function View(): Case
      reads this
    {
      Case(caseId, workflowId, status)
    }
  }

  class ConversationState {
    var activeCaseId: string
    var cases: seq<CaseState>

    ghost predicate Valid()
      reads this
    {
      forall i, j :: 0 <= i < j < |cases| ==> cases[i] != cases[j]
    }

    ghost function View(): Conversation
      reads this, cases
    {
      Conversation(activeCaseId, seq(|cases|, i requires 0 <= i < |cases| reads this, cases => cases[i].View()))
    }

    constructor ()
      ensures Valid() && View() == NEW_CONVERSATION
    {
      activeCaseId, cases := "", [];
    }

    method ActiveCase() returns (case': CaseState?)
      requires Valid()
      ensures case' != null ==> case' in cases && case'.caseId == activeCaseId && case'.status == Active
      ensures case' == null <==>
              (activeCaseId == "" ||
               forall i :: 0 <= i < |cases| ==> !(cases[i].caseId == activeCaseId && cases[i].status == Active))
    {
      if activeCaseId == "" {
        return null;
      }
      for n := 0 to |cases|
        invariant forall i :: 0 <= i < n ==> !(cases[i].caseId == activeCaseId && cases[i].status == Active)
      {
        if cases[n].caseId == activeCaseId && cases[n].status == Active {
          return cases[n];
        }
      }
      return null;
    }

    method CreateCase(workflowId: string, freshId: string) returns (created: CaseState)
      requires Valid()
      modifies this
      ensures Valid() && fresh(created) && cases == old(cases) + [created]
      ensures View() == Apply(old(View()), Create(workflowId, freshId))
    {
      ghost var before := View();
      created := new CaseState(workflowId, freshId);
      cases := cases + [created];
      activeCaseId := freshId;
      assert View().cases == before.cases + [created.View()];
    }

    method Mark(n: nat, status: Status)
      requires Valid() && n < |cases|
      modifies cases[n]
      ensures View() == old(View()).(cases := SetStatus(old(View()).cases, n, status))
    {
      ghost var before := View().cases;
      cases[n].status := status;
      assert View().cases == SetStatus(before, n, status);
    }

    method ArchiveCase(caseId: string)
      requires Valid()
      modifies this`activeCaseId, cases
      ensures View() == Apply(old(View()), Archive(caseId))
    {
      ghost var before := View().cases;
      for n := 0 to |cases|
        invariant Find(before, caseId) == FirstFrom(before, HasId(caseId), n)
        invariant View() == old(View())
      {
        if cases[n].caseId == caseId {
          Mark(n, Archived);
          if activeCaseId == caseId {
            activeCaseId := "";
          }
          return;
        }
      }
    }

    method ArchiveAndCreateCase(workflowId: string, freshId: string) returns (created: CaseState)
      requires Valid()
      modifies this, cases
      ensures Valid() && fresh(created) && cases == old(cases) + [created]
      ensures View() == Apply(old(View()), ArchiveAndCreate(workflowId, freshId))
    {
      if activeCaseId != "" {
        ArchiveCase(activeCaseId);
      }
      created := CreateCase(workflowId, freshId);
    }

    method RestoreCase(workflowId: string) returns (restored: CaseState?)
      requires Valid()
      modifies this`activeCaseId, cases
      ensures View() == Apply(old(View()), Restore(workflowId))
      ensures restored == null <==> LastArchived(old(View()).cases, workflowId) == None
      ensures restored != null ==> restored == cases[LastArchived(old(View()).cases, workflowId).value]
    {
      ghost var before := View().cases;
      var n := |cases|;
      assert before[..n] == before;
      while n > 0
        invariant 0 <= n <= |cases|
        invariant LastArchived(before, workflowId) == LastArchived(before[..n], workflowId)
        invariant View() == old(View())
      {
        n := n - 1;
        assert before[..n + 1][..n] == before[..n];
        if cases[n].workflowId == workflowId && cases[n].status == Archived {
          Mark(n, Active);
          activeCaseId := cases[n].caseId;
          return cases[n];
        }
      }
      return null;
    }

    /** Reopens the found case and leaves the active one. */
    method PointAt(n: nat)
      requires Valid() && n < |cases| && Find(View().cases, cases[n].caseId) == Some(n)
      modifies this`activeCaseId, cases
      ensures View() == Apply(old(View()), SwitchTo(cases[n].caseId))
    {
      if cases[n].status == Archived {
        Mark(n, Active);
      }
      if activeCaseId != "" && activeCaseId != cases[n].caseId {
        ArchiveCase(activeCaseId);
      }
      activeCaseId := cases[n].caseId;
    }

    method SwitchToCase(caseId: string) returns (chosen: CaseState?)
      requires Valid()
      modifies this`activeCaseId, cases
      ensures View() == Apply(old(View()), SwitchTo(caseId))
      ensures chosen == null <==> Find(old(View()).cases, caseId) == None
      ensures chosen != null ==> chosen == cases[Find(old(View()).cases, caseId).value]
    {
      ghost var before := View().cases;
      for n := 0 to |cases|
        invariant Find(before, caseId) == FirstFrom(before, HasId(caseId), n)
        invariant View() == old(View())
      {
        if cases[n].caseId == caseId {
          PointAt(n);
          return cases[n];
        }
      }
      return null;
    }
  }

  /** An operation that makes a case uses an id no listed case has. */
  predicate FreshId(c: Conversation, op: Op) {
    op.Create? || op.ArchiveAndCreate? ==> op.id != "" && Find(c.cases, op.id) == None
  }

  /** Ids are distinct, and the active id, when set, names a listed case whose status is active. */
  ghost predicate Sound(c: Conversation) {
    && (forall i :: 0 <= i < |c.cases| ==> c.cases[i].id != "" && c.cases[i].status != Switched)
    && (forall i, j :: 0 <= i < j < |c.cases| ==> c.cases[i].id != c.cases[j].id)
    && (c.active != "" ==> exists i :: 0 <= i < |c.cases| && c.cases[i].id == c.active && c.cases[i].status == Active)
  }

  /** Cases keep their place, id and workflow; new ones come at the end. */
  ghost predicate Extends(c: Conversation, d: Conversation) {
    && |c.cases| <= |d.cases| <= |c.cases| + 1
    && forall i :: 0 <= i < |c.cases| ==> d.cases[i].id == c.cases[i].id && d.cases[i].workflow == c.cases[i].workflow
  }

  ghost predicate AtMostOneActive(c: Conversation) {
    forall i, j :: 0 <= i < j < |c.cases| ==> !(c.cases[i].status == Active && c.cases[j].status == Active)
  }

  /** The active cases are exactly the one whose id is the active one. */
  ghost predicate Exact(c: Conversation) {
    forall i :: 0 <= i < |c.cases| ==> (c.cases[i].status == Active <==> c.cases[i].id == c.active)
  }

  lemma ArchivingKeepsSound(c: Conversation, id: string)
    requires Sound(c)
    ensures Sound(Archiving(c, id)) && Extends(c, Archiving(c, id))
    ensures |Archiving(c, id).cases| == |c.cases|
    ensures Exact(c) ==> Exact(Archiving(c, id))
    ensures c.active == id ==> Archiving(c, id).active == ""
  {
    var d := Archiving(c, id);
    if Find(c.cases, id).Some? && d.active != "" {
      var k :| 0 <= k < |c.cases| && c.cases[k].id == c.active && c.cases[k].status == Active;
      assert d.cases[k] == c.cases[k];
    }
  }

  lemma CreatingKeepsSound(c: Conversation, workflow: string, id: string)
    requires Sound(c) && id != "" && Find(c.cases, id) == None
    ensures Sound(Creating(c, workflow, id)) && Extends(c, Creating(c, workflow, id))
  {
    assert Creating(c, workflow, id).cases[|c.cases|].id == id;
  }

  /** A listed case that becomes active, or stays so, and whose id becomes the active one. */
  lemma PointingKeepsSound(c: Conversation, i: nat)
    requires Sound(c) && i < |c.cases|
    ensures var d := Conversation(c.cases[i].id, SetStatus(c.cases, i, Active));
            Sound(d) && Extends(c, d) && (c.active == "" && Exact(c) ==> Exact(d))
  {
    var d := Conversation(c.cases[i].id, SetStatus(c.cases, i, Active));
    assert d.cases[i].id == d.active && d.cases[i].status == Active;
  }

  /** Switching is archiving the active case, if another one, and pointing at the chosen case. */
  lemma SwitchIsArchiveThenPoint(c: Conversation, id: string)
    requires Sound(c) && Find(c.cases, id).Some?
    ensures var i := Find(c.cases, id).value;
            var d := if c.active != "" && c.active != id then Archiving(c, c.active) else c;
            Apply(c, SwitchTo(id)) == Conversation(id, SetStatus(d.cases, i, Active))
  {
    var i := Find(c.cases, id).value;
    var reopened := if c.cases[i].status == Archived then SetStatus(c.cases, i, Active) else c.cases;
    assert reopened == SetStatus(c.cases, i, Active);
    if c.active != "" && c.active != id {
      var k :| 0 <= k < |c.cases| && c.cases[k].id == c.active;
      assert reopened[k].id == c.active;
      var a := Find(c.cases, c.active).value;
      assert Find(reopened, c.active) == Some(a);
    }
  }

  /** Every operation keeps the active id sound and only appends cases. */
  lemma ApplyKeepsSound(c: Conversation, op: Op)
    requires Sound(c) && FreshId(c, op)
    ensures Sound(Apply(c, op)) && Extends(c, Apply(c, op))
  {
    match op
    case Create(workflow, id) => CreatingKeepsSound(c, workflow, id);
    case Archive(id) => ArchivingKeepsSound(c, id);
    case ArchiveAndCreate(workflow, id) =>
      ArchivingKeepsSound(c, c.active);
      var d := if c.active != "" then Archiving(c, c.active) else c;
      CreatingKeepsSound(d, workflow, id);
    case Restore(workflow) =>
      if LastArchived(c.cases, workflow).Some? {
        PointingKeepsSound(c, LastArchived(c.cases, workflow).value);
      }
    case SwitchTo(id) =>
      if Find(c.cases, id).Some? {
        SwitchIsArchiveThenPoint(c, id);
        ArchivingKeepsSound(c, c.active);
        var d := if c.active != "" && c.active != id then Archiving(c, c.active) else c;
        PointingKeepsSound(d, Find(c.cases, id).value);
      }
  }

  // ---- What each operation changes ----

  predicate IsListed(c: Conversation, id: string) {
    exists k :: 0 <= k < |c.cases| && c.cases[k].id == id
  }

  /** Case i is the latest archived one of the workflow. */
  predicate IsLatestArchived(c: Conversation, workflow: string, i: int) {
    && 0 <= i < |c.cases| && c.cases[i].workflow == workflow && c.cases[i].status == Archived
    && forall k :: i < k < |c.cases| ==> c.cases[k].workflow != workflow || c.cases[k].status != Archived
  }

  /** The status of a listed case after an operation: archived by its own archiving, or as the active case when another
      is created or chosen; active when it is restored or chosen; and otherwise as it was. */
  lemma StatusAfter(c: Conversation, op: Op, i: nat)
    requires Sound(c) && FreshId(c, op) && i < |c.cases|
    ensures
      var was := c.cases[i];
      i < |Apply(c, op).cases| &&
      Apply(c, op).cases[i] ==
      match op {
        case Create(_, _) => was
        case Archive(id) => if was.id == id then was.(status := Archived) else was
        case ArchiveAndCreate(_, _) => if was.id == c.active then was.(status := Archived) else was
        case Restore(workflow) => if IsLatestArchived(c, workflow, i) then was.(status := Active) else was
        case SwitchTo(id) =>
          if was.id == id then was.(status := Active)
          else if was.id == c.active && IsListed(c, id) then was.(status := Archived) else was
      }
  {
    if op.SwitchTo? && Find(c.cases, op.id).Some? {
      SwitchIsArchiveThenPoint(c, op.id);
    }
  }

  /** The active case after an operation, and the case it adds. */
  lemma ActiveAfter(c: Conversation, op: Op)
    requires Sound(c) && FreshId(c, op)
    ensures
      var d := Apply(c, op);
      match op
      case Create(workflow, id) =>
        d.active == id && |d.cases| == |c.cases| + 1 && d.cases[|c.cases|] == Case(id, workflow, Active)
      case ArchiveAndCreate(workflow, id) =>
        d.active == id && |d.cases| == |c.cases| + 1 && d.cases[|c.cases|] == Case(id, workflow, Active)
      case Archive(id) => d.active == (if id == c.active then "" else c.active) && |d.cases| == |c.cases|
      case Restore(workflow) =>
        && |d.cases| == |c.cases|
        && (forall i :: IsLatestArchived(c, workflow, i) ==> d.active == c.cases[i].id)
        && ((forall i :: 0 <= i < |c.cases| ==> !IsLatestArchived(c, workflow, i)) ==> d.active == c.active)
      case SwitchTo(id) => d.active == (if IsListed(c, id) then id else c.active) && |d.cases| == |c.cases|
  {
    if op.SwitchTo? && Find(c.cases, op.id).Some? {
      SwitchIsArchiveThenPoint(c, op.id);
      assert IsListed(c, op.id);
    }
    if op.Restore? && LastArchived(c.cases, op.workflow).Some? {
      assert IsLatestArchived(c, op.workflow, LastArchived(c.cases, op.workflow).value);
    }
  }

  /** The archive-first discipline: a case is created or restored only when none is active. */
  predicate Disciplined(c: Conversation, op: Op) {
    match op
    case Create(_, _) => c.active == ""
    case Restore(workflow) => c.active == "" || LastArchived(c.cases, workflow) == None
    case _ => true
  }

  lemma ExactIsAtMostOne(c: Conversation)
    requires Sound(c) && Exact(c)
    ensures AtMostOneActive(c)
  {
  }

  lemma CreatingKeepsExact(c: Conversation, workflow: string, id: string)
    requires Exact(c) && c.active == "" && id != "" && Find(c.cases, id) == None
    requires forall i :: 0 <= i < |c.cases| ==> c.cases[i].id != ""
    ensures Exact(Creating(c, workflow, id))
  {
  }

  lemma SwitchingKeepsExact(c: Conversation, id: string)
    requires Sound(c) && Exact(c) && Find(c.cases, id).Some?
    ensures Exact(Apply(c, SwitchTo(id)))
  {
    var i := Find(c.cases, id).value;
    SwitchIsArchiveThenPoint(c, id);
    if c.active == id {
      assert SetStatus(c.cases, i, Active) == c.cases;
    } else {
      ArchivingKeepsSound(c, c.active);
      PointingKeepsSound(if c.active != "" then Archiving(c, c.active) else c, i);
    }
  }

  lemma DisciplinedKeepsExact(c: Conversation, op: Op)
    requires Sound(c) && Exact(c) && FreshId(c, op) && Disciplined(c, op)
    ensures Exact(Apply(c, op))
  {
    match op
    case Create(workflow, id) => CreatingKeepsExact(c, workflow, id);
    case Archive(id) => ArchivingKeepsSound(c, id);
    case ArchiveAndCreate(workflow, id) =>
      ArchivingKeepsSound(c, c.active);
      CreatingKeepsExact(if c.active != "" then Archiving(c, c.active) else c, workflow, id);
    case Restore(workflow) =>
      if LastArchived(c.cases, workflow).Some? {
        PointingKeepsSound(c, LastArchived(c.cases, workflow).value);
      }
    case SwitchTo(id) =>
      if Find(c.cases, id).Some? {
        SwitchingKeepsExact(c, id);
      }
  }

  lemma UndisciplinedDoubles(c: Conversation, op: Op)
    requires Sound(c) && FreshId(c, op) && !Disciplined(c, op)
    ensures !AtMostOneActive(Apply(c, op))
  {
    var d := Apply(c, op);
    var k :| 0 <= k < |c.cases| && c.cases[k].id == c.active && c.cases[k].status == Active;
    assert d.cases[k].status == Active;
    if op.Create? {
      assert d.cases[|c.cases|].status == Active;
    } else {
      var i := LastArchived(c.cases, op.workflow).value;
      assert d.cases[i].status == Active && i != k;
    }
  }

  function Run(ops: seq<Op>): Conversation {
    if ops == [] then NEW_CONVERSATION else Apply(Run(ops[..|ops| - 1]), ops[|ops| - 1])
  }

  /** Every operation of the run makes cases with fresh ids. */
  ghost predicate FreshRun(ops: seq<Op>) {
    forall n :: 0 <= n < |ops| ==> FreshId(Run(ops[..n]), ops[n])
  }

  lemma RunSnoc(ops: seq<Op>, n: nat)
    requires n < |ops|
    ensures Run(ops[..n + 1]) == Apply(Run(ops[..n]), ops[n])
  {
    assert ops[..n + 1][..n] == ops[..n];
  }

  /** In every reachable state the active id, when set, names a listed case whose status is active. */
  lemma {:induction false} RunIsSound(ops: seq<Op>, n: nat)
    requires FreshRun(ops) && n <= |ops|
    ensures Sound(Run(ops[..n]))
  {
    if n > 0 {
      RunIsSound(ops, n - 1);
      RunSnoc(ops, n - 1);
      assert ops[..n - 1] == ops[..n][..n - 1];
      ApplyKeepsSound(Run(ops[..n - 1]), ops[n - 1]);
    }
  }

  lemma {:induction false} RunIsExact(ops: seq<Op>, n: nat)
    requires FreshRun(ops) && n <= |ops|
    requires forall m :: 0 <= m < n ==> Disciplined(Run(ops[..m]), ops[m])
    ensures Exact(Run(ops[..n]))
  {
    if n > 0 {
      RunIsExact(ops, n - 1);
      RunIsSound(ops, n - 1);
      RunSnoc(ops, n - 1);
      DisciplinedKeepsExact(Run(ops[..n - 1]), ops[n - 1]);
    }
  }

  /** At most one case is active all along a run exactly when every create and restore happened
      while none was. */
  lemma AtMostOneExactlyWhen(ops: seq<Op>)
    requires FreshRun(ops)
    ensures (forall n :: 0 <= n <= |ops| ==> AtMostOneActive(Run(ops[..n])))
            <==> (forall n :: 0 <= n < |ops| ==> Disciplined(Run(ops[..n]), ops[n]))
  {
    if forall n :: 0 <= n < |ops| ==> Disciplined(Run(ops[..n]), ops[n]) {
      forall n | 0 <= n <= |ops| ensures AtMostOneActive(Run(ops[..n])) {
        RunIsExact(ops, n);
        RunIsSound(ops, n);
        ExactIsAtMostOne(Run(ops[..n]));
      }
    } else {
      var n :| 0 <= n < |ops| && !Disciplined(Run(ops[..n]), ops[n]);
      RunIsSound(ops, n);
      RunSnoc(ops, n);
      UndisciplinedDoubles(Run(ops[..n]), ops[n]);
    }
  }

  /** Restoring the workflow of the case just archived brings back the same conversation exactly
      when no later case of that workflow is archived. */
  lemma RestoreUndoesArchive(c: Conversation, i: nat)
    requires Sound(c) && c.active != "" && Find(c.cases, c.active) == Some(i)
    ensures var workflow := c.cases[i].workflow;
            Apply(Apply(c, Archive(c.active)), Restore(workflow)) == c
            <==> forall k :: i < k < |c.cases| ==> !(c.cases[k].workflow == workflow && c.cases[k].status == Archived)
  {
    var workflow := c.cases[i].workflow;
    var k0 :| 0 <= k0 < |c.cases| && c.cases[k0].id == c.active && c.cases[k0].status == Active;
    assert k0 == i;
    var d := Apply(c, Archive(c.active));
    assert d.cases == SetStatus(c.cases, i, Archived);
    assert d.cases[i] == c.cases[i].(status := Archived);
    var r := LastArchived(d.cases, workflow);
    assert r.Some? && r.value >= i;
    if r.value == i {
      assert SetStatus(d.cases, i, Active) == c.cases;
      forall k | i < k < |c.cases|
        ensures !(c.cases[k].workflow == workflow && c.cases[k].status == Archived)
      {
        assert d.cases[k] == c.cases[k];
      }
    } else {
      assert d.cases[r.value] == c.cases[r.value];
      assert Apply(d, Restore(workflow)).cases[i].status == Archived;
    }
  }
}
