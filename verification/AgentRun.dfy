/** Approval and execution (`precisa_aprovacao`, `aprovar`, `executar`, `_parse_approval`,
    `_perform`, apps/hotmart-ebook-agent/hotmart_agent/graph.py). */
module AgentRun {
  import opened Prelude
  import opened AgentCourse
  import opened AgentPolicy

  // ------------------------------------------------------------------ approval

  datatype Decision = Approved | Rejected

  /** What a human may answer: text (already stripped and in lower case), a record, a list, other. */
  datatype Reply =
    | Text(text: string)
    | Record(approved: set<string>, approveAll: bool)
    | Listed(ids: set<string>)
    | Other

  const YES := {"aprovar tudo", "aprovar", "sim", "ok", "approve all", "y"}
  const NO := {"rejeitar tudo", "rejeitar", "nao", "não", "no", "n"}

  predicate OccursAt(text: string, part: string, i: nat) { i + |part| <= |text| && text[i..i + |part|] == part }

  predicate Contains(text: string, part: string) {
    exists i :: 0 <= i <= |text| && OccursAt(text, part, i)
  }

  /** `part in text`: the text is the part with something before and something behind it. */
  lemma ContainsIff(text: string, part: string)
    ensures Contains(text, part) <==> exists before: string, behind: string :: text == before + part + behind
  {
    if Contains(text, part) {
      var i :| 0 <= i <= |text| && OccursAt(text, part, i);
      assert text == text[..i] + part + text[i + |part|..];
    }
    if before: string, behind: string :| text == before + part + behind {
      assert OccursAt(text, part, |before|);
    }
  }

  function Tick(b: bool): Decision { if b then Approved else Rejected }

  function ParseApproval(reply: Reply, pending: seq<Id>): map<Id, Decision> {
    match reply
    case Text(text) =>
      if text in YES then map id | id in pending :: Approved
      else if text in NO then map id | id in pending :: Rejected
      else map id | id in pending :: Tick(Contains(text, id.text))
    case Record(approved, approveAll) =>
      map id | id in pending :: Tick(approveAll || id.text in approved)
    case Listed(ids) =>
      map id | id in pending :: Tick(id.text in ids)
    case Other =>
      map id | id in pending :: Rejected
  }

  /** Whether a reply grants an action, told from the side of the action. */
  predicate Grants(reply: Reply, id: Id) {
    || (reply.Text? && (reply.text in YES || (reply.text !in NO && Contains(reply.text, id.text))))
    || (reply.Record? && (reply.approveAll || id.text in reply.approved))
    || (reply.Listed? && id.text in reply.ids)
  }

  /** Every pending id and no other gets a decision, and it is approved exactly when granted. */
  lemma ParseMeaning(reply: Reply, pending: seq<Id>)
    ensures ParseApproval(reply, pending).Keys == set id | id in pending
    ensures forall id :: id in pending ==> (ParseApproval(reply, pending)[id] == Approved <==> Grants(reply, id))
  {}

  /** Any free text that names an action approves it, unless the whole text is one of the refusals,
      whatever the text says about the action. */
  lemma NamedIdApproves(text: string, pending: seq<Id>, id: Id)
    requires id in pending && text !in NO && Contains(text, id.text)
    ensures ParseApproval(Text(text), pending)[id] == Approved
  {
    ParseMeaning(Text(text), pending);
  }

  /** So a text that refuses an action by naming it approves it: an input. */
  lemma RefusalByIdApproves()
    ensures ParseApproval(Text("nao aprovar camp-1"), [Id("camp-1")])[Id("camp-1")] == Approved
  {
    var text, id := "nao aprovar camp-1", "camp-1";
    assert OccursAt(text, id, 12);
    assert |text| == 18;
    NamedIdApproves(text, [Id(id)], Id(id));
  }

  // ----------------------------------------------------------------- performing

  datatype Call =
    | SendReply(to: string, subject: string, body: string, thread: string)
    | MarkHandled(emailId: string, mark: string)
    | SaveDraft(to: string, subject: string, body: string)
    | NewCampaign(name: string, budget: real)
    | SetBudget(campaign: string, target: real)
    | Pause(campaign: string)
    | RequestRefund(transaction: string, reason: string)

  const ANSWERED := "agente/respondido"
  const ESCALATED := "agente/escalado"

  /** How a call ends: well, in an error that the agent knows, or in any other exception. */
  datatype Answer = Fine | AgentError | Foreign

  /** The answer to the n-th call. */
  type Answers = nat -> Answer

  /** The outside world: it records every call made, and answers each one. */
  class Clients {
    const answers: Answers
    var calls: seq<Call>

    constructor (answers: Answers)
      ensures calls == [] && this.answers == answers
    {
      this.answers := answers;
      calls := [];
    }

    method Do(call: Call) returns (answer: Answer)
      modifies this
      ensures calls == old(calls) + [call] && answer == answers(|old(calls)|)
    {
      answer := answers(|calls|);
      calls := calls + [call];
    }
  }

  /** `Escaped` is an exception that `executar` does not catch. */
  datatype Outcome = Performed | Violation | Broken | Escaped

  /** The calls an action stands for; `None` when its own guard forbids it. */
  function CallsFor(order: Order, s: Settings): Option<seq<Call>> {
    match order
    case Report => Some([])
    case SendEmail(m) => Some([SendReply(m.to, m.subject, m.body, m.thread), MarkHandled(m.emailId, ANSWERED)])
    case DraftEmail(m) => Some([SaveDraft(m.to, m.subject, m.body)])
    case PauseCampaign(c) => Some([Pause(c)])
    case Escalate(email) => Some([MarkHandled(email, ESCALATED)])
    case UpdateBudget(c, target) => if target > s.maxDailyBudget then None else Some([SetBudget(c, target)])
    case CreateCampaign(name, budget) => Some([NewCampaign(name, budget)])
    case Refund(transaction, reason, _) => Some([RequestRefund(transaction, reason)])
  }

  /** The calls really made, `n` having been made before: up to and with the first that is not fine. */
  function Made(calls: seq<Call>, answers: Answers, n: nat): (made: seq<Call>)
    ensures made <= calls && (calls != [] ==> made != [])
  {
    if calls == [] then []
    else if answers(n) != Fine then [calls[0]]
    else [calls[0]] + Made(calls[1..], answers, n + 1)
  }

  /** How the calls end: the last one made decides. */
  function Ending(calls: seq<Call>, answers: Answers, n: nat): Outcome {
    if calls == [] then Performed
    else
      match answers(n)
      case Fine => Ending(calls[1..], answers, n + 1)
      case AgentError => Broken
      case Foreign => Escaped
  }

  function MadeFor(order: Order, s: Settings, answers: Answers, n: nat): seq<Call> {
    var calls := CallsFor(order, s);
    if calls.None? then [] else Made(calls.value, answers, n)
  }

  function OutcomeOf(order: Order, s: Settings, answers: Answers, n: nat): Outcome {
    var calls := CallsFor(order, s);
    if calls.None? then Violation else Ending(calls.value, answers, n)
  }

  function OutcomeFrom(answer: Answer): Outcome {
    match answer case Fine => Performed case AgentError => Broken case Foreign => Escaped
  }

  method Perform(order: Order, s: Settings, clients: Clients) returns (outcome: Outcome)
    modifies clients
    ensures clients.calls == old(clients.calls) + MadeFor(order, s, clients.answers, |old(clients.calls)|)
    ensures outcome == OutcomeOf(order, s, clients.answers, |old(clients.calls)|)
  {
    ghost var n := |clients.calls|;
    var answer := Fine;
    match order {
      case Report =>
      case SendEmail(m) =>
        answer := clients.Do(SendReply(m.to, m.subject, m.body, m.thread));
        if answer == Fine {
          answer := clients.Do(MarkHandled(m.emailId, ANSWERED));
        }
      case DraftEmail(m) => answer := clients.Do(SaveDraft(m.to, m.subject, m.body));
      case PauseCampaign(c) => answer := clients.Do(Pause(c));
      case Escalate(email) => answer := clients.Do(MarkHandled(email, ESCALATED));
      case UpdateBudget(c, target) =>
        if target > s.maxDailyBudget {
          return Violation;
        }
        answer := clients.Do(SetBudget(c, target));
      case CreateCampaign(name, budget) => answer := clients.Do(NewCampaign(name, budget));
      case Refund(transaction, reason, _) => answer := clients.Do(RequestRefund(transaction, reason));
    }
    MadeShort(order, s, clients.answers, n);
    outcome := OutcomeFrom(answer);
  }

  lemma MadeShort(order: Order, s: Settings, answers: Answers, n: nat)
    ensures CallsFor(order, s).Some? ==>
      var calls := CallsFor(order, s).value;
      && |calls| <= 2
      && (|calls| == 1 ==>
            Made(calls, answers, n) == calls && Ending(calls, answers, n) == OutcomeFrom(answers(n)))
      && (|calls| == 2 ==>
            && Made(calls, answers, n) == (if answers(n) == Fine then calls else [calls[0]])
            && Ending(calls, answers, n) == OutcomeFrom(answers(if answers(n) == Fine then n + 1 else n)))
  {
    if CallsFor(order, s).Some? {
      var calls := CallsFor(order, s).value;
      if |calls| == 1 {
        assert calls == [calls[0]];
        assert Ending(calls[1..], answers, n + 1) == Performed;
      } else if |calls| == 2 {
        assert calls[1..] == [calls[1]];
        assert Made(calls[1..], answers, n + 1) == [calls[1]];
        assert Ending(calls[1..][1..], answers, n + 2) == Performed;
        assert Ending(calls[1..], answers, n + 1) == OutcomeFrom(answers(n + 1));
      }
    }
  }

  /** An exception leaves an action exactly when it ends the last of the calls made for it. */
  lemma {:induction false} EscapeIsLast(calls: seq<Call>, answers: Answers, n: nat)
    ensures var made := Made(calls, answers, n);
      && (Ending(calls, answers, n) == Escaped <==> made != [] && answers(n + |made| - 1) == Foreign)
      && forall i :: n <= i < n + |made| - 1 ==> answers(i) == Fine
    decreases |calls|
  {
    if calls != [] && answers(n) == Fine {
      EscapeIsLast(calls[1..], answers, n + 1);
    }
  }

  // ------------------------------------------------------------------ executing

  datatype Status = Done | Skipped | Refused | PendingApproval | Failed
  datatype ActionResult = ActionResult(id: Id, status: Status)

  predicate Cleared(e: Entry, approvals: map<Id, Decision>) {
    e.mode.Auto? || (e.mode.Approval? && e.id in approvals && approvals[e.id] == Approved)
  }

  predicate Authorised(e: Entry, approvals: map<Id, Decision>, s: Settings) { !s.dryRun && Cleared(e, approvals) }

  /** The status an action ends with, `n` calls having been made before its turn; None if an
      exception leaves it. */
  function StatusOf(e: Entry, approvals: map<Id, Decision>, s: Settings, answers: Answers, n: nat): Option<Status> {
    if e.mode.Blocked? || e.mode.Recommended? then Some(Skipped)
    else if !Cleared(e, approvals) then
      Some(if e.id in approvals && approvals[e.id] == Rejected then Refused else PendingApproval)
    else if s.dryRun then Some(Done)
    else
      match OutcomeOf(e.order, s, answers, n)
      case Performed => Some(Done)
      case Violation => Some(Skipped)
      case Broken => Some(Failed)
      case Escaped => None
  }

  function BlockOf(e: Entry, approvals: map<Id, Decision>, s: Settings, answers: Answers, n: nat): seq<Call> {
    if Authorised(e, approvals, s) then MadeFor(e.order, s, answers, n) else []
  }

  /** What one action does when its turn comes. */
  function ActionStep(e: Entry, approvals: map<Id, Decision>, s: Settings, answers: Answers, n: nat)
      : Step<ActionResult, Call>
  {
    var status := StatusOf(e, approvals, s, answers, n);
    Step(if status.None? then None else Some(ActionResult(e.id, status.value)), BlockOf(e, approvals, s, answers, n))
  }

  function ActionSteps(approvals: map<Id, Decision>, s: Settings, answers: Answers): Steps<Entry, ActionResult, Call> {
    (e: Entry, n: nat) => ActionStep(e, approvals, s, answers, n)
  }

  /** The loop body: one action gets one result, unless an exception leaves it. */
  method ExecuteOne(e: Entry, approvals: map<Id, Decision>, s: Settings, clients: Clients)
      returns (result: Option<ActionResult>)
    modifies clients
    ensures var turn := ActionStep(e, approvals, s, clients.answers, |old(clients.calls)|);
      clients.calls == old(clients.calls) + turn.calls && result == turn.result
  {
    if e.mode.Blocked? {
      return Some(ActionResult(e.id, Skipped));
    }
    if e.mode.Recommended? {
      return Some(ActionResult(e.id, Skipped));
    }
    if e.mode.Approval? {
      if e.id !in approvals || approvals[e.id] != Approved {
        return Some(ActionResult(e.id,
          if e.id in approvals && approvals[e.id] == Rejected then Refused else PendingApproval));
      }
    }
    if s.dryRun {
      return Some(ActionResult(e.id, Done));
    }
    var outcome := Perform(e.order, s, clients);
    match outcome
    case Performed => result := Some(ActionResult(e.id, Done));
    case Violation => result := Some(ActionResult(e.id, Skipped));
    case Broken => result := Some(ActionResult(e.id, Failed));
    case Escaped => result := None;
  }

  /** `executar`. None: an exception left the node, and with it all results; the calls stay made. */
  method Execute(entries: seq<Entry>, approvals: map<Id, Decision>, s: Settings, clients: Clients)
      returns (results: Option<seq<ActionResult>>)
    modifies clients
    ensures var c := CourseOf(entries, ActionSteps(approvals, s, clients.answers), |old(clients.calls)|);
      && clients.calls == old(clients.calls) + c.calls
      && results == if c.ended then None else Some(c.results)
  {
    var done: seq<ActionResult> := [];
    ghost var start, steps := clients.calls, ActionSteps(approvals, s, clients.answers);
    assert start + [] == start;
    for i := 0 to |entries|
      invariant Progress(entries, i, steps, start, clients.calls, done)
    {
      ProgressNext(entries, i, steps, start, clients.calls, done);
      var result := ExecuteOne(entries[i], approvals, s, clients);
      if result.None? {
        return None;
      }
      done := done + [result.value];
    }
    assert entries[..|entries|] == entries;
    results := Some(done);
  }

  // ---------------------------------------------------------- what results say

  /** How many calls an action takes, unless it is over the cap. */
  function CallCount(order: Order): nat {
    match order
    case Report => 0
    case SendEmail(_) => 2
    case _ => 1
  }

  predicate OverCap(order: Order, s: Settings) { order.UpdateBudget? && order.target > s.maxDailyBudget }

  /** What a reported status says of the action, `m` calls having been made before its turn. */
  ghost predicate Explained(e: Entry, approvals: map<Id, Decision>, s: Settings, answers: Answers, m: nat,
                            status: Status)
  {
    match status
    case Done =>
      Cleared(e, approvals) &&
      (s.dryRun || (!OverCap(e.order, s) && forall i :: m <= i < m + CallCount(e.order) ==> answers(i) == Fine))
    case Skipped =>
      e.mode.Blocked? || e.mode.Recommended? || (Authorised(e, approvals, s) && OverCap(e.order, s))
    case Refused => e.mode.Approval? && e.id in approvals && approvals[e.id] == Rejected
    case PendingApproval => e.mode.Approval? && e.id !in approvals
    case Failed =>
      Authorised(e, approvals, s) && !OverCap(e.order, s) &&
      exists i :: m <= i < m + CallCount(e.order) && answers(i) == AgentError &&
                  forall j :: m <= j < i ==> answers(j) == Fine
  }

  lemma StatusExplained(e: Entry, approvals: map<Id, Decision>, s: Settings, answers: Answers, m: nat)
    ensures var status := StatusOf(e, approvals, s, answers, m);
      status.Some? ==> Explained(e, approvals, s, answers, m, status.value)
  {
    if Authorised(e, approvals, s) {
      MadeShort(e.order, s, answers, m);
      if StatusOf(e, approvals, s, answers, m) == Some(Failed) {
        var i := if answers(m) == Fine then m + 1 else m;
        assert i < m + CallCount(e.order) && answers(i) == AgentError;
      }
    }
  }

  /** The calls made before the turn of action `i`. */
  function CallsBefore(entries: seq<Entry>, approvals: map<Id, Decision>, s: Settings, answers: Answers, n: nat, i: nat)
      : nat
    requires i <= |entries|
  {
    n + |CourseOf(entries[..i], ActionSteps(approvals, s, answers), n).calls|
  }

  /** Each result says what became of its action: done means that all its calls went well, or that the
      run was dry; failed that one of them ended in an error the agent knows, all before it being well. */
  lemma ResultExplained(entries: seq<Entry>, approvals: map<Id, Decision>, s: Settings, answers: Answers, n: nat,
                        i: nat, result: ActionResult)
    requires i < |CourseOf(entries, ActionSteps(approvals, s, answers), n).results|
    requires result == CourseOf(entries, ActionSteps(approvals, s, answers), n).results[i]
    ensures i < |entries|
    ensures var m := CallsBefore(entries, approvals, s, answers, n, i);
      Explained(entries[i], approvals, s, answers, m, result.status)
  {
    var steps := ActionSteps(approvals, s, answers);
    ResultsInOrder(entries, steps, n);
    var m := ExpectedAt(entries, i, steps, n);
    StepExplained(entries[i], approvals, s, answers, m, result);
  }

  lemma StepExplained(e: Entry, approvals: map<Id, Decision>, s: Settings, answers: Answers, m: nat,
                      result: ActionResult)
    requires ActionSteps(approvals, s, answers)(e, m).result == Some(result)
    ensures Explained(e, approvals, s, answers, m, result.status)
  {
    assert ActionStep(e, approvals, s, answers, m).result == Some(result);
    StatusExplained(e, approvals, s, answers, m);
  }

  // ------------------------------------------------------- results or an exception

  function Foreigns(answers: Answers): nat -> bool { (n: nat) => answers(n) == Foreign }

  lemma StepEnds(e: Entry, approvals: map<Id, Decision>, s: Settings, answers: Answers, n: nat)
    ensures EndsRight(ActionStep(e, approvals, s, answers, n), Foreigns(answers), n)
  {
    if Authorised(e, approvals, s) && CallsFor(e.order, s).Some? {
      EscapeIsLast(CallsFor(e.order, s).value, answers, n);
    }
  }

  lemma StepsEnd(approvals: map<Id, Decision>, s: Settings, answers: Answers)
    ensures forall e, m :: EndsRight(ActionSteps(approvals, s, answers)(e, m), Foreigns(answers), m)
  {
    forall e, m ensures EndsRight(ActionSteps(approvals, s, answers)(e, m), Foreigns(answers), m) {
      StepEnds(e, approvals, s, answers, m);
    }
  }

  lemma ResultIds(entries: seq<Entry>, approvals: map<Id, Decision>, s: Settings, answers: Answers, n: nat)
    ensures var c := CourseOf(entries, ActionSteps(approvals, s, answers), n);
      |c.results| <= |entries| && forall i :: 0 <= i < |c.results| ==> c.results[i].id == entries[i].id
  {
    var steps := ActionSteps(approvals, s, answers);
    ResultsInOrder(entries, steps, n);
    var c := CourseOf(entries, steps, n);
    forall i | 0 <= i < |c.results| ensures c.results[i].id == entries[i].id {
      var m := ExpectedAt(entries, i, steps, n);
      assert ActionStep(entries[i], approvals, s, answers, m).result == Some(c.results[i]);
    }
  }

  /** The loop reports one result for each action, in order, if and only if no call made ended in a
      foreign exception, which is then that of the last call made. */
  lemma ResultsIff(entries: seq<Entry>, approvals: map<Id, Decision>, s: Settings, answers: Answers, n: nat)
    ensures var c := CourseOf(entries, ActionSteps(approvals, s, answers), n);
      && (!c.ended <==> NoneRaises(Foreigns(answers), n, |c.calls|))
      && (c.ended ==> |c.calls| > 0 && answers(n + |c.calls| - 1) == Foreign)
      && (!c.ended <==> |c.results| == |entries|)
      && |c.results| <= |entries| && forall i :: 0 <= i < |c.results| ==> c.results[i].id == entries[i].id
  {
    StepsEnd(approvals, s, answers);
    EndedIff(entries, ActionSteps(approvals, s, answers), Foreigns(answers), n);
    ResultsInOrder(entries, ActionSteps(approvals, s, answers), n);
    ResultIds(entries, approvals, s, answers, n);
  }

  /** Two automatic drafts: the first is saved, the second raises a foreign exception. Both calls are
      made, and no result is reported, not even that of the first. */
  lemma ResultsLost(s: Settings, a: Id, b: Id, mail: Mail)
    requires !s.dryRun
    ensures var answers := (i: nat) => if i == 1 then Foreign else Fine;
      var es := [Entry(a, DraftEmail(mail), 0.0, Auto), Entry(b, DraftEmail(mail), 0.0, Auto)];
      var c := CourseOf(es, ActionSteps(map[], s, answers), 0);
      var call := SaveDraft(mail.to, mail.subject, mail.body);
      c.ended && c.calls == [call, call]
  {
    var answers := (i: nat) => if i == 1 then Foreign else Fine;
    var es := [Entry(a, DraftEmail(mail), 0.0, Auto), Entry(b, DraftEmail(mail), 0.0, Auto)];
    var steps := ActionSteps(map[], s, answers);
    var call := SaveDraft(mail.to, mail.subject, mail.body);
    MadeShort(DraftEmail(mail), s, answers, 0);
    MadeShort(DraftEmail(mail), s, answers, 1);
    assert es[..0] == [] && es[..2] == es;
    assert steps(es[0], 0) == Step(Some(ActionResult(a, Done)), [call]);
    assert steps(es[1], 1) == Step(None, [call]);
    CourseNext(es, 0, steps, 0);
    CourseNext(es, 1, steps, 0);
  }

  // ------------------------------------------------------------ one whole turn

  function PendingIds(entries: seq<Entry>): seq<Id> {
    if entries == [] then []
    else
      var last := entries[|entries| - 1];
      PendingIds(entries[..|entries| - 1]) + if last.mode.Approval? then [last.id] else []
  }

  lemma {:induction false} PendingMeaning(entries: seq<Entry>, e: Entry)
    requires e in entries && e.mode.Approval?
    ensures e.id in PendingIds(entries)
  {
    var n := |entries| - 1;
    if e != entries[n] {
      assert e in entries[..n];
      PendingMeaning(entries[..n], e);
    }
  }

  /** What lets an action through: not dry, and either automatic or asked about and granted. */
  predicate Allowed(e: Entry, reply: Reply, s: Settings) {
    !s.dryRun && (e.mode.Auto? || (e.mode.Approval? && Grants(reply, e.id)))
  }

  method Pending(entries: seq<Entry>) returns (pending: seq<Id>, executable: bool)
    ensures pending == PendingIds(entries)
    ensures executable <==> exists i :: 0 <= i < |entries| && entries[i].mode.Auto?
  {
    pending, executable := [], false;
    for i := 0 to |entries|
      invariant pending == PendingIds(entries[..i])
      invariant executable <==> exists j :: 0 <= j < i && entries[j].mode.Auto?
    {
      assert entries[..i + 1][..i] == entries[..i];
      if entries[i].mode.Approval? {
        pending := pending + [entries[i].id];
      }
      executable := executable || entries[i].mode.Auto?;
    }
    assert entries[..|entries|] == entries;
  }

  /** Every action asked about got its answer from `reply`. */
  ghost predicate Answered(entries: seq<Entry>, approvals: map<Id, Decision>, reply: Reply) {
    forall e :: e in entries && e.mode.Approval? ==>
      e.id in approvals && (approvals[e.id] == Approved <==> Grants(reply, e.id))
  }

  predicate NeedsWork(entries: seq<Entry>) {
    exists i :: 0 <= i < |entries| && (entries[i].mode.Auto? || entries[i].mode.Approval?)
  }

  /** The approval step, taken only when something is pending: older approvals stay underneath. */
  method Approve(entries: seq<Entry>, reply: Reply, prior: map<Id, Decision>)
      returns (approvals: map<Id, Decision>, proceed: bool)
    ensures Answered(entries, approvals, reply) && proceed == NeedsWork(entries)
    ensures forall id :: id in prior && id !in PendingIds(entries) ==> id in approvals && approvals[id] == prior[id]
  {
    var pending, executable := Pending(entries);
    PendingIff(entries);
    ParseMeaning(reply, pending);
    forall e | e in entries && e.mode.Approval?
      ensures e.id in pending && e.id in ParseApproval(reply, pending).Keys
    {
      PendingMeaning(entries, e);
    }
    approvals := if pending != [] then prior + ParseApproval(reply, pending) else prior;
    proceed := pending != [] || executable;
  }

  /** One result for each action, in order; refused are exactly those asked about and not granted. */
  ghost predicate Reported(entries: seq<Entry>, results: seq<ActionResult>, reply: Reply) {
    && |results| == |entries|
    && forall i :: 0 <= i < |entries| ==>
         && results[i].id == entries[i].id && results[i].status != PendingApproval
         && (results[i].status == Refused <==> entries[i].mode.Approval? && !Grants(reply, entries[i].id))
  }

  lemma StatusReported(e: Entry, approvals: map<Id, Decision>, reply: Reply, s: Settings, answers: Answers, n: nat)
    requires e.mode.Approval? ==> e.id in approvals && (approvals[e.id] == Approved <==> Grants(reply, e.id))
    ensures var result := ActionStep(e, approvals, s, answers, n).result;
      result.Some? ==>
        && result.value.id == e.id && result.value.status != PendingApproval
        && (result.value.status == Refused <==> e.mode.Approval? && !Grants(reply, e.id))
  {}

  lemma CourseReported(entries: seq<Entry>, approvals: map<Id, Decision>, reply: Reply, s: Settings,
                       answers: Answers, n: nat)
    requires Answered(entries, approvals, reply)
    requires !CourseOf(entries, ActionSteps(approvals, s, answers), n).ended
    ensures Reported(entries, CourseOf(entries, ActionSteps(approvals, s, answers), n).results, reply)
  {
    var steps := ActionSteps(approvals, s, answers);
    var results := CourseOf(entries, steps, n).results;
    ResultsInOrder(entries, steps, n);
    forall i | 0 <= i < |entries|
      ensures results[i].id == entries[i].id && results[i].status != PendingApproval
      ensures results[i].status == Refused <==> entries[i].mode.Approval? && !Grants(reply, entries[i].id)
    {
      assert entries[i] in entries;
      var m := ExpectedAt(entries, i, steps, n);
      StatusReported(entries[i], approvals, reply, s, answers, m);
      assert steps(entries[i], m).result == Some(results[i]);
    }
  }

  /** From the decision to the end: ask if anything is pending, then execute, or only report. What is
      let through depends on this reply alone, not on approvals left from before. Results are lost
      exactly when one of the calls made raised a foreign exception. */
  method Conclude(entries: seq<Entry>, reply: Reply, prior: map<Id, Decision>, s: Settings, clients: Clients)
      returns (results: Option<seq<ActionResult>>, approvals: map<Id, Decision>)
    modifies clients
    ensures clients.calls == old(clients.calls)
      + CourseOf(entries, ActionSteps(approvals, s, clients.answers), |old(clients.calls)|).calls
    ensures Answered(entries, approvals, reply)
    ensures results.Some? <==>
      NoneRaises(Foreigns(clients.answers), |old(clients.calls)|, |clients.calls| - |old(clients.calls)|)
    ensures results.Some? ==>
      if NeedsWork(entries) then Reported(entries, results.value, reply) else results.value == []
  {
    ghost var n := |clients.calls|;
    var proceed;
    approvals, proceed := Approve(entries, reply, prior);
    ResultsIff(entries, approvals, s, clients.answers, n);
    if proceed {
      results := Execute(entries, approvals, s, clients);
      if results.Some? {
        CourseReported(entries, approvals, reply, s, clients.answers, n);
      }
    } else {
      results := Some([]);
      NothingToDo(entries, approvals, s, clients.answers, n);
    }
  }

  /** What goes ahead depends on this reply alone, whatever was approved before. */
  lemma AnsweredAllows(entries: seq<Entry>, approvals: map<Id, Decision>, reply: Reply, s: Settings, e: Entry)
    requires Answered(entries, approvals, reply) && e in entries
    ensures Authorised(e, approvals, s) <==> Allowed(e, reply, s)
  {}

  lemma {:induction false} PendingIff(entries: seq<Entry>)
    ensures PendingIds(entries) != [] <==> exists i :: 0 <= i < |entries| && entries[i].mode.Approval?
  {
    if entries != [] {
      var n := |entries| - 1;
      PendingIff(entries[..n]);
      assert forall i :: 0 <= i < n ==> entries[..n][i] == entries[i];
    }
  }

  lemma NothingToDo(entries: seq<Entry>, approvals: map<Id, Decision>, s: Settings, answers: Answers, n: nat)
    requires forall e :: e in entries ==> !Authorised(e, approvals, s) || CallsFor(e.order, s) == Some([])
    ensures CourseOf(entries, ActionSteps(approvals, s, answers), n).calls == []
    ensures !CourseOf(entries, ActionSteps(approvals, s, answers), n).ended
  {
    var steps := ActionSteps(approvals, s, answers);
    forall e, m | e in entries ensures steps(e, m).calls == [] && steps(e, m).result.Some? {
      assert steps(e, m) == ActionStep(e, approvals, s, answers, m);
    }
    Silent(entries, steps, n);
  }
}
