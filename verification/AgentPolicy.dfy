/** What the agent may do on its own (apps/hotmart-ebook-agent/hotmart_agent/policy.py, config.py).
    Money is a real number; titles, reasons and priorities are not part of this model. */
module AgentPolicy {
  import opened Prelude
  import opened Ranking

  datatype Autonomy = Observe | Recommend | Approve | Autonomous
  datatype Risk = NoRisk | Low | Medium | High
  datatype Mode = Auto | Approval | Recommended | Blocked

  /** An answer to a mail: the mail it answers, and what it says. */
  datatype Mail = Mail(emailId: string, to: string, subject: string, body: string, thread: string)

  /** The type of an action together with the payload that type uses. */
  datatype Order =
    | Report
    | SendEmail(mail: Mail)
    | DraftEmail(mail: Mail)
    | PauseCampaign(campaign: string)
    | Escalate(emailId: string)
    | UpdateBudget(campaign: string, target: real)
    | CreateCampaign(name: string, budget: real)
    | Refund(transaction: string, reason: string, value: real)

  datatype Settings = Settings(autonomy: Autonomy, dryRun: bool, maxDailyBudget: real, maxNewCampaigns: int,
                               maxIncrease: real, refundAutoMax: real, maxAutoEmails: int)

  datatype Id = Id(text: string)

  class Action {
    const id: Id
    const order: Order
    const cost: real
    var mode: Mode

    constructor (id: Id, order: Order, cost: real)
      ensures this.id == id && this.order == order && this.cost == cost && mode == Recommended
    {
      this.id, this.order, this.cost := id, order, cost;
      mode := Recommended;
    }
  }

  /** An action as it is stored in the state. */
  datatype Entry = Entry(id: Id, order: Order, cost: real, mode: Mode)

  // ---------------------------------------------- the documented decision table

  /** The table of README.md section 6.2: what each level does with each kind of action. */
  function Table(order: Order, autonomy: Autonomy): Mode {
    match order
    case Report => Auto
    case DraftEmail(_) | PauseCampaign(_) | Escalate(_) =>
      if autonomy.Approve? || autonomy.Autonomous? then Auto else Recommended
    case SendEmail(_) | UpdateBudget(_, _) | CreateCampaign(_, _) | Refund(_, _, _) =>
      if autonomy.Autonomous? then Auto else if autonomy.Approve? then Approval else Recommended
  }

  predicate OverRefundLimit(order: Order, s: Settings) { order.Refund? && order.value > s.refundAutoMax }

  /** The decision: observation first, then the two money limits, then the table. */
  function ModeFor(order: Order, cost: real, s: Settings): Mode {
    if s.autonomy.Observe? && !order.Report? then Recommended
    else if cost > s.maxDailyBudget then Blocked
    else if OverRefundLimit(order, s) then Approval
    else Table(order, s.autonomy)
  }

  function RiskOf(order: Order): Risk {
    match order
    case Report => NoRisk
    case DraftEmail(_) => Low
    case PauseCampaign(_) => Low
    case Escalate(_) => Low
    case SendEmail(_) => Medium
    case UpdateBudget(_, _) => High
    case CreateCampaign(_, _) => High
    case Refund(_, _, _) => High
  }

  function MaxRisk(autonomy: Autonomy): Risk {
    match autonomy
    case Observe => NoRisk
    case Recommend => NoRisk
    case Approve => Low
    case Autonomous => High
  }

  function RiskRank(r: Risk): nat { match r case NoRisk => 0 case Low => 1 case Medium => 2 case High => 3 }
  function AutonomyRank(a: Autonomy): nat {
    match a case Observe => 0 case Recommend => 1 case Approve => 2 case Autonomous => 3
  }

  function RightMode(a: Action, s: Settings): Mode { ModeFor(a.order, a.cost, s) }

  /** `resolve_mode`, by comparing ranks; its outcome is the documented decision. */
  method ResolveMode(action: Action, s: Settings)
    modifies action`mode
    ensures action.mode == RightMode(action, s)
  {
    var risk, allowed := RiskOf(action.order), MaxRisk(s.autonomy);
    if s.autonomy == Observe && !action.order.Report? {
      action.mode := Recommended;
      return;
    }
    if action.cost > s.maxDailyBudget {
      action.mode := Blocked;
      return;
    }
    if action.order.Refund? {
      if action.order.value > s.refundAutoMax {
        action.mode := Approval;
        return;
      }
    }
    if RiskRank(risk) <= RiskRank(allowed) {
      action.mode := Auto;
    } else if AutonomyRank(s.autonomy) >= AutonomyRank(Approve) {
      action.mode := Approval;
    } else {
      action.mode := Recommended;
    }
  }

  /** For a cost within the limit the decision is the documented one, except for a refund above the
      refund limit at a level that does not ask anyway: there approval is asked, also at level L1. */
  lemma FollowsTableIff(order: Order, cost: real, s: Settings)
    requires cost <= s.maxDailyBudget
    ensures ModeFor(order, cost, s) == Table(order, s.autonomy) <==>
            !(OverRefundLimit(order, s) && (s.autonomy.Recommend? || s.autonomy.Autonomous?))
  {
    match order
    case Refund(_, _, _) =>
    case _ =>
  }

  // ----------------------------------------------------------------- proposals

  datatype Proposal = Proposal(id: Id, order: Order, cost: real)

  datatype Plan = Plan(name: string, score: real, budget: real)

  /** The triage of one mail, with the answer that was written to it. */
  datatype EmailReply = EmailReply(
    emailId: string, to: string, subject: string, body: string, flagged: bool, hostile: bool, autoSendable: bool)

  /** How many of the answers are sent: those that may be, unless escalated, while the limit lasts. */
  function Sent(replies: seq<EmailReply>, limit: int): nat {
    if replies == [] then 0
    else
      var sent := Sent(replies[..|replies| - 1], limit);
      sent + if Sends(replies[|replies| - 1], sent, limit) then 1 else 0
  }

  predicate Escalates(r: EmailReply) { r.flagged || r.hostile }

  /** An answer is sent by itself when `sent` were sent before it. */
  predicate Sends(r: EmailReply, sent: nat, limit: int) { !Escalates(r) && r.autoSendable && sent < limit }

  function MailAction(r: EmailReply, id: Id, sent: nat, limit: int): Proposal {
    var mail := Mail(r.emailId, r.to, r.subject, r.body, "");
    Proposal(id,
             if Escalates(r) then Escalate(r.emailId) else if Sends(r, sent, limit) then SendEmail(mail)
             else DraftEmail(mail),
             0.0)
  }

  /** Each mail has its one action, in order. */
  function MailActions(replies: seq<EmailReply>, ids: seq<Id>, limit: int): (ps: seq<Proposal>)
    requires |ids| == |replies|
    ensures |ps| == |replies|
    ensures forall i :: 0 <= i < |ps| ==> ps[i] == MailAction(replies[i], ids[i], Sent(replies[..i], limit), limit)
  {
    seq(|replies|, i requires 0 <= i < |replies| => MailAction(replies[i], ids[i], Sent(replies[..i], limit), limit))
  }

  /** `actions_from_emails`: a mail is escalated when it has to be; else its answer is sent when it may be
      and the limit is not used up; else it is left as a draft. */
  method ActionsFromEmails(replies: seq<EmailReply>, ids: seq<Id>, s: Settings) returns (actions: seq<Proposal>)
    requires |ids| == |replies|
    ensures actions == MailActions(replies, ids, s.maxAutoEmails)
  {
    actions := [];
    ghost var all := MailActions(replies, ids, s.maxAutoEmails);
    var budget := s.maxAutoEmails;
    for i := 0 to |replies|
      invariant budget == s.maxAutoEmails - Sent(replies[..i], s.maxAutoEmails)
      invariant actions == all[..i]
    {
      SentNext(replies, i, s.maxAutoEmails);
      var action, sends := ActionFor(replies[i], ids[i], budget);
      budget := if sends then budget - 1 else budget;
      actions := actions + [action];
    }
  }

  lemma SentNext(replies: seq<EmailReply>, i: nat, limit: int)
    requires i < |replies|
    ensures var sent := Sent(replies[..i], limit);
      Sent(replies[..i + 1], limit) == sent + if Sends(replies[i], sent, limit) then 1 else 0
  {
    assert replies[..i + 1][..i] == replies[..i];
  }

  /** The body of that loop, with `budget` answers still to be sent. */
  method ActionFor(r: EmailReply, id: Id, budget: int) returns (action: Proposal, sends: bool)
    ensures forall sent: nat, limit: int :: limit - sent == budget ==>
      action == MailAction(r, id, sent, limit) && (sends <==> Sends(r, sent, limit))
  {
    if r.flagged || r.hostile {
      return Proposal(id, Escalate(r.emailId), 0.0), false;
    }
    var mail := Mail(r.emailId, r.to, r.subject, r.body, "");
    if r.autoSendable && budget > 0 {
      return Proposal(id, SendEmail(mail), 0.0), true;
    }
    return Proposal(id, DraftEmail(mail), 0.0), false;
  }

  /** What a mail's action is: flagged or hostile ones are escalated; others answered with the text that
      was written, sent only when it may be and fewer than the limit were; else kept as a draft. */
  lemma MailActionIs(r: EmailReply, id: Id, sent: nat, limit: int)
    ensures var p, mail := MailAction(r, id, sent, limit), Mail(r.emailId, r.to, r.subject, r.body, "");
      && p.id == id && p.cost == 0.0
      && (p.order == Escalate(r.emailId) <==> r.flagged || r.hostile)
      && (p.order == SendEmail(mail) <==> !r.flagged && !r.hostile && r.autoSendable && sent < limit)
      && (p.order == DraftEmail(mail) <==> !r.flagged && !r.hostile && !(r.autoSendable && sent < limit))
  {}

  /** Of the answers that may be sent, the first ones are, up to the limit. */
  lemma {:induction false} SentIsLeast(replies: seq<EmailReply>, limit: int)
    ensures var may := |Sendable(replies)|;
      Sent(replies, limit) == if limit <= 0 then 0 else if may <= limit then may else limit
  {
    if replies != [] {
      SentIsLeast(replies[..|replies| - 1], limit);
    }
  }

  /** The answers that may be sent, by position. */
  function Sendable(replies: seq<EmailReply>): seq<nat> {
    if replies == [] then []
    else
      var n := |replies| - 1;
      Sendable(replies[..n]) + if !Escalates(replies[n]) && replies[n].autoSendable then [n] else []
  }

  function ActionsFromCampaigns(plans: seq<Plan>, ids: seq<Id>): (r: seq<Proposal>)
    requires |ids| == |plans|
    ensures |r| == |plans|
    ensures forall i :: 0 <= i < |r| ==>
      r[i] == Proposal(ids[i], CreateCampaign(plans[i].name, plans[i].budget), plans[i].budget)
  {
    if plans == [] then []
    else
      [Proposal(ids[0], CreateCampaign(plans[0].name, plans[0].budget), plans[0].budget)]
      + ActionsFromCampaigns(plans[1..], ids[1..])
  }

  /** A signal: whether it suggests pausing or scaling, and the campaign and budget in evidence. */
  datatype Finding = Finding(pause: bool, scale: bool, campaign: Option<string>, budget: real)

  function FindingActions(findings: seq<Finding>, ids: seq<Id>, s: Settings): seq<Proposal>
    requires |ids| == |findings|
  {
    if findings == [] then []
    else
      var n := |findings| - 1;
      FindingActions(findings[..n], ids[..n], s) + FindingAction(findings[n], ids[n], s)
  }

  function Raised(budget: real, s: Settings): real { budget * (1.0 + s.maxIncrease) }

  function FindingAction(f: Finding, id: Id, s: Settings): seq<Proposal> {
    if f.campaign.None? then []
    else if f.pause then [Proposal(id, PauseCampaign(f.campaign.value), 0.0)]
    else if f.scale then
      var target := Raised(f.budget, s);
      [Proposal(id, UpdateBudget(f.campaign.value, target), if target > f.budget then target - f.budget else 0.0)]
    else []
  }

  method ActionsFromFindings(findings: seq<Finding>, ids: seq<Id>, s: Settings) returns (actions: seq<Proposal>)
    requires |ids| == |findings|
    ensures actions == FindingActions(findings, ids, s)
  {
    actions := [];
    for i := 0 to |findings|
      invariant actions == FindingActions(findings[..i], ids[..i], s)
    {
      assert findings[..i + 1][..i] == findings[..i] && ids[..i + 1][..i] == ids[..i];
      var f := findings[i];
      if f.pause && f.campaign.Some? {
        actions := actions + [Proposal(ids[i], PauseCampaign(f.campaign.value), 0.0)];
      } else if f.scale && f.campaign.Some? {
        var target := Raised(f.budget, s);
        var cost := if target > f.budget then target - f.budget else 0.0;
        actions := actions + [Proposal(ids[i], UpdateBudget(f.campaign.value, target), cost)];
      }
    }
    assert findings[..|findings|] == findings && ids[..|findings|] == ids;
  }

  /** Signals never propose a new campaign. */
  lemma {:induction false} FindingsCreateNothing(findings: seq<Finding>, ids: seq<Id>, s: Settings)
    requires |ids| == |findings|
    ensures forall p :: p in FindingActions(findings, ids, s) ==> p.order.PauseCampaign? || p.order.UpdateBudget?
  {
    if findings != [] {
      FindingsCreateNothing(findings[..|findings| - 1], ids[..|findings| - 1], s);
    }
  }

  /** The action that a signal asks for: to pause the campaign that its evidence names, or else to raise
      that campaign's budget by the settings' share, which costs the difference. */
  ghost predicate AsksFor(f: Finding, id: Id, s: Settings, p: Proposal) {
    && f.campaign.Some? && p.id == id
    && ((f.pause && p.order == PauseCampaign(f.campaign.value) && p.cost == 0.0) ||
        (!f.pause && f.scale && p.order.UpdateBudget? && p.order.campaign == f.campaign.value
         && p.order.target - f.budget == f.budget * s.maxIncrease
         && (p.order.target >= f.budget ==> p.cost == p.order.target - f.budget)
         && (p.order.target < f.budget ==> p.cost == 0.0)))
  }

  predicate Asks(f: Finding) { f.campaign.Some? && (f.pause || f.scale) }

  /** The signals that ask for something, by position. */
  function Asking(findings: seq<Finding>): (at: seq<nat>)
    ensures forall k :: 0 <= k < |at| ==> at[k] < |findings| && Asks(findings[at[k]])
    ensures forall i :: 0 <= i < |findings| && Asks(findings[i]) ==> i in at
    ensures forall j, k :: 0 <= j < k < |at| ==> at[j] < at[k]
  {
    if findings == [] then []
    else
      var n := |findings| - 1;
      Asking(findings[..n]) + if Asks(findings[n]) then [n] else []
  }

  lemma SignalGetsAction(f: Finding, id: Id, s: Settings)
    ensures |FindingAction(f, id, s)| == if Asks(f) then 1 else 0
    ensures Asks(f) ==> AsksFor(f, id, s, FindingAction(f, id, s)[0])
  {
    assert Raised(f.budget, s) - f.budget == f.budget * s.maxIncrease;
  }

  /** Each signal that asks for something gets one action, that one, in order; the others get none. */
  lemma {:induction false} FindingsGetActions(findings: seq<Finding>, ids: seq<Id>, s: Settings)
    requires |ids| == |findings|
    ensures var at, actions := Asking(findings), FindingActions(findings, ids, s);
      && |actions| == |at|
      && forall k :: 0 <= k < |at| ==> AsksFor(findings[at[k]], ids[at[k]], s, actions[k])
  {
    if findings != [] {
      var n := |findings| - 1;
      var front, last := FindingActions(findings[..n], ids[..n], s), FindingAction(findings[n], ids[n], s);
      FindingsGetActions(findings[..n], ids[..n], s);
      var at := Asking(findings[..n]);
      SignalGetsAction(findings[n], ids[n], s);
      assert FindingActions(findings, ids, s) == front + last;
      assert Asking(findings) == at + if Asks(findings[n]) then [n] else [];
      forall k | 0 <= k < |at|
        ensures AsksFor(findings[at[k]], ids[at[k]], s, (front + last)[k])
      {
        assert AsksFor(findings[..n][at[k]], ids[..n][at[k]], s, front[k]);
      }
    }
  }

  // ------------------------------------------------------------------- ranking

  /** The priority of an action; how it is computed is not part of this model. */
  type Priority = Entry -> real

  function Decided(p: Proposal, s: Settings): Entry { Entry(p.id, p.order, p.cost, ModeFor(p.order, p.cost, s)) }

  function AllDecided(ps: seq<Proposal>, s: Settings): (es: seq<Entry>)
    ensures |es| == |ps| && forall i :: 0 <= i < |ps| ==> es[i] == Decided(ps[i], s)
  {
    seq(|ps|, i requires 0 <= i < |ps| => Decided(ps[i], s))
  }

  function ProposalOf(a: Action): Proposal { Proposal(a.id, a.order, a.cost) }

  function ProposalsOf(actions: seq<Action>): (ps: seq<Proposal>)
    ensures |ps| == |actions| && forall i :: 0 <= i < |ps| ==> ps[i] == ProposalOf(actions[i])
  {
    seq(|actions|, i requires 0 <= i < |actions| => ProposalOf(actions[i]))
  }

  /** The loop of `rank_actions`; `right` names the wanted modes. */
  method ResolveAll(actions: seq<Action>, s: Settings, ghost right: Action -> Mode) returns (entries: seq<Entry>)
    requires forall a :: a in actions ==> right(a) == RightMode(a, s)
    modifies set a | a in actions
    ensures |entries| == |actions|
    ensures forall i :: 0 <= i < |actions| ==> actions[i].mode == entries[i].mode == right(actions[i])
    ensures forall i :: 0 <= i < |actions| ==>
      entries[i].id == actions[i].id && entries[i].order == actions[i].order && entries[i].cost == actions[i].cost
  {
    entries := [];
    for i := 0 to |actions|
      invariant |entries| == i
      invariant forall j :: 0 <= j < i ==> actions[j].mode == entries[j].mode == right(actions[j])
      invariant forall j :: 0 <= j < i ==>
        entries[j].id == actions[j].id && entries[j].order == actions[j].order && entries[j].cost == actions[j].cost
    {
      var a := actions[i];
      assert a in actions;
      ResolveMode(a, s);
      entries := entries + [Entry(a.id, a.order, a.cost, a.mode)];
    }
  }

  /** Gives every action its mode and then sorts; the state keeps the result as entries. */
  method RankActions(actions: seq<Action>, s: Settings, priority: Priority) returns (ordered: seq<Entry>)
    modifies set a | a in actions
    ensures forall i :: 0 <= i < |actions| ==> actions[i].mode == RightMode(actions[i], s)
    ensures ordered == Sorted(AllDecided(ProposalsOf(actions), s), priority)
  {
    var entries := ResolveAll(actions, s, (a: Action) => RightMode(a, s));
    assert entries == AllDecided(ProposalsOf(actions), s);
    ordered := Sorted(entries, priority);
  }

  /** `decidir`: all proposals become actions, are given modes and sorted. */
  method Decide(proposals: seq<Proposal>, s: Settings, priority: Priority) returns (ordered: seq<Entry>)
    ensures ordered == Sorted(AllDecided(proposals, s), priority)
  {
    var actions: seq<Action> := [];
    for i := 0 to |proposals|
      invariant |actions| == i && fresh(set a | a in actions)
      invariant forall j :: 0 <= j < i ==> ProposalOf(actions[j]) == proposals[j]
    {
      var a := new Action(proposals[i].id, proposals[i].order, proposals[i].cost);
      actions := actions + [a];
    }
    assert ProposalsOf(actions) == proposals;
    ordered := RankActions(actions, s, priority);
  }

  lemma RankedEntries(proposals: seq<Proposal>, s: Settings, priority: Priority)
    ensures multiset(Sorted(AllDecided(proposals, s), priority)) == multiset(AllDecided(proposals, s))
    ensures Descending(Sorted(AllDecided(proposals, s), priority), priority)
    ensures forall e :: e in Sorted(AllDecided(proposals, s), priority) ==>
      e.mode == ModeFor(e.order, e.cost, s) && Proposal(e.id, e.order, e.cost) in proposals
  {
    var sorted := Sorted(AllDecided(proposals, s), priority);
    SortedRight(AllDecided(proposals, s), priority, 0.0);
    forall e | e in sorted
      ensures e.mode == ModeFor(e.order, e.cost, s) && Proposal(e.id, e.order, e.cost) in proposals
    {
      assert e in multiset(sorted);
      assert e in AllDecided(proposals, s);
      var i :| 0 <= i < |proposals| && AllDecided(proposals, s)[i] == e;
      assert proposals[i] == Proposal(e.id, e.order, e.cost);
    }
  }
}
