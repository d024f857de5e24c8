/** What holds of every turn of the agent, whatever the signals, the order of the actions, the
    human's reply and the answers of the outside world (apps/hotmart-ebook-agent/hotmart_agent/graph.py). */
module AgentTurn {
  import opened Prelude
  import opened Ranking
  import opened AgentAds
  import opened AgentCourse
  import opened AgentPolicy
  import opened AgentRun

  /** The modes are those `decidir` gave. */
  ghost predicate WellDecided(entries: seq<Entry>, s: Settings) {
    forall e :: e in entries ==> e.mode == ModeFor(e.order, e.cost, s)
  }

  // -------------------------------------------------------------- authorisation

  /** The calls of the execution, `n` having been made before. */
  function CallsOf(entries: seq<Entry>, approvals: map<Id, Decision>, s: Settings, answers: Answers, n: nat)
      : seq<Call>
  {
    CourseOf(entries, ActionSteps(approvals, s, answers), n).calls
  }

  /** Every call belongs to an action that was let through, also where an exception ends the execution. */
  lemma CallsAuthorised(entries: seq<Entry>, approvals: map<Id, Decision>, s: Settings, answers: Answers, n: nat,
                        call: Call)
    requires call in CallsOf(entries, approvals, s, answers, n)
    ensures exists e :: e in entries && Authorised(e, approvals, s)
                        && CallsFor(e.order, s).Some? && call in CallsFor(e.order, s).value
  {
    var i, m := CallOrigin(entries, ActionSteps(approvals, s, answers), n, call);
    assert call in ActionStep(entries[i], approvals, s, answers, m).calls;
    assert entries[i] in entries;
  }

  function ReplyTo(mail: Mail): Call { SendReply(mail.to, mail.subject, mail.body, mail.thread) }

  /** What the order behind call `k` is, and that a mail is marked as answered right behind its answer,
      which was sent without an error. */
  ghost predicate Ordered(calls: seq<Call>, k: nat, order: Order, s: Settings, answers: Answers, n: nat)
    requires k < |calls|
  {
    match calls[k]
    case NewCampaign(name, budget) => order == CreateCampaign(name, budget)
    case SetBudget(campaign, target) => order == UpdateBudget(campaign, target) && target <= s.maxDailyBudget
    case Pause(campaign) => order == PauseCampaign(campaign)
    case SendReply(_, _, _, _) => order.SendEmail? && calls[k] == ReplyTo(order.mail)
    case SaveDraft(to, subject, body) =>
      order.DraftEmail? && order.mail.to == to && order.mail.subject == subject && order.mail.body == body
    case RequestRefund(transaction, reason) =>
      order.Refund? && order.transaction == transaction && order.reason == reason
    case MarkHandled(id, mark) =>
      || (order == Escalate(id) && mark == "agente/escalado")
      || (order.SendEmail? && order.mail.emailId == id && mark == "agente/respondido"
          && k > 0 && calls[k - 1] == ReplyTo(order.mail) && answers(n + k - 1) == Fine)
  }

  lemma MadeIsOrdered(calls: seq<Call>, k: nat, e: Entry, approvals: map<Id, Decision>, s: Settings, answers: Answers,
                      n: nat, m: nat)
    requires InBlock(calls, n, k, ActionStep(e, approvals, s, answers, m), m)
    ensures Authorised(e, approvals, s) && Ordered(calls, k, e.order, s, answers, n)
  {
    var made := ActionStep(e, approvals, s, answers, m).calls;
    MadeShort(e.order, s, answers, m);
    assert calls[k] == made[n + k - m];
    if n + k > m {
      assert calls[k - 1] == made[n + k - m - 1];
    }
  }

  /** Every call carries the payload of an order that was let through, and stands for it. */
  lemma CallsAreOrdered(entries: seq<Entry>, approvals: map<Id, Decision>, s: Settings, answers: Answers, n: nat,
                        k: nat)
    requires k < |CallsOf(entries, approvals, s, answers, n)|
    ensures exists e :: e in entries && Authorised(e, approvals, s) &&
                        Ordered(CallsOf(entries, approvals, s, answers, n), k, e.order, s, answers, n)
  {
    var i, m := CallAt(entries, ActionSteps(approvals, s, answers), n, k);
    assert entries[i] in entries;
    MadeIsOrdered(CallsOf(entries, approvals, s, answers, n), k, entries[i], approvals, s, answers, n, m);
  }

  /** Where every call goes well, every order that was let through is carried out. */
  lemma OrdersAreCarriedOut(entries: seq<Entry>, approvals: map<Id, Decision>, s: Settings, answers: Answers, n: nat,
                            e: Entry)
    requires e in entries && Authorised(e, approvals, s) && forall i :: answers(i) == Fine
    ensures var calls := CallsOf(entries, approvals, s, answers, n);
      match e.order
      case Report => true
      case SendEmail(mail) => ReplyTo(mail) in calls && MarkHandled(mail.emailId, "agente/respondido") in calls
      case DraftEmail(mail) => SaveDraft(mail.to, mail.subject, mail.body) in calls
      case PauseCampaign(campaign) => Pause(campaign) in calls
      case Escalate(id) => MarkHandled(id, "agente/escalado") in calls
      case UpdateBudget(campaign, target) => target <= s.maxDailyBudget ==> SetBudget(campaign, target) in calls
      case CreateCampaign(name, budget) => NewCampaign(name, budget) in calls
      case Refund(transaction, reason, _) => RequestRefund(transaction, reason) in calls
  {
    var i :| 0 <= i < |entries| && entries[i] == e;
    var steps := ActionSteps(approvals, s, answers);
    ResultsIff(entries[..i], approvals, s, answers, n);
    var m := TurnCalls(entries, i, steps, n);
    MadeShort(e.order, s, answers, m);
    assert steps(e, m).calls == MadeFor(e.order, s, answers, m);
  }

  predicate HasCalls(e: Entry, s: Settings) { CallsFor(e.order, s).Some? && CallsFor(e.order, s).value != [] }

  lemma StepBegins(e: Entry, approvals: map<Id, Decision>, s: Settings, answers: Answers, m: nat)
    requires Authorised(e, approvals, s) && HasCalls(e, s)
    ensures CallsFor(e.order, s).value[0] in ActionStep(e, approvals, s, answers, m).calls
  {
    var made := ActionStep(e, approvals, s, answers, m).calls;
    assert made[0] == CallsFor(e.order, s).value[0];
  }

  /** An action let through whose turn comes is begun: the first of its calls is made. */
  lemma AuthorisedBegins(entries: seq<Entry>, approvals: map<Id, Decision>, s: Settings, answers: Answers, n: nat,
                         i: nat)
    requires i < |entries| && Authorised(entries[i], approvals, s) && HasCalls(entries[i], s)
    requires !CourseOf(entries[..i], ActionSteps(approvals, s, answers), n).ended
    ensures CallsFor(entries[i].order, s).value[0] in CallsOf(entries, approvals, s, answers, n)
  {
    var m := TurnCalls(entries, i, ActionSteps(approvals, s, answers), n);
    StepBegins(entries[i], approvals, s, answers, m);
  }

  /** If anything is let through that stands for calls, then some call is made. */
  lemma SomethingHappens(entries: seq<Entry>, approvals: map<Id, Decision>, s: Settings, answers: Answers, n: nat,
                         e: Entry)
    requires e in entries && Authorised(e, approvals, s) && HasCalls(e, s)
    ensures CallsOf(entries, approvals, s, answers, n) != []
  {
    var i :| 0 <= i < |entries| && entries[i] == e;
    var steps := ActionSteps(approvals, s, answers);
    StepBegins(e, approvals, s, answers, n);
    StepsEnd(approvals, s, answers);
    if CallsOf(entries, approvals, s, answers, n) == [] {
      forall f, m | steps(f, m).result.None? ensures steps(f, m).calls != [] {
        assert EndsRight(steps(f, m), Foreigns(answers), m);
      }
      NoneCalls(entries, steps, n, i);
      assert false;
    }
  }

  /** What each level of autonomy lets through, in full. */
  lemma AllowedIff(e: Entry, reply: Reply, s: Settings)
    requires e.mode == ModeFor(e.order, e.cost, s)
    ensures Allowed(e, reply, s) <==>
      && !s.dryRun && e.cost <= s.maxDailyBudget
      && match s.autonomy
         case Observe => e.order.Report?
         case Recommend => e.order.Report? || (OverRefundLimit(e.order, s) && Grants(reply, e.id))
         case Approve => RiskRank(RiskOf(e.order)) <= RiskRank(Low) || Grants(reply, e.id)
         case Autonomous => !OverRefundLimit(e.order, s) || Grants(reply, e.id)
  {
    match e.order
    case Refund(_, _, _) =>
    case _ =>
  }

  /** A dry run calls nothing, and neither does observation (L0). */
  lemma SilentRuns(entries: seq<Entry>, approvals: map<Id, Decision>, reply: Reply, s: Settings, answers: Answers,
                   n: nat)
    requires WellDecided(entries, s) && Answered(entries, approvals, reply)
    requires s.dryRun || s.autonomy.Observe?
    ensures CallsOf(entries, approvals, s, answers, n) == []
  {
    forall e | e in entries ensures !Authorised(e, approvals, s) || CallsFor(e.order, s) == Some([]) {
      AllowedIff(e, reply, s);
      AnsweredAllows(entries, approvals, reply, s, e);
    }
    NothingToDo(entries, approvals, s, answers, n);
  }

  /** A refund above the refund limit, its cost within the daily limit, that the reply grants. */
  predicate GrantedRefund(e: Entry, reply: Reply, s: Settings) {
    OverRefundLimit(e.order, s) && e.cost <= s.maxDailyBudget && Grants(reply, e.id)
  }

  /** Recommendation (L1) is documented as never executing. It executes exactly when some refund above
      the refund limit is granted by the reply. */
  lemma RecommendExecutesIff(entries: seq<Entry>, approvals: map<Id, Decision>, reply: Reply, s: Settings,
                             answers: Answers, n: nat)
    requires WellDecided(entries, s) && Answered(entries, approvals, reply)
    requires s.autonomy.Recommend?
    ensures CallsOf(entries, approvals, s, answers, n) != [] <==>
            !s.dryRun && exists e :: e in entries && GrantedRefund(e, reply, s)
  {
    var made := CallsOf(entries, approvals, s, answers, n);
    if made != [] {
      CallsAuthorised(entries, approvals, s, answers, n, made[0]);
      var e :| e in entries && Authorised(e, approvals, s)
               && CallsFor(e.order, s).Some? && made[0] in CallsFor(e.order, s).value;
      AnsweredAllows(entries, approvals, reply, s, e);
      AllowedIff(e, reply, s);
      assert GrantedRefund(e, reply, s);
    }
    if e :| e in entries && !s.dryRun && GrantedRefund(e, reply, s) {
      AnsweredAllows(entries, approvals, reply, s, e);
      AllowedIff(e, reply, s);
      SomethingHappens(entries, approvals, s, answers, n, e);
    }
  }

  /** A run at level L1 that asks for a refund and, being answered "sim", requests it. */
  lemma RecommendCanRefund(answers: Answers, approvals: map<Id, Decision>, t: string, why: string)
    requires Answered([Entry(Id("ref-1"), Refund(t, why, 500.0), 0.0, Approval)], approvals, Text("sim"))
    ensures var s := Settings(Recommend, false, 150.0, 2, 0.3, 300.0, 25);
      var e := Entry(Id("ref-1"), Refund(t, why, 500.0), 0.0, Approval);
      && Table(e.order, Recommend) == Recommended && e.mode == ModeFor(e.order, e.cost, s)
      && RequestRefund(t, why) in CallsOf([e], approvals, s, answers, 0)
  {
    var s := Settings(Recommend, false, 150.0, 2, 0.3, 300.0, 25);
    var e := Entry(Id("ref-1"), Refund(t, why, 500.0), 0.0, Approval);
    assert [e][..0] == [];
    assert Grants(Text("sim"), e.id);
    AnsweredAllows([e], approvals, Text("sim"), s, e);
    AuthorisedBegins([e], approvals, s, answers, 0, 0);
  }

  // ------------------------------------------------------------------- spending

  function Created(calls: seq<Call>): nat {
    if calls == [] then 0 else Created(calls[..|calls| - 1]) + if calls[|calls| - 1].NewCampaign? then 1 else 0
  }

  function Committed(calls: seq<Call>): real {
    if calls == [] then 0.0
    else Committed(calls[..|calls| - 1]) + if calls[|calls| - 1].NewCampaign? then calls[|calls| - 1].budget else 0.0
  }

  lemma {:induction false} CallsConcat(a: seq<Call>, b: seq<Call>)
    ensures Created(a + b) == Created(a) + Created(b)
    ensures Committed(a + b) == Committed(a) + Committed(b)
  {
    if b == [] {
      assert a + b == a;
    } else {
      var m := |b| - 1;
      CallsConcat(a, b[..m]);
      assert (a + b)[..|a + b| - 1] == a + b[..m];
    }
  }

  function Budget(e: Entry): real { if e.order.CreateCampaign? then e.order.budget else 0.0 }
  function One(e: Entry): nat { if e.order.CreateCampaign? then 1 else 0 }

  function Proposed(entries: seq<Entry>): nat {
    if entries == [] then 0 else One(entries[0]) + Proposed(entries[1..])
  }

  function ProposedBudget(entries: seq<Entry>): real {
    if entries == [] then 0.0 else Budget(entries[0]) + ProposedBudget(entries[1..])
  }

  lemma {:induction false} ProposedConcat(a: seq<Entry>, b: seq<Entry>)
    ensures Proposed(a + b) == Proposed(a) + Proposed(b)
    ensures ProposedBudget(a + b) == ProposedBudget(a) + ProposedBudget(b)
  {
    if a == [] {
      assert a + b == b;
    } else {
      assert (a + b)[0] == a[0] && (a + b)[1..] == a[1..] + b;
      ProposedConcat(a[1..], b);
    }
  }

  function Without(es: seq<Entry>, k: nat): seq<Entry>
    requires k < |es|
  {
    es[..k] + es[k + 1..]
  }

  lemma ProposedWithout(es: seq<Entry>, k: nat)
    requires k < |es|
    ensures Proposed(es) == One(es[k]) + Proposed(Without(es, k))
    ensures ProposedBudget(es) == Budget(es[k]) + ProposedBudget(Without(es, k))
  {
    assert es == es[..k] + es[k..];
    ProposedConcat(es[..k], es[k..]);
    ProposedConcat(es[..k], es[k + 1..]);
  }

  lemma MultisetWithout(es: seq<Entry>, k: nat)
    requires k < |es|
    ensures multiset(Without(es, k)) == multiset(es) - multiset{es[k]}
  {
    assert es == es[..k] + ([es[k]] + es[k + 1..]);
  }

  /** Sorting does not change what is proposed. */
  lemma {:induction false} ProposedRearranged(a: seq<Entry>, b: seq<Entry>)
    requires multiset(a) == multiset(b)
    ensures Proposed(a) == Proposed(b) && ProposedBudget(a) == ProposedBudget(b)
    decreases |a|
  {
    if a == [] {
      assert |b| == |multiset(b)| == 0;
    } else {
      assert a[0] in multiset(b);
      var k :| 0 <= k < |b| && b[k] == a[0];
      MultisetWithout(a, 0);
      MultisetWithout(b, k);
      ProposedRearranged(Without(a, 0), Without(b, k));
      ProposedWithout(a, 0);
      ProposedWithout(b, k);
    }
  }

  lemma {:induction false} CreatesNothing(calls: seq<Call>)
    requires forall c :: c in calls ==> !c.NewCampaign?
    ensures Created(calls) == 0 && Committed(calls) == 0.0
  {
    if calls != [] {
      CreatesNothing(calls[..|calls| - 1]);
    }
  }

  /** Whatever part of its calls an action makes, it spends no more than it proposes. */
  lemma PrefixSpends(e: Entry, s: Settings, made: seq<Call>)
    requires Budget(e) >= 0.0 && CallsFor(e.order, s).Some? && made <= CallsFor(e.order, s).value
    ensures Created(made) <= One(e) && Committed(made) <= Budget(e)
  {
    if e.order.CreateCampaign? && made != [] {
      assert made == [NewCampaign(e.order.name, e.order.budget)] && made[..0] == [];
    } else {
      CreatesNothing(made);
    }
  }

  lemma StepCalls(e: Entry, approvals: map<Id, Decision>, s: Settings, answers: Answers, m: nat)
      returns (made: seq<Call>)
    ensures made == ActionStep(e, approvals, s, answers, m).calls
    ensures made == [] || (CallsFor(e.order, s).Some? && made <= CallsFor(e.order, s).value)
  {
    made := ActionStep(e, approvals, s, answers, m).calls;
  }

  /** The last action adds a block of calls that spends no more than it proposes. */
  lemma LastSpends(entries: seq<Entry>, approvals: map<Id, Decision>, s: Settings, answers: Answers, n: nat)
      returns (block: seq<Call>)
    requires entries != [] && Budget(entries[|entries| - 1]) >= 0.0
    ensures var i := |entries| - 1;
      && CallsOf(entries, approvals, s, answers, n) == CallsOf(entries[..i], approvals, s, answers, n) + block
      && Created(block) <= One(entries[i]) && Committed(block) <= Budget(entries[i])
  {
    var e := entries[|entries| - 1];
    var m;
    block, m := LastCalls(entries, ActionSteps(approvals, s, answers), n);
    if block != [] {
      var made := StepCalls(e, approvals, s, answers, m);
      PrefixSpends(e, s, made);
    }
  }

  /** No more is created or committed than was proposed. */
  lemma {:induction false} SpendsProposed(entries: seq<Entry>, approvals: map<Id, Decision>, s: Settings,
                                          answers: Answers, n: nat)
    requires forall e :: e in entries ==> Budget(e) >= 0.0
    ensures Created(CallsOf(entries, approvals, s, answers, n)) <= Proposed(entries)
    ensures Committed(CallsOf(entries, approvals, s, answers, n)) <= ProposedBudget(entries)
  {
    if entries != [] {
      var i := |entries| - 1;
      assert entries == entries[..i] + [entries[i]];
      SpendsProposed(entries[..i], approvals, s, answers, n);
      ProposedConcat(entries[..i], [entries[i]]);
      assert ProposedBudget([entries[i]]) == Budget(entries[i]) + ProposedBudget([]);
      var block := LastSpends(entries, approvals, s, answers, n);
      CallsConcat(CallsOf(entries[..i], approvals, s, answers, n), block);
    }
  }

  // ------------------------------------------------------------ one whole turn

  predicate CreatesNone(ps: seq<Proposal>) { forall p :: p in ps ==> !p.order.CreateCampaign? }

  lemma {:induction false} NoneProposed(ps: seq<Proposal>, s: Settings)
    requires CreatesNone(ps)
    ensures Proposed(AllDecided(ps, s)) == 0 && ProposedBudget(AllDecided(ps, s)) == 0.0
  {
    if ps != [] {
      assert AllDecided(ps, s)[1..] == AllDecided(ps[1..], s);
      NoneProposed(ps[1..], s);
    }
  }

  function SumOf(plans: seq<Plan>): real {
    if plans == [] then 0.0 else SumOf(plans[..|plans| - 1]) + plans[|plans| - 1].budget
  }

  function CampaignEntries(plans: seq<Plan>, ids: seq<Id>, s: Settings): seq<Entry>
    requires |ids| == |plans|
  {
    AllDecided(ActionsFromCampaigns(plans, ids), s)
  }

  lemma CampaignEntriesNext(plans: seq<Plan>, ids: seq<Id>, s: Settings)
    requires |ids| == |plans| > 0
    ensures var n := |plans| - 1;
      CampaignEntries(plans, ids, s) == CampaignEntries(plans[..n], ids[..n], s) + [CampaignEntries(plans, ids, s)[n]]
      && One(CampaignEntries(plans, ids, s)[n]) == 1 && Budget(CampaignEntries(plans, ids, s)[n]) == plans[n].budget
  {
    var n := |plans| - 1;
    var whole, front := ActionsFromCampaigns(plans, ids), ActionsFromCampaigns(plans[..n], ids[..n]);
    forall i | 0 <= i < n ensures whole[i] == front[i] {}
    assert forall i :: 0 <= i < n ==> AllDecided(whole, s)[i] == AllDecided(front, s)[i];
  }

  lemma {:induction false} PlansProposed(plans: seq<Plan>, ids: seq<Id>, s: Settings)
    requires |ids| == |plans|
    ensures Proposed(CampaignEntries(plans, ids, s)) == |plans|
    ensures ProposedBudget(CampaignEntries(plans, ids, s)) == SumOf(plans)
  {
    if plans != [] {
      var n := |plans| - 1;
      PlansProposed(plans[..n], ids[..n], s);
      CampaignEntriesNext(plans, ids, s);
      var last := CampaignEntries(plans, ids, s)[n];
      ProposedConcat(CampaignEntries(plans[..n], ids[..n], s), [last]);
      assert Proposed([last]) == 1 && ProposedBudget([last]) == Budget(last) + ProposedBudget([]);
    }
  }

  lemma DecidedConcat(a: seq<Proposal>, b: seq<Proposal>, s: Settings)
    ensures AllDecided(a + b, s) == AllDecided(a, s) + AllDecided(b, s)
  {}

  /** What the proposals of a turn add up to: the planned campaigns and nothing else. */
  lemma TurnProposes(support: seq<Proposal>, plans: seq<Plan>, ids: seq<Id>, signals: seq<Proposal>, s: Settings)
    requires |ids| == |plans| && CreatesNone(support) && CreatesNone(signals)
    ensures var entries := AllDecided(support + ActionsFromCampaigns(plans, ids) + signals, s);
      Proposed(entries) == |plans| && ProposedBudget(entries) == SumOf(plans)
  {
    var campaigns := ActionsFromCampaigns(plans, ids);
    DecidedConcat(support + campaigns, signals, s);
    DecidedConcat(support, campaigns, s);
    ProposedConcat(AllDecided(support + campaigns, s), AllDecided(signals, s));
    ProposedConcat(AllDecided(support, s), CampaignEntries(plans, ids, s));
    NoneProposed(support, s);
    NoneProposed(signals, s);
    PlansProposed(plans, ids, s);
  }

  /** The plans that pass the selection, with their final budgets. */
  ghost predicate Carried(plans: seq<Plan>, account: Option<Account>, s: Settings) {
    && (plans != [] ==> account.Some? && account.value.active && |plans| <= s.maxNewCampaigns)
    && (forall p :: p in plans ==> 0.0 <= p.budget <= s.maxDailyBudget)
    && (plans != [] && Available(account.value).Some? ==> SumOf(plans) * RUNWAY_DAYS <= Available(account.value).value)
  }

  lemma {:induction false} PickedSum(plans: seq<Plan>, budgets: seq<real>, picks: seq<nat>)
    requires |plans| == |picks|
    requires forall k :: 0 <= k < |picks| ==> picks[k] < |budgets| && plans[k].budget == budgets[picks[k]]
    ensures SumOf(plans) == SumAt(budgets, picks)
  {
    if picks != [] {
      PickedSum(plans[..|plans| - 1], budgets, picks[..|picks| - 1]);
    }
  }

  predicate PicksOf(sel: Selection, before: seq<Plan>) {
    forall k :: 0 <= k < |sel.picks| ==> sel.picks[k] < |before| && sel.picks[k] < |sel.budgets|
  }

  /** The chosen plans with their final budgets. */
  function Chosen(sel: Selection, before: seq<Plan>): (plans: seq<Plan>)
    requires PicksOf(sel, before)
    ensures |plans| == |sel.picks|
    ensures forall k :: 0 <= k < |plans| ==>
      plans[k] == Plan(before[sel.picks[k]].name, before[sel.picks[k]].score, sel.budgets[sel.picks[k]])
  {
    seq(|sel.picks|, k requires 0 <= k < |sel.picks| =>
          Plan(before[sel.picks[k]].name, before[sel.picks[k]].score, sel.budgets[sel.picks[k]]))
  }

  lemma PicksInside(before: seq<Plan>, available: Option<real>, s: Settings)
    ensures PicksOf(Select(before, available, s), before)
  {
    SelectionSound(before, available, s);
    var sel := Select(before, available, s);
    forall k | 0 <= k < |sel.picks| ensures sel.picks[k] < |before| && sel.picks[k] < |sel.budgets| {
      assert Fits(sel, before, s, sel.picks[k]);
    }
  }

  /** The campaigns that a turn plans out of the catalogue as it was before. */
  ghost function Planned(before: seq<Plan>, account: Option<Account>, wantsAds: bool, s: Settings): seq<Plan> {
    if wantsAds && account.Some? && account.value.active then
      var sel := Select(before, Available(account.value), s);
      PicksInside(before, Available(account.value), s);
      Chosen(sel, before)
    else []
  }

  method PlanCampaigns(catalog: seq<CampaignPlan>, account: Option<Account>, wantsAds: bool, s: Settings)
      returns (plans: seq<Plan>)
    requires Distinct(catalog)
    modifies set p | p in catalog
    ensures plans == Planned(old(Views(catalog)), account, wantsAds, s)
  {
    plans := [];
    if account.Some? && wantsAds {
      ghost var before := Views(catalog);
      var approved, notes := SelectCampaigns(catalog, account.value, s);
      if account.value.active {
        ghost var sel := Select(before, Available(account.value), s);
        assert AtPositions(approved, catalog, sel.picks);
        PicksInside(before, Available(account.value), s);
        plans := Views(approved);
        assert forall k :: 0 <= k < |plans| ==> plans[k] == Chosen(sel, before)[k];
      }
    }
  }

  /** `picks` are the places in the catalogue of the planned campaigns: of positive score, with their
      budgets cut to the cap, in catalogue order. */
  ghost predicate PickedFrom(plans: seq<Plan>, before: seq<Plan>, picks: seq<nat>, cap: real) {
    && |plans| == |picks|
    && (forall k :: 0 <= k < |picks| ==> picks[k] < |before|)
    && (forall j, k :: 0 <= j < k < |picks| ==> picks[j] < picks[k])
    && (forall k :: 0 <= k < |picks| ==>
          plans[k].name == before[picks[k]].name && before[picks[k]].score > 0.0 &&
          plans[k].budget == Least(before[picks[k]].budget, cap))
  }

  /** There is no room for plan `p` beside the planned ones. */
  ghost predicate NoRoom(plans: seq<Plan>, p: Plan, available: Option<real>, s: Settings) {
    || |plans| >= s.maxNewCampaigns
    || (available.Some? && (SumOf(plans) + Least(p.budget, s.maxDailyBudget)) * 3.0 > available.value)
  }

  lemma ChosenPicked(before: seq<Plan>, available: Option<real>, s: Settings)
    ensures var sel := Select(before, available, s);
      PicksOf(sel, before) && PickedFrom(Chosen(sel, before), before, sel.picks, s.maxDailyBudget)
    ensures SumOf(Chosen(Select(before, available, s), before)) == Select(before, available, s).used
  {
    var sel := Select(before, available, s);
    PicksInside(before, available, s);
    SelectionSound(before, available, s);
    var plans := Chosen(sel, before);
    forall k | 0 <= k < |sel.picks|
      ensures before[sel.picks[k]].score > 0.0
      ensures plans[k].budget == Least(before[sel.picks[k]].budget, s.maxDailyBudget)
    {
      assert Fits(sel, before, s, sel.picks[k]);
    }
    PickedSum(plans, sel.budgets, sel.picks);
  }

  /** The planned campaigns are plans of the catalogue of positive score, as many as there is room for:
      with budgets and cap not negative, one that is missing meets the limit in number, or three days
      of it and of all of them are more than is available. Without an active account, or without the
      wish for advertising, there is none. */
  lemma PlannedAre(before: seq<Plan>, account: Option<Account>, wantsAds: bool, s: Settings) returns (picks: seq<nat>)
    requires s.maxDailyBudget >= 0.0 && forall p :: p in before ==> p.budget >= 0.0
    ensures PickedFrom(Planned(before, account, wantsAds, s), before, picks, s.maxDailyBudget)
    ensures !(wantsAds && account.Some? && account.value.active) ==> Planned(before, account, wantsAds, s) == []
    ensures wantsAds && account.Some? && account.value.active ==>
      forall i: nat :: i < |before| && before[i].score > 0.0 && i !in picks ==>
        NoRoom(Planned(before, account, wantsAds, s), before[i], Available(account.value), s)
  {
    picks := [];
    if wantsAds && account.Some? && account.value.active {
      var available := Available(account.value);
      picks := Select(before, available, s).picks;
      ChosenPicked(before, available, s);
      forall i: nat | i < |before| && before[i].score > 0.0 && i !in picks
        ensures NoRoom(Planned(before, account, wantsAds, s), before[i], available, s)
      {
        SelectionMaximal(before, available, s, i);
      }
    }
  }

  function Least(a: real, b: real): real { if a <= b then a else b }

  lemma PlannedCarried(before: seq<Plan>, account: Option<Account>, wantsAds: bool, s: Settings)
    requires s.maxDailyBudget >= 0.0 && forall p :: p in before ==> p.budget >= 0.0
    ensures var plans := Planned(before, account, wantsAds, s); |plans| <= |before| && Carried(plans, account, s)
  {
    if wantsAds && account.Some? && account.value.active {
      PicksInside(before, Available(account.value), s);
      PlansCarried(Planned(before, account, wantsAds, s), Select(before, Available(account.value), s), before,
                   account.value, s);
    }
  }

  lemma PlansCarried(plans: seq<Plan>, sel: Selection, before: seq<Plan>, account: Account, s: Settings)
    requires account.active && s.maxDailyBudget >= 0.0
    requires sel == Select(before, Available(account), s) && |plans| == |sel.picks|
    requires forall i :: 0 <= i < |before| ==> before[i].budget >= 0.0
    requires forall k :: 0 <= k < |plans| ==>
      sel.picks[k] < |sel.budgets| && plans[k].budget == sel.budgets[sel.picks[k]]
    ensures |plans| <= |before| && Carried(plans, Some(account), s)
  {
    SelectionSound(before, Available(account), s);
    PickedSum(plans, sel.budgets, sel.picks);
    PicksFew(before, Available(account), s);
    forall k | 0 <= k < |plans| ensures 0.0 <= plans[k].budget <= s.maxDailyBudget {
      assert Fits(sel, before, s, sel.picks[k]);
    }
  }

  lemma {:induction false} PicksFew(plans: seq<Plan>, available: Option<real>, s: Settings)
    ensures |Select(plans, available, s).picks| <= |plans|
  {
    if plans != [] {
      PicksFew(plans[..|plans| - 1], available, s);
    }
  }

  /** No daily budget above the cap. */
  predicate WithinCap(c: Call, s: Settings) {
    (c.NewCampaign? ==> c.budget <= s.maxDailyBudget) && (c.SetBudget? ==> c.target <= s.maxDailyBudget)
  }

  /** The calls of a turn stay within every money limit of the settings and the account. */
  ghost predicate WithinLimits(calls: seq<Call>, account: Option<Account>, s: Settings) {
    && (Created(calls) > 0 ==> account.Some? && account.value.active && Created(calls) <= s.maxNewCampaigns)
    && (forall c :: c in calls ==> WithinCap(c, s))
    && (account.Some? && Available(account.value).Some? ==>
          Committed(calls) * RUNWAY_DAYS <= Available(account.value).value)
    && (account.None? ==> Committed(calls) <= 0.0)
  }

  predicate BudgetFits(e: Entry, s: Settings) {
    0.0 <= Budget(e) && (e.order.CreateCampaign? ==> Budget(e) <= s.maxDailyBudget)
  }

  /** A single call stays within the cap. */
  lemma CallWithinCap(entries: seq<Entry>, approvals: map<Id, Decision>, s: Settings, answers: Answers, n: nat, c: Call)
    requires forall e :: e in entries ==> BudgetFits(e, s)
    requires c in CallsOf(entries, approvals, s, answers, n)
    ensures WithinCap(c, s)
  {
    CallsAuthorised(entries, approvals, s, answers, n, c);
    var e :| e in entries && Authorised(e, approvals, s)
             && CallsFor(e.order, s).Some? && c in CallsFor(e.order, s).value;
    OrderWithinCap(e, s, c);
  }

  lemma OrderWithinCap(e: Entry, s: Settings, c: Call)
    requires BudgetFits(e, s) && CallsFor(e.order, s).Some? && c in CallsFor(e.order, s).value
    ensures WithinCap(c, s)
  {}

  lemma CallsWithinLimits(entries: seq<Entry>, plans: seq<Plan>, account: Option<Account>, approvals: map<Id, Decision>,
                          s: Settings, answers: Answers, n: nat)
    requires Carried(plans, account, s) && Proposed(entries) == |plans| && ProposedBudget(entries) == SumOf(plans)
    requires forall e :: e in entries ==> BudgetFits(e, s)
    ensures WithinLimits(CallsOf(entries, approvals, s, answers, n), account, s)
  {
    var calls := CallsOf(entries, approvals, s, answers, n);
    SpendsProposed(entries, approvals, s, answers, n);
    forall c | c in calls
      ensures WithinCap(c, s)
    {
      CallWithinCap(entries, approvals, s, answers, n, c);
    }
  }

  /** What `decidir` makes of the proposals of a turn. */
  function Decisions(support: seq<Proposal>, plans: seq<Plan>, ids: seq<Id>, signals: seq<Proposal>, s: Settings,
                     priority: Priority): seq<Entry>
    requires |ids| == |plans|
  {
    Sorted(AllDecided(support + ActionsFromCampaigns(plans, ids) + signals, s), priority)
  }

  lemma DecisionsFit(support: seq<Proposal>, plans: seq<Plan>, ids: seq<Id>, signals: seq<Proposal>,
                     account: Option<Account>, s: Settings, priority: Priority)
    requires |ids| == |plans| && CreatesNone(support) && CreatesNone(signals) && Carried(plans, account, s)
    ensures var entries := Decisions(support, plans, ids, signals, s, priority);
      && Proposed(entries) == |plans| && ProposedBudget(entries) == SumOf(plans)
      && forall e :: e in entries ==> BudgetFits(e, s)
  {
    var proposals := support + ActionsFromCampaigns(plans, ids) + signals;
    var entries := Decisions(support, plans, ids, signals, s, priority);
    RankedEntries(proposals, s, priority);
    TurnProposes(support, plans, ids, signals, s);
    ProposedRearranged(entries, AllDecided(proposals, s));
    forall e | e in entries ensures BudgetFits(e, s) {
      if e.order.CreateCampaign? {
        EntryBudget(Proposal(e.id, e.order, e.cost), support, plans, ids, signals);
        var i :| 0 <= i < |plans| && e.order.budget == plans[i].budget;
        assert plans[i] in plans;
      }
    }
  }

  lemma TurnWithinLimits(support: seq<Proposal>, plans: seq<Plan>, ids: seq<Id>, signals: seq<Proposal>,
                         account: Option<Account>, s: Settings, priority: Priority, approvals: map<Id, Decision>,
                         answers: Answers, n: nat)
    requires |ids| == |plans| && CreatesNone(support) && CreatesNone(signals) && Carried(plans, account, s)
    ensures var entries := Decisions(support, plans, ids, signals, s, priority);
      WithinLimits(CallsOf(entries, approvals, s, answers, n), account, s)
  {
    DecisionsFit(support, plans, ids, signals, account, s, priority);
    CallsWithinLimits(Decisions(support, plans, ids, signals, s, priority), plans, account, approvals, s, answers, n);
  }

  lemma EntryBudget(p: Proposal, support: seq<Proposal>, plans: seq<Plan>, ids: seq<Id>, signals: seq<Proposal>)
    requires |ids| == |plans| && CreatesNone(support) && CreatesNone(signals)
    requires p in support + ActionsFromCampaigns(plans, ids) + signals && p.order.CreateCampaign?
    ensures exists i :: 0 <= i < |plans| && p.order.budget == plans[i].budget
  {
    var campaigns := ActionsFromCampaigns(plans, ids);
    assert p in campaigns;
    var i :| 0 <= i < |campaigns| && campaigns[i] == p;
    assert p.order.budget == plans[i].budget;
  }

  /** What a turn starts from besides the catalogue: the answers written to mails, the account and the
      wish for advertising, the signals in their order, and the ids and priorities to come. */
  datatype Collected = Collected(
    replies: seq<EmailReply>, mailIds: seq<Id>, account: Option<Account>, wantsAds: bool, campaignIds: seq<Id>,
    findings: seq<Finding>, findingIds: seq<Id>, priority: Priority)

  /** There are ids enough for `n` plans. */
  predicate Numbered(c: Collected, n: nat) {
    |c.mailIds| == |c.replies| && |c.findingIds| == |c.findings| && |c.campaignIds| == n
  }

  /** What a turn decides on: one action for each mail, one new campaign for each plan chosen from the
      catalogue as it was, and what the signals ask for; ordered by priority. */
  ghost predicate Decides(entries: seq<Entry>, c: Collected, plans: seq<Plan>, s: Settings) {
    && |c.mailIds| == |c.replies| && |c.findingIds| == |c.findings| && |plans| <= |c.campaignIds|
    && multiset(entries) ==
       multiset(AllDecided(MailActions(c.replies, c.mailIds, s.maxAutoEmails), s)) +
       multiset(CampaignEntries(plans, c.campaignIds[..|plans|], s)) +
       multiset(AllDecided(FindingActions(c.findings, c.findingIds, s), s))
    && Descending(entries, c.priority)
  }

  lemma DecisionsDecide(c: Collected, plans: seq<Plan>, s: Settings, n: nat)
    requires Numbered(c, n) && |plans| <= n
    ensures Decides(DecisionsOn(c, plans, s), c, plans, s)
  {
    var mails := MailActions(c.replies, c.mailIds, s.maxAutoEmails);
    var campaigns := ActionsFromCampaigns(plans, c.campaignIds[..|plans|]);
    var signals := FindingActions(c.findings, c.findingIds, s);
    RankedEntries(mails + campaigns + signals, s, c.priority);
    DecidedConcat(mails + campaigns, signals, s);
    DecidedConcat(mails, campaigns, s);
  }

  function DecisionsOn(c: Collected, plans: seq<Plan>, s: Settings): seq<Entry>
    requires Numbered(c, |c.campaignIds|) && |plans| <= |c.campaignIds|
  {
    Decisions(MailActions(c.replies, c.mailIds, s.maxAutoEmails), plans, c.campaignIds[..|plans|],
              FindingActions(c.findings, c.findingIds, s), s, c.priority)
  }

  /** The decision of a turn: campaigns are planned, and all proposals decided and sorted. */
  method DecideTurn(catalog: seq<CampaignPlan>, c: Collected, s: Settings) returns (entries: seq<Entry>)
    requires Distinct(catalog) && s.maxDailyBudget >= 0.0 && forall p :: p in catalog ==> p.budget >= 0.0
    requires Numbered(c, |catalog|)
    modifies set p | p in catalog
    ensures WellDecided(entries, s)
    ensures var plans := Planned(old(Views(catalog)), c.account, c.wantsAds, s);
      && |plans| <= |catalog| && Carried(plans, c.account, s) && entries == DecisionsOn(c, plans, s)
  {
    ghost var before := Views(catalog);
    assert forall i :: 0 <= i < |catalog| ==> catalog[i] in catalog && before[i].budget >= 0.0;
    PlannedCarried(before, c.account, c.wantsAds, s);
    var plans := PlanCampaigns(catalog, c.account, c.wantsAds, s);
    var mails := ActionsFromEmails(c.replies, c.mailIds, s);
    var campaigns := ActionsFromCampaigns(plans, c.campaignIds[..|plans|]);
    var signals := ActionsFromFindings(c.findings, c.findingIds, s);
    entries := Decide(mails + campaigns + signals, s, c.priority);
    RankedEntries(mails + campaigns + signals, s, c.priority);
  }

  /** A turn from the collected data to the results: plan, decide, ask, execute. */
  method Turn(catalog: seq<CampaignPlan>, c: Collected, s: Settings, reply: Reply, prior: map<Id, Decision>,
              clients: Clients)
      returns (results: Option<seq<ActionResult>>, entries: seq<Entry>, approvals: map<Id, Decision>)
    requires Distinct(catalog) && s.maxDailyBudget >= 0.0 && forall p :: p in catalog ==> p.budget >= 0.0
    requires Numbered(c, |catalog|)
    modifies clients, set p | p in catalog
    ensures WellDecided(entries, s) && Answered(entries, approvals, reply)
    ensures Decides(entries, c, Planned(old(Views(catalog)), c.account, c.wantsAds, s), s)
    ensures clients.calls == old(clients.calls) + CallsOf(entries, approvals, s, clients.answers, |old(clients.calls)|)
    ensures WithinLimits(CallsOf(entries, approvals, s, clients.answers, |old(clients.calls)|), c.account, s)
    ensures results.Some? <==>
      NoneRaises(Foreigns(clients.answers), |old(clients.calls)|, |clients.calls| - |old(clients.calls)|)
    ensures results.Some? ==>
      if NeedsWork(entries) then Reported(entries, results.value, reply) else results.value == []
  {
    ghost var n, plans := |clients.calls|, Planned(Views(catalog), c.account, c.wantsAds, s);
    entries := DecideTurn(catalog, c, s);
    results, approvals := Conclude(entries, reply, prior, s, clients);
    DecisionsDecide(c, plans, s, |catalog|);
    DecisionsWithinLimits(c, plans, s, approvals, clients.answers, n);
  }

  lemma DecisionsWithinLimits(c: Collected, plans: seq<Plan>, s: Settings, approvals: map<Id, Decision>,
                              answers: Answers, n: nat)
    requires Numbered(c, |c.campaignIds|) && |plans| <= |c.campaignIds| && Carried(plans, c.account, s)
    ensures WithinLimits(CallsOf(DecisionsOn(c, plans, s), approvals, s, answers, n), c.account, s)
  {
    FindingsCreateNothing(c.findings, c.findingIds, s);
    TurnWithinLimits(MailActions(c.replies, c.mailIds, s.maxAutoEmails), plans, c.campaignIds[..|plans|],
                     FindingActions(c.findings, c.findingIds, s), c.account, s, c.priority, approvals, answers, n);
  }
}
