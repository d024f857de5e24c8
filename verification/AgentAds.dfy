/** Which campaigns the account can carry (`select_campaigns`,
    apps/hotmart-ebook-agent/hotmart_agent/modules/ads.py; `available_brl`, models.py). */
module AgentAds {
  import opened Prelude
  import opened AgentPolicy

  /** A plan of the catalogue; the selection may lower its budget. */
  class CampaignPlan {
    const name: string
    const score: real
    var budget: real

    constructor (name: string, score: real, budget: real)
      ensures this.name == name && this.score == score && this.budget == budget
    {
      this.name, this.score, this.budget := name, score, budget;
    }

    function View(): Plan
      reads this
    {
      Plan(name, score, budget)
    }
  }

  datatype Account = Account(active: bool, prepaid: real, spendCap: real, spent: real, validFunding: bool)

  datatype Note =
    | Inactive
    | OverLimit(name: string)
    | Reduced(name: string)
    | Unaffordable(name: string, needed: real)
    | LowScore(name: string)

  /** What may still be spent; `None` stands for no bound at all. */
  function Available(a: Account): (r: Option<real>)
    ensures r.None? <==> a.spendCap <= 0.0 && a.prepaid <= 0.0 && a.validFunding
    ensures r.Some? ==> r.value >= 0.0
    ensures r.Some? && a.spendCap > 0.0 ==> r.value <= a.spendCap - a.spent || r.value == 0.0
    ensures r.Some? && a.prepaid > 0.0 ==> r.value <= a.prepaid
    ensures r.Some? && r.value > 0.0 ==> r.value == a.prepaid || r.value == a.spendCap - a.spent
    ensures r == Some(0.0) ==> (a.prepaid <= 0.0 && !a.validFunding) || (a.spendCap > 0.0 && a.spent >= a.spendCap)
  {
    var capLeft := if a.spendCap > 0.0 then Some(a.spendCap - a.spent) else None;
    var prepaid := if a.prepaid > 0.0 then Some(a.prepaid) else if a.validFunding then None else Some(0.0);
    var least := if capLeft.None? then prepaid
                 else if prepaid.None? || capLeft.value <= prepaid.value then capLeft else prepaid;
    if least.Some? && least.value < 0.0 then Some(0.0) else least
  }

  function Capped(b: real, s: Settings): real { if b > s.maxDailyBudget then s.maxDailyBudget else b }

  const RUNWAY_DAYS := 3.0

  // ------------------------------------------------------ the selection told again

  /** The chosen plans by position, every plan's final budget, what the chosen ones cost a day. */
  datatype Selection = Selection(picks: seq<nat>, budgets: seq<real>, used: real, notes: seq<Note>)

  predicate Affordable(available: Option<real>, used: real, b: real) {
    available.None? || (used + b) * RUNWAY_DAYS <= available.value
  }

  function Consider(sel: Selection, i: nat, p: Plan, available: Option<real>, s: Settings): Selection {
    if |sel.picks| >= s.maxNewCampaigns then
      Selection(sel.picks, sel.budgets + [p.budget], sel.used, sel.notes + [OverLimit(p.name)])
    else
      var b := Capped(p.budget, s);
      var notes := sel.notes + if b != p.budget then [Reduced(p.name)] else [];
      if !Affordable(available, sel.used, b) then
        Selection(sel.picks, sel.budgets + [b], sel.used, notes + [Unaffordable(p.name, (sel.used + b) * RUNWAY_DAYS)])
      else if p.score <= 0.0 then
        Selection(sel.picks, sel.budgets + [b], sel.used, notes + [LowScore(p.name)])
      else
        Selection(sel.picks + [i], sel.budgets + [b], sel.used + b, notes)
  }

  function Select(plans: seq<Plan>, available: Option<real>, s: Settings): Selection {
    if plans == [] then Selection([], [], 0.0, [])
    else
      var n := |plans| - 1;
      Consider(Select(plans[..n], available, s), n, plans[n], available, s)
  }

  function SumAt(budgets: seq<real>, picks: seq<nat>): real
    requires forall k :: 0 <= k < |picks| ==> picks[k] < |budgets|
  {
    if picks == [] then 0.0
    else SumAt(budgets, picks[..|picks| - 1]) + budgets[picks[|picks| - 1]]
  }

  lemma {:induction false} SumAtExtends(budgets: seq<real>, more: seq<real>, picks: seq<nat>)
    requires forall k :: 0 <= k < |picks| ==> picks[k] < |budgets|
    ensures SumAt(budgets + more, picks) == SumAt(budgets, picks)
  {
    if picks != [] {
      SumAtExtends(budgets, more, picks[..|picks| - 1]);
    }
  }

  /** A chosen plan: its budget is the original one or the cap, whichever is less, its score positive. */
  predicate Fits(sel: Selection, plans: seq<Plan>, s: Settings, i: nat) {
    && i < |plans| && i < |sel.budgets|
    && plans[i].score > 0.0 && sel.budgets[i] == Capped(plans[i].budget, s) <= s.maxDailyBudget
  }

  /** Budgets are touched only to cap them. */
  predicate OnlyCapped(sel: Selection, plans: seq<Plan>, s: Settings) {
    && |sel.budgets| == |plans|
    && forall i :: 0 <= i < |plans| ==>
         sel.budgets[i] == plans[i].budget || sel.budgets[i] == Capped(plans[i].budget, s)
  }

  /** Within the limit in number, in catalogue order, each fitting; and three days of all the chosen
      ones together fit what is available. */
  ghost predicate Sound(sel: Selection, plans: seq<Plan>, available: Option<real>, s: Settings) {
    && OnlyCapped(sel, plans, s)
    && (sel.picks == [] || |sel.picks| <= s.maxNewCampaigns)
    && (forall k :: 0 <= k < |sel.picks| ==> Fits(sel, plans, s, sel.picks[k]))
    && (forall j, k :: 0 <= j < k < |sel.picks| ==> sel.picks[j] < sel.picks[k])
    && sel.used == SumAt(sel.budgets, sel.picks)
    && (available.Some? && sel.picks != [] ==> sel.used * RUNWAY_DAYS <= available.value)
  }

  /** What was said of the plans so far stays true when one more budget is settled. */
  lemma OneMore(sel: Selection, after: Selection, front: seq<Plan>, p: Plan, b: real, s: Settings)
    requires OnlyCapped(sel, front, s) && after.budgets == sel.budgets + [b]
    requires b == p.budget || b == Capped(p.budget, s)
    ensures OnlyCapped(after, front + [p], s)
    ensures forall i: nat :: Fits(sel, front, s, i) ==> Fits(after, front + [p], s, i)
  {
    var plans := front + [p];
    forall i | 0 <= i < |plans|
      ensures after.budgets[i] == plans[i].budget || after.budgets[i] == Capped(plans[i].budget, s)
    {
      if i < |front| {
        assert sel.budgets[i] == front[i].budget || sel.budgets[i] == Capped(front[i].budget, s);
      }
    }
  }

  lemma SkippedSound(sel: Selection, after: Selection, front: seq<Plan>, p: Plan, b: real,
                     available: Option<real>, s: Settings)
    requires Sound(sel, front, available, s) && after.budgets == sel.budgets + [b]
    requires b == p.budget || b == Capped(p.budget, s)
    requires after.picks == sel.picks && after.used == sel.used
    ensures Sound(after, front + [p], available, s)
  {
    OneMore(sel, after, front, p, b, s);
    SumAtExtends(sel.budgets, [b], sel.picks);
  }

  lemma ChosenSound(sel: Selection, after: Selection, front: seq<Plan>, p: Plan, available: Option<real>, s: Settings)
    requires Sound(sel, front, available, s) && after.budgets == sel.budgets + [Capped(p.budget, s)]
    requires |sel.picks| < s.maxNewCampaigns && p.score > 0.0
    requires after.picks == sel.picks + [|front|] && after.used == sel.used + Capped(p.budget, s)
    requires Affordable(available, sel.used, Capped(p.budget, s))
    ensures Sound(after, front + [p], available, s)
  {
    OneMore(sel, after, front, p, Capped(p.budget, s), s);
    SumAtExtends(sel.budgets, [Capped(p.budget, s)], sel.picks);
    assert Fits(after, front + [p], s, |front|);
    assert after.picks[..|sel.picks|] == sel.picks;
    forall k | 0 <= k < |sel.picks| ensures sel.picks[k] < |front| {
      assert Fits(sel, front, s, sel.picks[k]);
    }
  }

  lemma ConsiderSound(sel: Selection, front: seq<Plan>, p: Plan, available: Option<real>, s: Settings)
    requires Sound(sel, front, available, s)
    ensures Sound(Consider(sel, |front|, p, available, s), front + [p], available, s)
  {
    var after := Consider(sel, |front|, p, available, s);
    if after.picks == sel.picks {
      SkippedSound(sel, after, front, p, after.budgets[|front|], available, s);
    } else {
      ChosenSound(sel, after, front, p, available, s);
    }
  }

  lemma {:induction false} SelectionSound(plans: seq<Plan>, available: Option<real>, s: Settings)
    ensures Sound(Select(plans, available, s), plans, available, s)
  {
    if plans != [] {
      var n := |plans| - 1;
      SelectionSound(plans[..n], available, s);
      ConsiderSound(Select(plans[..n], available, s), plans[..n], plans[n], available, s);
      assert plans == plans[..n] + [plans[n]];
    }
  }

  /** Nothing is left out without cause: with budgets and cap not negative, a plan of positive score
      that was not chosen met the limit, or would not fit even beside the plans finally chosen. */
  lemma {:induction false} SelectionMaximal(plans: seq<Plan>, available: Option<real>, s: Settings, i: nat)
    requires i < |plans| && plans[i].score > 0.0 && s.maxDailyBudget >= 0.0
    requires forall j :: 0 <= j < |plans| ==> plans[j].budget >= 0.0
    requires i !in Select(plans, available, s).picks
    ensures var sel := Select(plans, available, s);
      |sel.picks| >= s.maxNewCampaigns || !Affordable(available, sel.used, Capped(plans[i].budget, s))
  {
    var n := |plans| - 1;
    if i < n {
      assert plans[..n][i] == plans[i];
      SelectionMaximal(plans[..n], available, s, i);
    }
  }

  // --------------------------------------------------------------- the source's loop

  function Views(catalog: seq<CampaignPlan>): (vs: seq<Plan>)
    reads set p | p in catalog
    ensures |vs| == |catalog| && forall i :: 0 <= i < |catalog| ==> vs[i] == catalog[i].View()
  {
    seq(|catalog|, i requires 0 <= i < |catalog| reads set p | p in catalog => catalog[i].View())
  }

  ghost predicate AtPositions(approved: seq<CampaignPlan>, catalog: seq<CampaignPlan>, picks: seq<nat>) {
    && |approved| == |picks|
    && forall k :: 0 <= k < |picks| ==> picks[k] < |catalog| && approved[k] == catalog[picks[k]]
  }

  ghost predicate Stage(catalog: seq<CampaignPlan>, approved: seq<CampaignPlan>, notes: seq<Note>, used: real,
                        sel: Selection, i: nat)
    reads set p | p in catalog
  {
    && i <= |catalog| && |sel.budgets| == i && AtPositions(approved, catalog, sel.picks)
    && notes == sel.notes && used == sel.used
    && forall j :: 0 <= j < i ==> catalog[j].budget == sel.budgets[j]
  }

  method SelectCampaigns(catalog: seq<CampaignPlan>, account: Account, s: Settings)
      returns (approved: seq<CampaignPlan>, notes: seq<Note>)
    requires Distinct(catalog)
    modifies set p | p in catalog
    ensures !account.active ==> approved == [] && notes == [Inactive] && Views(catalog) == old(Views(catalog))
    ensures account.active ==> exists used ::
      Stage(catalog, approved, notes, used, Select(old(Views(catalog)), Available(account), s), |catalog|)
  {
    if !account.active {
      return [], [Inactive];
    }
    ghost var used;
    approved, notes, used := SelectWithin(catalog, Available(account), s);
  }

  /** The loop over the catalogue. */
  method SelectWithin(catalog: seq<CampaignPlan>, available: Option<real>, s: Settings)
      returns (approved: seq<CampaignPlan>, notes: seq<Note>, used: real)
    requires Distinct(catalog)
    modifies set p | p in catalog
    ensures Stage(catalog, approved, notes, used, Select(old(Views(catalog)), available, s), |catalog|)
  {
    ghost var plans := Views(catalog);
    approved, notes, used := [], [], 0.0;
    ghost var sel := Select([], available, s);
    for i := 0 to |catalog|
      invariant sel == Select(plans[..i], available, s)
      invariant |sel.budgets| == i && notes == sel.notes && used == sel.used
      invariant AtPositions(approved, catalog, sel.picks)
      invariant forall j :: 0 <= j < i ==> catalog[j].budget == sel.budgets[j]
      invariant forall j :: i <= j < |catalog| ==> catalog[j].budget == plans[j].budget
    {
      var p := catalog[i];
      assert p in catalog && p.View() == plans[i];
      assert forall j :: 0 <= j < |catalog| && j != i ==> catalog[j] != p;
      ghost var before := sel;
      approved, notes, used := Advance(catalog, i, approved, notes, used, available, s, plans);
      sel := Select(plans[..i + 1], available, s);
      assert sel.budgets[..i] == before.budgets;
    }
    assert plans[..|catalog|] == plans;
  }

  /** One round of the loop, which counts and lists the plan if it is taken. */
  method Advance(catalog: seq<CampaignPlan>, i: nat, approved: seq<CampaignPlan>, notes: seq<Note>, used: real,
                 available: Option<real>, s: Settings, ghost plans: seq<Plan>)
      returns (approved': seq<CampaignPlan>, notes': seq<Note>, used': real)
    requires i < |catalog| == |plans| && catalog[i].View() == plans[i]
    requires var sel := Select(plans[..i], available, s);
             AtPositions(approved, catalog, sel.picks) && notes == sel.notes && used == sel.used
    modifies catalog[i]
    ensures var sel, next := Select(plans[..i], available, s), Select(plans[..i + 1], available, s);
      && AtPositions(approved', catalog, next.picks) && notes' == next.notes && used' == next.used
      && next.budgets == sel.budgets + [catalog[i].budget]
  {
    var p := catalog[i];
    var taken;
    notes', taken := ConsiderPlan(p, i, |approved|, notes, used, available, s, plans);
    approved', used' := approved, used;
    if taken {
      AppendPosition(approved, catalog, Select(plans[..i], available, s).picks, i);
      approved', used' := approved + [p], used + p.budget;
    }
  }

  lemma AppendPosition(approved: seq<CampaignPlan>, catalog: seq<CampaignPlan>, picks: seq<nat>, i: nat)
    requires i < |catalog| && AtPositions(approved, catalog, picks)
    ensures AtPositions(approved + [catalog[i]], catalog, picks + [i])
  {}

  lemma NextSelection(plans: seq<Plan>, i: nat, available: Option<real>, s: Settings)
    requires i < |plans|
    ensures Select(plans[..i + 1], available, s) ==
            Consider(Select(plans[..i], available, s), i, plans[i], available, s)
  {
    assert plans[..i + 1][..i] == plans[..i];
  }

  /** The body of the loop for one plan: limit, cap, afford, score. */
  method ConsiderPlan(p: CampaignPlan, ghost i: nat, approved: nat, notes: seq<Note>, used: real,
                      available: Option<real>, s: Settings, ghost plans: seq<Plan>)
      returns (after: seq<Note>, taken: bool)
    requires i < |plans| && p.View() == plans[i]
    requires var sel := Select(plans[..i], available, s);
             approved == |sel.picks| && notes == sel.notes && used == sel.used
    modifies p
    ensures var sel, next := Select(plans[..i], available, s), Select(plans[..i + 1], available, s);
      && after == next.notes && next.budgets == sel.budgets + [p.budget]
      && next.picks == (if taken then sel.picks + [i] else sel.picks)
      && next.used == (if taken then used + p.budget else used)
  {
    NextSelection(plans, i, available, s);
    after := notes;
    if approved >= s.maxNewCampaigns {
      return after + [OverLimit(p.name)], false;
    }
    if p.budget > s.maxDailyBudget {
      p.budget := s.maxDailyBudget;
      after := after + [Reduced(p.name)];
    }
    var needed := (used + p.budget) * RUNWAY_DAYS;
    if available.Some? && needed > available.value {
      return after + [Unaffordable(p.name, needed)], false;
    }
    if p.score <= 0.0 {
      return after + [LowScore(p.name)], false;
    }
    taken := true;
  }
}
