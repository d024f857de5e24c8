/** Human-in-the-loop replay: `interrupt` (libs/langgraph/langgraph/types.py) on a task scratchpad.
    A node is re-executed from its start on every invocation. */
module Interrupt {
  import opened Prelude

  /** What a node does next: call `interrupt(question)`, or return. */
  datatype Action<Q, R> = Ask(question: Q) | Finish(result: R)

  /** A deterministic node: its next action depends only on the answers it has had so far. */
  type Node<!V, !Q, !R> = seq<V> -> Action<Q, R>

  /** How an execution of a node ends. `Crashed` stands for the failed assertion in `interrupt`. */
  datatype Outcome<Q, R> = Done(result: R) | Waiting(question: Q) | Crashed

  /** The reference: one uninterrupted run in which `answers` are given as the node asks.
      It stops when the node returns, or at the first question without an answer. */
  function Direct<V, Q, R>(node: Node<V, Q, R>, answers: seq<V>, i: nat): Outcome<Q, R>
    requires i <= |answers|
    decreases |answers| - i
  {
    match node(answers[..i])
    case Finish(result) => Done(result)
    case Ask(question) => if i == |answers| then Waiting(question) else Direct(node, answers, i + 1)
  }

  // -------------------------------------------------------------- scratchpad

  /** How a resume value reaches an invocation: as `Command(resume=v)`, through the resume map
      that addresses the task, or not at all. */
  datatype Delivery<V> = Null(value: V) | Mapped(value: V) | Nothing

  /** What the checkpoint holds at the start: whether any write is pending, the resume values of
      the task, and the last value that came without an address. */
  datatype Saved<V> = Saved(pending: bool, resume: seq<V>, standing: Option<V>)

  /** The values of the task itself; with nothing pending, the resume map is not looked at. */
  function Addressed<V>(saved: Saved<V>, delivery: Delivery<V>): seq<V> {
    saved.resume +
    if delivery.Mapped? && (saved.pending || saved.standing.Some?) then [delivery.value] else []
  }

  /** The value without an address: a new one replaces the standing one. */
  function Unaddressed<V>(saved: Saved<V>, delivery: Delivery<V>): Option<V> {
    if delivery.Null? then Some(delivery.value) else saved.standing
  }

  datatype Reply<V, Q> = Returned(value: V) | Raised(question: Q) | AssertionError

  class Scratchpad<V> {
    var counter: nat
    var resume: seq<V>
    var nullResume: Option<V>
    var sent: Option<seq<V>>

    constructor (addressed: seq<V>, unaddressed: Option<V>)
      ensures counter == 0 && sent == None && resume == addressed && nullResume == unaddressed
    {
      counter, resume, nullResume, sent := 0, addressed, unaddressed, None;
    }

    method Interrupt<Q>(question: Q) returns (reply: Reply<V, Q>)
      modifies this
      ensures counter == old(counter) + 1
      ensures old(counter) < old(|resume|) ==>
                resume == old(resume) && reply == Returned(resume[old(counter)]) &&
                nullResume == old(nullResume) && sent == Some(resume)
      ensures old(counter) >= old(|resume|) && old(nullResume).None? ==>
                reply == Raised(question) && resume == old(resume) && nullResume == None && sent == old(sent)
      ensures old(counter) == old(|resume|) && old(nullResume).Some? ==>
                reply == Returned(old(nullResume).value) && nullResume == None &&
                resume == old(resume) + [old(nullResume).value] && sent == Some(resume)
      ensures old(counter) > old(|resume|) && old(nullResume).Some? ==>
                reply == AssertionError && resume == old(resume) && nullResume == None && sent == old(sent)
    {
      var idx := counter;
      counter := counter + 1;
      if resume != [] {
        if idx < |resume| {
          sent := Some(resume);
          return Returned(resume[idx]);
        }
      }
      var v := nullResume;
      nullResume := None;
      if v.Some? {
        if |resume| != idx {
          return AssertionError;
        }
        resume := resume + [v.value];
        sent := Some(resume);
        return Returned(v.value);
      }
      return Raised(question);
    }
  }

  function Once<V>(value: Option<V>): seq<V> {
    if value.Some? then [value.value] else []
  }

  /** All the answers an invocation can give. */
  function Answers<V>(saved: Saved<V>, delivery: Delivery<V>): seq<V> {
    Addressed(saved, delivery) + Once(Unaddressed(saved, delivery))
  }

  /** One invocation: the node runs from its start; what it was asked and what it was told so far
      is replayed, and if it asks again the resume list sent last is what is stored. */
  method Invoke<V, Q, R>(node: Node<V, Q, R>, saved: Saved<V>, delivery: Delivery<V>)
    returns (outcome: Outcome<Q, R>, resume: seq<V>)
    ensures outcome == Direct(node, Answers(saved, delivery), 0) && !outcome.Crashed?
    ensures outcome.Waiting? ==> resume == Answers(saved, delivery)
  {
    ghost var given := Addressed(saved, delivery);
    ghost var last := Unaddressed(saved, delivery);
    var pad := new Scratchpad(Addressed(saved, delivery), Unaddressed(saved, delivery));
    ghost var answers := Answers(saved, delivery);
    var got: seq<V> := [];
    while true
      invariant pad.counter == |got| <= |answers| && got == answers[..|got|]
      invariant pad.resume == answers || (pad.resume == given && |got| <= |given| && pad.nullResume == last)
      invariant pad.resume == answers ==> pad.nullResume == None
      invariant pad.sent == (if got == [] then None else Some(pad.resume))
      invariant Direct(node, answers, 0) == Direct(node, answers, |got|)
      decreases |answers| - |got|
    {
      match node(got) {
        case Finish(result) =>
          return Done(result), saved.resume;
        case Ask(question) =>
          var reply := pad.Interrupt(question);
          match reply {
            case Returned(value) => got := got + [value];
            case Raised(q) => return Waiting(q), if pad.sent.Some? then pad.sent.value else saved.resume;
            case AssertionError => return Crashed, saved.resume;
          }
      }
    }
  }

  // ----------------------------------------------------------------- sessions

  /** One invocation of a session, and whether its writes are saved only on exit. */
  datatype Turn<V> = Turn(delivery: Delivery<V>, onExit: bool)

  /** What the checkpoint holds after a turn that paused. A value without an address is saved as it
      comes and stays there, used or not; writes saved on exit are without it, since it was used. */
  function Next<V>(saved: Saved<V>, turn: Turn<V>): Saved<V> {
    Saved(true, Answers(saved, turn.delivery),
          if turn.onExit then saved.standing else Unaddressed(saved, turn.delivery))
  }

  /** The same after `turns` that all paused in one step. */
  function After<V>(turns: seq<Turn<V>>): Saved<V> {
    if turns == [] then Saved(false, [], None)
    else Next(After(turns[..|turns| - 1]), turns[|turns| - 1])
  }

  lemma AfterTurn<V>(turns: seq<Turn<V>>, k: nat)
    requires k < |turns|
    ensures After(turns[..k + 1]) == Next(After(turns[..k]), turns[k])
  {
    assert turns[..k + 1][..k] == turns[..k];
  }

  /** How turn `k` should end: as a direct run on all the answers used so far. */
  function Expected<V, Q, R>(node: Node<V, Q, R>, turns: seq<Turn<V>>, k: nat): Outcome<Q, R>
    requires k < |turns|
  {
    Direct(node, After(turns[..k + 1]).resume, 0)
  }

  method TakeTurn<V, Q, R>(node: Node<V, Q, R>, saved: Saved<V>, turn: Turn<V>)
    returns (outcome: Outcome<Q, R>, saved': Saved<V>)
    ensures outcome == Direct(node, Next(saved, turn).resume, 0) && !outcome.Crashed?
    ensures outcome.Waiting? ==> saved' == Next(saved, turn)
  {
    var resume;
    outcome, resume := Invoke(node, saved, turn.delivery);
    saved' := Saved(true, resume, if turn.onExit then saved.standing else Unaddressed(saved, turn.delivery));
  }

  /** The outcomes are the expected ones, and all but the last wait. */
  ghost predicate AsExpected<V, Q, R>(node: Node<V, Q, R>, turns: seq<Turn<V>>, outcomes: seq<Outcome<Q, R>>) {
    |outcomes| <= |turns| &&
    (forall k :: 0 <= k < |outcomes| ==> outcomes[k] == Expected(node, turns, k) && !outcomes[k].Crashed?) &&
    (forall k :: 0 <= k < |outcomes| - 1 ==> outcomes[k].Waiting?)
  }

  lemma OneMore<V, Q, R>(
    node: Node<V, Q, R>, turns: seq<Turn<V>>, outcomes: seq<Outcome<Q, R>>, outcome: Outcome<Q, R>)
    requires AsExpected(node, turns, outcomes) && |outcomes| < |turns|
    requires outcomes != [] ==> outcomes[|outcomes| - 1].Waiting?
    requires outcome == Expected(node, turns, |outcomes|) && !outcome.Crashed?
    ensures AsExpected(node, turns, outcomes + [outcome])
  {}

  /** A session of invocations is indistinguishable from direct runs; it goes on until one returns. */
  method RunSession<V, Q, R>(node: Node<V, Q, R>, turns: seq<Turn<V>>) returns (outcomes: seq<Outcome<Q, R>>)
    ensures AsExpected(node, turns, outcomes)
    ensures |outcomes| < |turns| ==> outcomes != [] && outcomes[|outcomes| - 1].Done?
  {
    outcomes := [];
    var saved: Saved<V> := Saved(false, [], None);
    for i := 0 to |turns|
      invariant |outcomes| == i && saved == After(turns[..i])
      invariant AsExpected(node, turns, outcomes) && (i > 0 ==> outcomes[i - 1].Waiting?)
    {
      AfterTurn(turns, i);
      var outcome;
      outcome, saved := TakeTurn(node, saved, turns[i]);
      OneMore(node, turns, outcomes, outcome);
      outcomes := outcomes + [outcome];
      if outcome.Done? {
        return;
      }
    }
  }

  /** What the caller gave in one turn. */
  function GivenIn<V>(delivery: Delivery<V>): seq<V> {
    if delivery.Nothing? then [] else [delivery.value]
  }

  /** A turn that leaves its value behind. */
  predicate Leaves<V>(turn: Turn<V>) {
    turn.delivery.Null? && !turn.onExit
  }

  lemma {:induction false} StandsIff<V>(turns: seq<Turn<V>>)
    ensures After(turns).standing.Some? <==> exists j :: 0 <= j < |turns| && Leaves(turns[j])
    ensures After(turns).pending <==> turns != []
  {
    if turns != [] {
      var before := turns[..|turns| - 1];
      StandsIff(before);
      assert forall j :: 0 <= j < |before| ==> turns[j] == before[j];
      assert Leaves(turns[|turns| - 1]) ==> After(turns).standing.Some?;
    }
  }

  /** Turn `k` uses what the caller gave in it, and nothing else that is new. */
  ghost predicate UsesItsOwn<V>(turns: seq<Turn<V>>, k: nat)
    requires k < |turns|
  {
    After(turns[..k + 1]).resume == After(turns[..k]).resume + GivenIn(turns[k].delivery)
  }

  /** What has to hold of a turn for that: it brings a value without an address, or nothing was left
      behind before it and it is not a first one that addresses somebody. */
  predicate Fits<V>(turns: seq<Turn<V>>, k: nat)
    requires k < |turns|
  {
    turns[k].delivery.Null? ||
    ((forall j :: 0 <= j < k ==> !Leaves(turns[j])) && (k == 0 ==> turns[k].delivery.Nothing?))
  }

  lemma NextUsesIff<V>(saved: Saved<V>, delivery: Delivery<V>)
    ensures Answers(saved, delivery) == saved.resume + GivenIn(delivery) <==>
            delivery.Null? || (saved.standing.None? && (delivery.Mapped? ==> saved.pending))
  {
    assert saved.resume + [] == saved.resume;
    assert |Answers(saved, delivery)| == |Addressed(saved, delivery)| + |Once(Unaddressed(saved, delivery))|;
    if delivery.Mapped? {
      assert (saved.resume + [delivery.value]) + [] == saved.resume + [delivery.value];
    }
  }

  lemma UsesItsOwnIff<V>(turns: seq<Turn<V>>, k: nat)
    requires k < |turns|
    ensures UsesItsOwn(turns, k) <==> Fits(turns, k)
  {
    AfterTurn(turns, k);
    StandsIff(turns[..k]);
    NextUsesIff(After(turns[..k]), turns[k].delivery);
    assert forall j :: 0 <= j < k ==> turns[..k][j] == turns[j];
  }

  /** A session uses in each turn what was given in it exactly when each turn after one that leaves
      its value behind brings a new value without an address, and the first one addresses nobody. */
  lemma {:induction false} AnsweredAsGivenIff<V>(turns: seq<Turn<V>>)
    ensures (forall k | 0 <= k < |turns| :: UsesItsOwn(turns, k)) <==>
            (forall j, k :: 0 <= j < k < |turns| && Leaves(turns[j]) ==> turns[k].delivery.Null?) &&
            (turns != [] ==> !turns[0].delivery.Mapped?)
  {
    forall k | 0 <= k < |turns| ensures UsesItsOwn(turns, k) <==> Fits(turns, k) {
      UsesItsOwnIff(turns, k);
    }
    if forall k | 0 <= k < |turns| :: UsesItsOwn(turns, k) {
      forall j, k | 0 <= j < k < |turns| && Leaves(turns[j]) ensures turns[k].delivery.Null? {
        assert UsesItsOwn(turns, k);
      }
      assert turns != [] ==> UsesItsOwn(turns, 0);
    }
  }

  function GivenOnce<V>(a: V): seq<Turn<V>> {
    [Turn(Nothing, false), Turn(Null(a), false), Turn(Nothing, false)]
  }

  /** The failing input: a value given once answers the next question, too, when the caller
      invokes again without one. */
  lemma StaleAnswer<V>(a: V)
    ensures After(GivenOnce(a)[..2]).resume == [a] && After(GivenOnce(a)).resume == [a, a]
  {
    var turns := GivenOnce(a);
    AfterTurn(turns, 0);
    AfterTurn(turns, 1);
    AfterTurn(turns, 2);
    assert turns[..3] == turns;
  }

  /** A direct run pauses on `answers` exactly when the node asks one more question than it was
      told answers: every shorter history asks, too. */
  lemma {:induction false} DirectWaits<V, Q, R>(node: Node<V, Q, R>, answers: seq<V>, i: nat)
    requires i <= |answers|
    ensures Direct(node, answers, i).Waiting? <==> forall k :: i <= k <= |answers| ==> node(answers[..k]).Ask?
    ensures Direct(node, answers, i).Waiting? ==>
              node(answers).Ask? && Direct(node, answers, i) == Waiting(node(answers).question)
    decreases |answers| - i
  {
    assert answers[..|answers|] == answers;
    if node(answers[..i]).Ask? && i < |answers| {
      DirectWaits(node, answers, i + 1);
    }
  }
}
