/** Chaining of two futures, each on its own event loop or owned by threads
    (libs/langgraph/langgraph/_internal/_future.py). Callbacks are tickets that wait on the loop
    they were scheduled on; tickets of a thread-owned future may run at any time. */
module Futures {
  import opened Prelude

  /** A concurrent future is completed by threads, an asyncio future belongs to a loop. */
  datatype Home = Threads | Loop(id: nat)

  datatype ExcClass =
    | FuturesCancelled | FuturesTimeout | FuturesInvalidState
    | AsyncioCancelled | AsyncioTimeout | AsyncioInvalidState
    | StopIteration | RuntimeError
    | OtherException(name: string)

  datatype Outcome<V> = Result(value: V) | Raised(cls: ExcClass, args: V)

  datatype Status<V> = Pending | Running | Cancelled | Notified | Finished(outcome: Outcome<V>) {
    predicate Done() { Cancelled? || Notified? || Finished? }
    predicate IsCancelled() { Cancelled? || Notified? }
  }

  function ConvertClass(c: ExcClass): ExcClass {
    match c
    case FuturesCancelled => AsyncioCancelled
    case FuturesTimeout => AsyncioTimeout
    case FuturesInvalidState => AsyncioInvalidState
    case _ => c
  }

  function Convert<V>(o: Outcome<V>): Outcome<V> {
    match o
    case Result(_) => o
    case Raised(c, args) => Raised(ConvertClass(c), args)
  }

  /** What asyncio does when a future is given a StopIteration: up to Python 3.11 it refuses with a
      TypeError, from 3.12 on it stores a RuntimeError instead. */
  datatype Asyncio = Refuses | Replaces

  predicate Stops<V>(o: Outcome<V>) { o.Raised? && o.cls == StopIteration }

  /** The outcome that a future takes on when it is given `o`; None: it refuses. */
  function Accepted<V>(home: Home, asyncio: Asyncio, o: Outcome<V>): Option<Outcome<V>> {
    if home == Threads || !Stops(o) then Some(o)
    else if asyncio == Refuses then None
    else Some(Raised(RuntimeError, o.args))
  }

  // ------------------------------------------------- copying one future's state

  /** The effect of copying the state of a finished source; None: an error is raised instead. */
  function Copied<V>(home: Home, asyncio: Asyncio, dest: Status<V>, source: Status<V>): Option<Status<V>> {
    match home
    case Loop(_) =>
      if dest.Done() then Some(dest)
      else if !source.Done() then None
      else if source.IsCancelled() then Some(Cancelled)
      else
        var o := Accepted(home, asyncio, Convert(source.outcome));
        if o == None then None else Some(Finished(o.value))
    case Threads =>
      if !source.Done() then None
      else
        var d := if source.IsCancelled() && dest.Pending? then Cancelled else dest;
        if d.Cancelled? then Some(Notified)
        else if d.Pending? then Some(Finished(Convert(source.outcome)))
        else None
  }

  class Future<V> {
    const home: Home
    const asyncio: Asyncio
    var status: Status<V>

    constructor (home: Home, asyncio: Asyncio)
      ensures this.home == home && this.asyncio == asyncio && status == Pending
    {
      this.home, this.asyncio := home, asyncio;
      status := Pending;
    }

    method Cancel() returns (ok: bool)
      modifies this
      ensures ok == (old(status).Pending? || old(status).IsCancelled())
      ensures status == if old(status).Pending? then Cancelled else old(status)
    {
      if status.Pending? {
        status := Cancelled;
      }
      ok := status.IsCancelled();
    }

    /** Some(go ahead?), or None when the future is in no state to be started. */
    method SetRunningOrNotifyCancel() returns (go: Option<bool>)
      modifies this
      ensures old(status).Cancelled? ==> go == Some(false) && status == Notified
      ensures old(status).Pending? ==> go == Some(true) && status == Running
      ensures !old(status).Cancelled? && !old(status).Pending? ==> go == None && status == old(status)
    {
      match status {
        case Cancelled => status := Notified; go := Some(false);
        case Pending => status := Running; go := Some(true);
        case _ => go := None;
      }
    }

    /** `_set_concurrent_future_state`. */
    method SetFrom(source: Status<V>) returns (ok: bool)
      requires home == Threads
      modifies this
      ensures ok <==> Copied(home, asyncio, old(status), source).Some?
      ensures ok ==> status == Copied(home, asyncio, old(status), source).value
    {
      if !source.Done() {
        return false;
      }
      if source.IsCancelled() {
        var _ := Cancel();
      }
      var go := SetRunningOrNotifyCancel();
      match go {
        case None => return false;
        case Some(false) => return true;
        case Some(true) =>
      }
      status := Finished(Convert(source.outcome));
      ok := true;
    }

    /** `_copy_future_state`. */
    method CopyFrom(source: Status<V>) returns (ok: bool)
      requires home.Loop?
      modifies this
      ensures ok <==> Copied(home, asyncio, old(status), source).Some?
      ensures status == if ok then Copied(home, asyncio, old(status), source).value else old(status)
    {
      if status.Done() {
        return true;
      }
      if !source.Done() {
        return false;
      }
      if source.IsCancelled() {
        status := Cancelled;
        return true;
      }
      ok := SetOutcome(Convert(source.outcome));
    }

    /** `set_result` and `set_exception` of a future of a loop that is not done. */
    method SetOutcome(outcome: Outcome<V>) returns (ok: bool)
      requires home.Loop? && !status.Done()
      modifies this
      ensures ok <==> Accepted(home, asyncio, outcome).Some?
      ensures status == if ok then Finished(Accepted(home, asyncio, outcome).value) else old(status)
    {
      if Stops(outcome) {
        if asyncio == Refuses {
          return false;
        }
        status := Finished(Raised(RuntimeError, outcome.args));
      } else {
        status := Finished(outcome);
      }
      ok := true;
    }
  }

  // ------------------------------------------------------------- the protocol

  datatype Chain = Chain(source: Home, dest: Home, asyncio: Asyncio)

  /** What the chain hands on of an outcome of the source; None: the destination refuses it. */
  function Delivered<V>(c: Chain, o: Outcome<V>): Option<Outcome<V>> { Accepted(c.dest, c.asyncio, Convert(o)) }

  datatype Ticket = CallSetState | SetState | CheckCancel | CancelSource

  function Where(c: Chain, t: Ticket): Home {
    match t
    case CallSetState => c.source
    case CancelSource => c.source
    case SetState => c.dest
    case CheckCancel => c.dest
  }

  datatype State<V> = State(
    source: Status<V>,
    dest: Status<V>,
    tickets: multiset<Ticket>,
    closed: set<nat>,
    copied: bool,          // history: the copy of the state was carried out
    userCancelled: bool,   // history: a user cancelled the destination
    asked: bool,           // history: source.cancel() was called
    completions: nat,      // history: how often the destination became done
    fault: bool)           // history: the chain raised an error

  function Start<V>(): State<V> {
    State(Pending, Pending, multiset{}, {}, false, false, false, 0, false)
  }

  predicate Open<V>(s: State<V>, h: Home) { h.Loop? ==> h.id !in s.closed }

  predicate AllOpen<V>(c: Chain, s: State<V>) { Open(s, c.source) && Open(s, c.dest) }

  /** A callback is put on its loop. A closed loop takes none: where a user settles a future of a
      closed loop, the callback is lost, and the error is raised to that user. */
  function Schedule<V>(c: Chain, s: State<V>, t: Ticket): State<V> {
    if Open(s, Where(c, t)) then s.(tickets := s.tickets + multiset{t}) else s
  }

  function SettleSource<V>(c: Chain, s: State<V>, status: Status<V>): State<V> {
    Schedule(c, s.(source := status), CallSetState)
  }

  function SettleDest<V>(c: Chain, s: State<V>, status: Status<V>): State<V> {
    Schedule(c, s.(dest := status, completions := s.completions + 1), CheckCancel)
  }

  function DoSetState<V>(c: Chain, s: State<V>): State<V> {
    var r := Copied(c.dest, c.asyncio, s.dest, s.source);
    var s1 := s.(copied := true);
    if r == None then s1.(fault := true)
    else if r.value.Done() && !s.dest.Done() then SettleDest(c, s1, r.value)
    else s1.(dest := r.value)
  }

  function DoCallSetState<V>(c: Chain, s: State<V>): State<V> {
    if s.dest.IsCancelled() && c.dest.Loop? && !Open(s, c.dest) then s
    else if c.dest == Threads || c.dest == c.source then DoSetState(c, s)
    else Schedule(c, s, SetState)
  }

  /** `source.cancel()`; a running task or thread need not obey. */
  function DoCancelSource<V>(c: Chain, s: State<V>, obeys: bool): State<V> {
    var s1 := s.(asked := true);
    if s.source.Pending? && obeys then SettleSource(c, s1, Cancelled) else s1
  }

  /** The source's loop is not asked whether it is closed: `call_soon_threadsafe` raises if it is. */
  function DoCheckCancel<V>(c: Chain, s: State<V>, obeys: bool): State<V> {
    if !s.dest.IsCancelled() then s
    else if c.source == Threads || c.source == c.dest then DoCancelSource(c, s, obeys)
    else if !Open(s, c.source) then s.(fault := true)
    else Schedule(c, s, CancelSource)
  }

  /** What can happen. Users settle the source and cancel either side; only the chain itself gives the
      destination an outcome. `ClosesUnder` is the one window inside a callback: `_call_set_state` runs,
      finds the destination's loop open, and the loop closes before the copy is put on it. */
  datatype Event<V> =
    | SourceStarts
    | SourceSettles(status: Status<V>)
    | UserCancelsDest
    | Close(loop: nat)
    | Fire(ticket: Ticket, obeys: bool)
    | ClosesUnder

  /** A future of a loop never holds a StopIteration. */
  predicate Holds<V>(home: Home, o: Outcome<V>) { home.Loop? ==> !Stops(o) }

  predicate Enabled<V>(c: Chain, s: State<V>, e: Event<V>) {
    match e
    case SourceStarts => s.source == Pending
    case SourceSettles(status) =>
      && !s.source.Done() && (status.Finished? || (status.Cancelled? && s.source == Pending))
      && (status.Finished? ==> Holds(c.source, status.outcome))
    case UserCancelsDest => s.dest == Pending
    case Close(_) => true
    case Fire(t, _) => t in s.tickets && Open(s, Where(c, t))
    case ClosesUnder =>
      CallSetState in s.tickets && AllOpen(c, s) && c.dest.Loop? && c.dest != c.source
  }

  function Step<V>(c: Chain, s: State<V>, e: Event<V>): State<V>
    requires Enabled(c, s, e)
  {
    match e
    case SourceStarts => s.(source := Running)
    case SourceSettles(status) => SettleSource(c, s, status)
    case UserCancelsDest => SettleDest(c, s.(userCancelled := true), Cancelled)
    case Close(l) => s.(closed := s.closed + {l})
    case ClosesUnder =>
      s.(tickets := s.tickets - multiset{CallSetState}, closed := s.closed + {c.dest.id}, fault := true)
    case Fire(t, obeys) =>
      var s1 := s.(tickets := s.tickets - multiset{t});
      match t
      case CallSetState => DoCallSetState(c, s1)
      case SetState => DoSetState(c, s1)
      case CheckCancel => DoCheckCancel(c, s1, obeys)
      case CancelSource => DoCancelSource(c, s1, obeys)
  }

  ghost predicate Run<V>(c: Chain, s: State<V>, es: seq<Event<V>>, s': State<V>)
    decreases |es|
  {
    if es == [] then s' == s else Enabled(c, s, es[0]) && Run(c, Step(c, s, es[0]), es[1..], s')
  }

  // --------------------------------------------------------------- invariants

  function Bit(b: bool): nat { if b then 1 else 0 }

  /** The copy happens at most once, and only of a settled source. */
  ghost predicate CopyOnce<V>(s: State<V>) {
    && s.tickets[CallSetState] + s.tickets[SetState] + Bit(s.copied) <= 1
    && (s.tickets[CallSetState] + s.tickets[SetState] + Bit(s.copied) > 0 ==> s.source.Done())
  }

  /** The source has an outcome that the destination refuses. */
  predicate Refused<V>(c: Chain, s: State<V>) { s.source.Finished? && Delivered(c, s.source.outcome) == None }

  /** What a destination can look like, and why. */
  ghost predicate DestExplained<V>(c: Chain, s: State<V>) {
    && (s.dest == Pending || s.dest.Done())
    && (s.dest.Done() ==> s.userCancelled || s.copied)
    && (s.dest.Notified? ==> s.copied)
    && (s.dest.Finished? ==> s.source.Finished? && s.copied && Some(s.dest.outcome) == Delivered(c, s.source.outcome))
    && (s.dest.IsCancelled() ==> s.userCancelled || s.source.IsCancelled())
    && (s.userCancelled ==> s.dest.IsCancelled())
    && (s.copied ==> s.dest.Done() || Refused(c, s))
    && (s.source.Finished? ==> Holds(c.source, s.source.outcome))
    && !s.source.Notified?
    && s.completions == Bit(s.dest.Done())
  }

  /** While the loops are open nothing is forgotten. */
  ghost predicate NothingLost<V>(c: Chain, s: State<V>) {
    AllOpen(c, s) ==>
      && (s.source.Done() ==> s.tickets[CallSetState] + s.tickets[SetState] + Bit(s.copied) == 1)
      && (s.dest.IsCancelled() ==> s.asked || CheckCancel in s.tickets || CancelSource in s.tickets)
  }

  ghost predicate Inv<V>(c: Chain, s: State<V>) {
    CopyOnce(s) && DestExplained(c, s) && NothingLost(c, s)
  }

  lemma SetStateKeeps<V>(c: Chain, s: State<V>)
    requires DestExplained(c, s) && s.source.Done() && !s.copied
    requires s.tickets[CallSetState] + s.tickets[SetState] == 0
    requires AllOpen(c, s) && s.dest.IsCancelled() ==> s.asked || CheckCancel in s.tickets || CancelSource in s.tickets
    ensures Inv(c, DoSetState(c, s))
    ensures DoSetState(c, s).fault <==> s.fault || (Refused(c, s) && !s.dest.Done())
  {
    SetStateExplained(c, s);
    SetStateKeepsTickets(c, s);
  }

  lemma SetStateExplained<V>(c: Chain, s: State<V>)
    requires DestExplained(c, s) && s.source.Done() && !s.copied
    ensures DestExplained(c, DoSetState(c, s))
    ensures DoSetState(c, s).fault <==> s.fault || (Refused(c, s) && !s.dest.Done())
  {}

  lemma SetStateKeepsTickets<V>(c: Chain, s: State<V>)
    requires DestExplained(c, s) && s.source.Done() && !s.copied
    requires s.tickets[CallSetState] + s.tickets[SetState] == 0
    requires AllOpen(c, s) && s.dest.IsCancelled() ==> s.asked || CheckCancel in s.tickets || CancelSource in s.tickets
    ensures CopyOnce(DoSetState(c, s)) && NothingLost(c, DoSetState(c, s))
  {}

  lemma SettleSourceKeeps<V>(c: Chain, s: State<V>, status: Status<V>)
    requires Inv(c, s) && !s.source.Done() && (status.Finished? || status.Cancelled?)
    requires status.Finished? ==> Holds(c.source, status.outcome)
    ensures Inv(c, SettleSource(c, s, status)) && SettleSource(c, s, status).fault == s.fault
  {}

  lemma CancelSourceKeeps<V>(c: Chain, s: State<V>, obeys: bool)
    requires CopyOnce(s) && DestExplained(c, s) && NothingLost(c, s.(asked := true))
    ensures Inv(c, DoCancelSource(c, s, obeys)) && DoCancelSource(c, s, obeys).fault == s.fault
  {
    if s.source.Pending? && obeys {
      SettleSourceKeeps(c, s.(asked := true), Cancelled);
    }
  }

  function Taken<V>(s: State<V>, t: Ticket): State<V> { s.(tickets := s.tickets - multiset{t}) }

  lemma CallSetStateKeeps<V>(c: Chain, s: State<V>)
    requires Inv(c, s) && CallSetState in s.tickets && Open(s, Where(c, CallSetState))
    ensures var s' := DoCallSetState(c, Taken(s, CallSetState)); Inv(c, s') && s'.fault == s.fault
  {
    if c.dest == Threads || c.dest == c.source {
      SetStateKeeps(c, Taken(s, CallSetState));
    }
  }

  /** The cancellation is under way to the source's loop, or lost with it. */
  lemma PassOnKeeps<V>(c: Chain, s: State<V>)
    requires CopyOnce(s) && DestExplained(c, s) && NothingLost(c, s.(asked := true))
    ensures Inv(c, Schedule(c, s, CancelSource)) && Schedule(c, s, CancelSource).fault == s.fault
    ensures !Open(s, c.source) ==> Inv(c, s.(fault := true))
  {}

  lemma CheckCancelKeeps<V>(c: Chain, s: State<V>, obeys: bool)
    requires Inv(c, s) && CheckCancel in s.tickets && Open(s, Where(c, CheckCancel))
    ensures var s' := DoCheckCancel(c, Taken(s, CheckCancel), obeys);
      Inv(c, s') && (s'.fault <==> s.fault || CancelsOntoClosed(c, s))
  {
    var s1 := Taken(s, CheckCancel);
    if s1.dest.IsCancelled() {
      if c.source == Threads || c.source == c.dest {
        CancelSourceKeeps(c, s1, obeys);
      } else {
        PassOnKeeps(c, s1);
      }
    }
  }

  lemma UserCancelKeeps<V>(c: Chain, s: State<V>)
    requires Inv(c, s) && s.dest == Pending
    ensures var s' := SettleDest(c, s.(userCancelled := true), Cancelled); Inv(c, s') && s'.fault == s.fault
  {}

  /** A cancelled destination whose source is on another loop, and that loop is closed. */
  predicate CancelsOntoClosed<V>(c: Chain, s: State<V>) {
    s.dest.IsCancelled() && c.source != c.dest && !Open(s, c.source)
  }

  /** The three events in which the chain raises an error. */
  predicate Faulty<V>(c: Chain, s: State<V>, e: Event<V>) {
    || e.ClosesUnder?
    || (e.Fire? && e.ticket == CheckCancel && CancelsOntoClosed(c, s))
    || (e.Fire? && e.ticket == SetState && Refused(c, s) && !s.dest.Done())
  }

  lemma FireStep<V>(c: Chain, s: State<V>, t: Ticket, obeys: bool)
    requires Inv(c, s) && Enabled(c, s, Fire(t, obeys))
    ensures var s' := Step(c, s, Fire(t, obeys));
      Inv(c, s') && (s'.fault <==> s.fault || Faulty(c, s, Fire(t, obeys)))
  {
    match t
    case CallSetState => CallSetStateKeeps(c, s);
    case SetState => SetStateKeeps(c, Taken(s, t));
    case CheckCancel => CheckCancelKeeps(c, s, obeys);
    case CancelSource => CancelSourceKeeps(c, Taken(s, t), obeys);
  }

  /** Every step keeps the invariant, and raises an error exactly when it is one of those three. */
  lemma InvStep<V>(c: Chain, s: State<V>, e: Event<V>)
    requires Inv(c, s) && Enabled(c, s, e)
    ensures Inv(c, Step(c, s, e))
    ensures Step(c, s, e).fault <==> s.fault || Faulty(c, s, e)
  {
    match e
    case SourceStarts =>
    case SourceSettles(status) => SettleSourceKeeps(c, s, status);
    case UserCancelsDest => UserCancelKeeps(c, s);
    case Close(_) =>
    case Fire(t, obeys) => FireStep(c, s, t, obeys);
    case ClosesUnder =>
  }

  /** Some event of the run is one in which the chain raises an error. */
  ghost predicate MeetsFault<V>(c: Chain, s: State<V>, es: seq<Event<V>>, s': State<V>)
    requires Run(c, s, es, s')
    decreases |es|
  {
    es != [] && (Faulty(c, s, es[0]) || MeetsFault(c, Step(c, s, es[0]), es[1..], s'))
  }

  lemma {:induction false} RunInv<V>(c: Chain, s: State<V>, es: seq<Event<V>>, s': State<V>)
    requires Inv(c, s) && Run(c, s, es, s')
    ensures Inv(c, s')
    ensures s'.fault <==> s.fault || MeetsFault(c, s, es, s')
    decreases |es|
  {
    if es != [] {
      InvStep(c, s, es[0]);
      RunInv(c, Step(c, s, es[0]), es[1..], s');
    }
  }

  /** In every reachable state the destination was completed at most once, and what it holds is what
      it accepts of the source's converted outcome, or a cancellation that came from the source or from a user. */
  lemma ChainSafety<V>(c: Chain, es: seq<Event<V>>, s: State<V>)
    requires Run(c, Start(), es, s)
    ensures s.completions <= 1
    ensures s.dest.Done() <==> s.completions == 1
    ensures s.dest.Finished? ==> s.source.Finished? && Some(s.dest.outcome) == Delivered(c, s.source.outcome)
    ensures s.dest.IsCancelled() ==> s.userCancelled || s.source.IsCancelled()
    ensures s.userCancelled ==> s.dest.IsCancelled()
  {
    RunInv(c, Start(), es, s);
  }

  /** A future of a loop is touched by callbacks that run on its own loop only. */
  lemma TouchedAtHome<V>(c: Chain, s: State<V>, t: Ticket, obeys: bool)
    requires Enabled(c, s, Fire(t, obeys))
    ensures c.dest.Loop? && Step(c, s, Fire(t, obeys)).dest != s.dest ==> Where(c, t) == c.dest && Open(s, c.dest)
    ensures c.source.Loop? && Step(c, s, Fire(t, obeys)).source != s.source ==>
              Where(c, t) == c.source && Open(s, c.source)
  {
    match t
    case CallSetState => CopyingLeavesSource(c, Taken(s, t));
    case SetState => CopyingLeavesSource(c, Taken(s, t));
    case CheckCancel =>
    case CancelSource =>
  }

  /** A source that has been started runs on, whatever the chain asks of it. */
  lemma StartedResists<V>(c: Chain, s: State<V>, e: Event<V>)
    requires Enabled(c, s, e)
    ensures e.SourceStarts? ==> Step(c, s, e).source == Running
    ensures e.Fire? && s.source == Running ==> Step(c, s, e).source == Running
  {
    if e.Fire? && s.source == Running {
      match e.ticket
      case CallSetState => CopyingLeavesSource(c, Taken(s, CallSetState));
      case SetState => CopyingLeavesSource(c, Taken(s, SetState));
      case CheckCancel =>
      case CancelSource =>
    }
  }

  // --------------------------------------------------------- errors of the chain

  /** In a run the chain raises an error exactly when the cancellation of the destination is passed on
      after the source's loop was closed, the destination's loop closes under a copy on its way, or a
      destination that is not done is given an outcome it refuses. */
  lemma FaultIff<V>(c: Chain, es: seq<Event<V>>, s: State<V>)
    requires Run(c, Start(), es, s)
    ensures s.fault <==> MeetsFault(c, Start(), es, s)
  {
    RunInv(c, Start(), es, s);
  }

  ghost predicate NeverFaults<V(!new)>(c: Chain) {
    forall es: seq<Event<V>>, s: State<V> :: Run(c, Start(), es, s) ==> !s.fault
  }

  /** No run has an error, provided no loop closes in the middle of a callback. */
  ghost predicate NeverFaultsBetween<V(!new)>(c: Chain) {
    forall es: seq<Event<V>>, s: State<V> :: Run(c, Start(), es, s) && ClosesUnder !in es ==> !s.fault
  }

  predicate SettlesWithStop<V>(e: Event<V>) { e.SourceSettles? && e.status.Finished? && Stops(e.status.outcome) }

  /** The same, if moreover the source does not end in a StopIteration. */
  ghost predicate NeverFaultsPlainly<V(!new)>(c: Chain) {
    forall es: seq<Event<V>>, s: State<V> ::
      Run(c, Start(), es, s) && ClosesUnder !in es && (forall e :: e in es ==> !SettlesWithStop(e)) ==> !s.fault
  }

  lemma RunCons<V>(c: Chain, s: State<V>, e: Event<V>, es: seq<Event<V>>, s': State<V>)
    requires Enabled(c, s, e) && Run(c, Step(c, s, e), es, s')
    ensures Run(c, s, [e] + es, s')
  {
    assert ([e] + es)[1..] == es;
  }

  /** The source's loop closes, a user cancels the destination, and passing that on raises: the source
      is never asked, and nothing is left that would ask it. */
  lemma LostCancellation<V>(c: Chain) returns (es: seq<Event<V>>, s: State<V>)
    requires c.source.Loop? && c.source != c.dest
    ensures Run(c, Start(), es, s) && ClosesUnder !in es && forall e :: e in es ==> !SettlesWithStop(e)
    ensures s.fault && s.dest == Cancelled && s.source == Pending && !s.asked && s.tickets == multiset{}
  {
    var e0, e1, e2 := Close(c.source.id), UserCancelsDest, Fire(CheckCancel, true);
    var s0: State<V> := Start();
    var s1 := Step(c, s0, e0);
    var s2 := Step(c, s1, e1);
    assert s2.tickets == multiset{CheckCancel};
    s := Step(c, s2, e2);
    RunCons(c, s2, e2, [], s);
    RunCons(c, s1, e1, [e2], s);
    RunCons(c, s0, e0, [e1] + [e2], s);
    es := [e0] + ([e1] + [e2]);
  }

  /** The source is done while the destination's loop closes under the copy. */
  lemma LostCopy<V>(c: Chain) returns (es: seq<Event<V>>, s: State<V>)
    requires c.dest.Loop? && c.source != c.dest
    ensures Run(c, Start(), es, s) && s.fault && s.source.Done() && s.dest == Pending
  {
    var e0, e1 := SourceSettles(Cancelled), ClosesUnder;
    var s0: State<V> := Start();
    var s1 := Step(c, s0, e0);
    assert CallSetState in s1.tickets;
    s := Step(c, s1, e1);
    RunCons(c, s1, e1, [], s);
    RunCons(c, s0, e0, [e1], s);
    es := [e0] + [e1];
  }

  /** A thread's work raises StopIteration, and the destination, on a loop, refuses it: it stays
      pending for good, although every loop is open and no callback is left. */
  lemma RefusedCopy<V>(c: Chain, args: V) returns (es: seq<Event<V>>, s: State<V>)
    requires c.source == Threads && c.dest.Loop? && c.asyncio == Refuses
    ensures Run(c, Start(), es, s) && ClosesUnder !in es && AllOpen(c, s)
    ensures s.fault && s.source == Finished(Raised(StopIteration, args)) && s.dest == Pending && s.tickets == multiset{}
  {
    var e0 := SourceSettles(Finished(Raised(StopIteration, args)));
    var e1, e2 := Fire(CallSetState, true), Fire(SetState, true);
    var s0: State<V> := Start();
    var s1 := Step(c, s0, e0);
    assert s1.tickets == multiset{CallSetState};
    var s2 := Step(c, s1, e1);
    assert s2.tickets == multiset{SetState};
    s := Step(c, s2, e2);
    RunCons(c, s2, e2, [], s);
    RunCons(c, s1, e1, [e2], s);
    RunCons(c, s0, e0, [e1] + [e2], s);
    es := [e0] + ([e1] + [e2]);
  }

  /** A callback leaves the source alone or cancels it. */
  lemma FiringSource<V>(c: Chain, s: State<V>, t: Ticket, obeys: bool)
    requires Enabled(c, s, Fire(t, obeys))
    ensures var source := Step(c, s, Fire(t, obeys)).source; source == s.source || source == Cancelled
  {
    match t
    case CallSetState =>
    case SetState =>
    case CheckCancel =>
    case CancelSource =>
  }

  /** Only the source's settling makes an outcome that is refused. */
  lemma RefusedStep<V>(c: Chain, s: State<V>, e: Event<V>)
    requires Enabled(c, s, e) && Refused(c, Step(c, s, e))
    ensures Refused(c, s) || SettlesWithStop(e)
  {
    if e.Fire? {
      FiringSource(c, s, e.ticket, e.obeys);
    }
  }

  lemma {:induction false} OnlyTheseFault<V>(c: Chain, s: State<V>, es: seq<Event<V>>, s': State<V>)
    requires Inv(c, s) && Run(c, s, es, s') && MeetsFault(c, s, es, s')
    ensures c.source != c.dest
    ensures || ClosesUnder in es || c.source.Loop?
            || (c.asyncio == Refuses && (Refused(c, s) || exists e :: e in es && SettlesWithStop(e)))
    decreases |es|
  {
    var t := Step(c, s, es[0]);
    assert es[0] in es && forall e :: e in es[1..] ==> e in es;
    if !Faulty(c, s, es[0]) {
      InvStep(c, s, es[0]);
      OnlyTheseFault(c, t, es[1..], s');
      if Refused(c, t) {
        RefusedStep(c, s, es[0]);
      }
    }
  }

  lemma FaultsOnlyThus<V(!new)>(c: Chain)
    ensures forall es: seq<Event<V>>, s: State<V> :: Run(c, Start(), es, s) && s.fault ==>
      && c.source != c.dest
      && (ClosesUnder in es || c.source.Loop? || (c.asyncio == Refuses && exists e :: e in es && SettlesWithStop(e)))
  {
    forall es: seq<Event<V>>, s: State<V> | Run(c, Start(), es, s) && s.fault
      ensures c.source != c.dest
      ensures ClosesUnder in es || c.source.Loop? || (c.asyncio == Refuses && exists e :: e in es && SettlesWithStop(e))
    {
      FaultIff(c, es, s);
      OnlyTheseFault(c, Start(), es, s);
    }
  }

  /** A chain never raises an error if and only if both futures belong to the same loop, or to threads.
      With each callback taken as one step, also if the source belongs to threads and asyncio replaces
      a StopIteration; and where none occurs, whenever the source belongs to threads. */
  lemma NeverFaultsIff<V(!new)>(c: Chain, args: V)
    ensures NeverFaults<V>(c) <==> c.source == c.dest
    ensures NeverFaultsBetween<V>(c) <==> c.source == c.dest || (c.source == Threads && c.asyncio == Replaces)
    ensures NeverFaultsPlainly<V>(c) <==> c.source == c.dest || c.source == Threads
  {
    FaultsOnlyThus<V>(c);
    if c.source.Loop? && c.source != c.dest {
      var es, s := LostCancellation<V>(c);
    } else if c.source != c.dest {
      var es, s := LostCopy<V>(c);
      if c.asyncio == Refuses {
        var fs, t := RefusedCopy(c, args);
      }
    }
  }

  // ------------------------------------------------------------------ delivery

  /** No callback is left that could still run. */
  ghost predicate Quiet<V>(c: Chain, s: State<V>) {
    forall t :: t in s.tickets ==> !Open(s, Where(c, t))
  }

  /** Once everything scheduled has run on open loops: a settled source has settled the destination in
      its own image, unless a user had cancelled it or it refuses the outcome; it is done exactly if
      one did or it does not; and a user's cancellation has been passed on to the source. */
  lemma ChainDelivers<V>(c: Chain, es: seq<Event<V>>, s: State<V>)
    requires Run(c, Start(), es, s) && Quiet(c, s) && AllOpen(c, s)
    ensures s.source.Done() ==> (s.dest.Done() <==> s.userCancelled || !Refused(c, s))
    ensures s.source.Finished? && !s.userCancelled && !Refused(c, s) ==>
            s.dest == Finished(Delivered(c, s.source.outcome).value)
    ensures s.source.IsCancelled() ==> s.dest.IsCancelled()
    ensures s.userCancelled ==> s.asked
    ensures s.dest.Done() ==> s.source.Done() || s.userCancelled
  {
    RunInv(c, Start(), es, s);
    assert forall t: Ticket :: Open(s, Where(c, t));
  }

  /** A result of the source arrives as it is. */
  lemma ResultArrives<V>(c: Chain, es: seq<Event<V>>, s: State<V>, value: V)
    requires Run(c, Start(), es, s) && Quiet(c, s) && AllOpen(c, s) && !s.userCancelled
    requires s.source == Finished(Result(value))
    ensures s.dest == Finished(Result(value))
  {
    ChainDelivers(c, es, s);
  }

  /** An exception of the source arrives with its arguments: as asyncio's class of that kind if it is
      one of the three of concurrent.futures, else in its own class. */
  lemma ExceptionArrives<V>(c: Chain, es: seq<Event<V>>, s: State<V>, cls: ExcClass, args: V)
    requires Run(c, Start(), es, s) && Quiet(c, s) && AllOpen(c, s) && !s.userCancelled
    requires s.source == Finished(Raised(cls, args)) && cls != StopIteration
    ensures exists arrived :: s.dest == Finished(Raised(arrived, args)) &&
              (cls == FuturesCancelled ==> arrived == AsyncioCancelled) &&
              (cls == FuturesTimeout ==> arrived == AsyncioTimeout) &&
              (cls == FuturesInvalidState ==> arrived == AsyncioInvalidState) &&
              (cls !in {FuturesCancelled, FuturesTimeout, FuturesInvalidState} ==> arrived == cls)
  {
    ChainDelivers(c, es, s);
    assert s.dest == Finished(Raised(s.dest.outcome.cls, args));
  }

  /** A StopIteration, which only threads can end in, arrives at threads as it is. A loop gets a
      RuntimeError with the same arguments, or its future is left pending. */
  lemma StopArrives<V>(c: Chain, es: seq<Event<V>>, s: State<V>, args: V)
    requires Run(c, Start(), es, s) && Quiet(c, s) && AllOpen(c, s) && !s.userCancelled
    requires s.source == Finished(Raised(StopIteration, args))
    ensures c.source == Threads
    ensures c.dest == Threads ==> s.dest == Finished(Raised(StopIteration, args))
    ensures c.dest.Loop? && c.asyncio == Replaces ==> s.dest == Finished(Raised(RuntimeError, args))
    ensures c.dest.Loop? && c.asyncio == Refuses ==> s.dest == Pending
  {
    ChainDelivers(c, es, s);
    RunInv(c, Start(), es, s);
  }

  /** Nobody settles or starts the source, and every callback that cancels it is obeyed. */
  ghost predicate Unresisted<V>(es: seq<Event<V>>) {
    forall e :: e in es ==> !e.SourceStarts? && !e.SourceSettles? && (e.Fire? ==> e.obeys)
  }

  /** The source is cancelled if it was asked. */
  predicate Obeyed<V>(s: State<V>) { s.source == Cancelled || (s.source == Pending && !s.asked) }

  lemma CopyingLeavesSource<V>(c: Chain, s: State<V>)
    ensures DoSetState(c, s).source == s.source && DoSetState(c, s).asked == s.asked
    ensures DoCallSetState(c, s).source == s.source && DoCallSetState(c, s).asked == s.asked
  {}

  lemma CancellingObeyed<V>(c: Chain, s: State<V>)
    requires Obeyed(s)
    ensures Obeyed(DoCancelSource(c, s, true)) && Obeyed(DoCheckCancel(c, s, true))
  {}

  lemma ObeyedStep<V>(c: Chain, s: State<V>, e: Event<V>)
    requires Enabled(c, s, e) && !e.SourceStarts? && !e.SourceSettles? && (e.Fire? ==> e.obeys) && Obeyed(s)
    ensures Obeyed(Step(c, s, e))
  {
    match e
    case Fire(CallSetState, _) => CopyingLeavesSource(c, Taken(s, CallSetState));
    case Fire(SetState, _) => CopyingLeavesSource(c, Taken(s, SetState));
    case Fire(CheckCancel, _) => CancellingObeyed(c, Taken(s, CheckCancel));
    case Fire(CancelSource, _) => CancellingObeyed(c, Taken(s, CancelSource));
    case _ =>
  }

  lemma {:induction false} AskedIsCancelled<V>(c: Chain, s: State<V>, es: seq<Event<V>>, s': State<V>)
    requires Run(c, s, es, s') && Unresisted(es) && Obeyed(s)
    ensures Obeyed(s')
    decreases |es|
  {
    if es != [] {
      assert es[0] in es && forall e :: e in es[1..] ==> e in es;
      ObeyedStep(c, s, es[0]);
      AskedIsCancelled(c, Step(c, s, es[0]), es[1..], s');
    }
  }

  /** A user's cancellation that nobody resists cancels both sides, once the callbacks have run. */
  lemma CancellationArrives<V>(c: Chain, es: seq<Event<V>>, s: State<V>)
    requires Run(c, Start(), es, s) && Quiet(c, s) && AllOpen(c, s) && Unresisted(es)
    requires s.userCancelled
    ensures s.source == Cancelled && s.dest.IsCancelled()
  {
    ChainDelivers(c, es, s);
    ChainSafety(c, es, s);
    AskedIsCancelled(c, Start(), es, s);
  }

  function Weight(t: Ticket): nat {
    if t == CallSetState || t == CheckCancel then 2 else 1
  }

  function Queued(ts: multiset<Ticket>): nat {
    2 * ts[CallSetState] + ts[SetState] + 2 * ts[CheckCancel] + ts[CancelSource]
  }

  /** Work left: every callback that fires uses some up, so the callbacks run out by themselves. */
  function Work<V>(s: State<V>): nat {
    (if s.source.Done() then 0 else 2) + (if s.dest.Done() then 0 else 2) + Queued(s.tickets)
  }

  lemma QueuedPlus(ts: multiset<Ticket>, t: Ticket)
    ensures Queued(ts + multiset{t}) == Queued(ts) + Weight(t)
    ensures t in ts ==> Queued(ts - multiset{t}) == Queued(ts) - Weight(t)
  {
    assert forall t' :: (ts + multiset{t})[t'] == ts[t'] + Bit(t' == t);
    assert t in ts ==> forall t' :: (ts - multiset{t})[t'] == ts[t'] - Bit(t' == t);
  }

  lemma WorkOfSchedule<V>(c: Chain, s: State<V>, t: Ticket)
    ensures Work(Schedule(c, s, t)) <= Work(s) + Weight(t)
  {
    QueuedPlus(s.tickets, t);
  }

  lemma WorkOfSettleDest<V>(c: Chain, s: State<V>, status: Status<V>)
    requires !s.dest.Done() && status.Done()
    ensures Work(SettleDest(c, s, status)) <= Work(s)
  {
    WorkOfSchedule(c, s.(dest := status, completions := s.completions + 1), CheckCancel);
  }

  lemma WorkOfSetState<V>(c: Chain, s: State<V>)
    ensures Work(DoSetState(c, s)) <= Work(s)
  {
    var r := Copied(c.dest, c.asyncio, s.dest, s.source);
    if r.Some? && r.value.Done() && !s.dest.Done() {
      WorkOfSettleDest(c, s.(copied := true), r.value);
    }
  }

  lemma WorkOfCancelSource<V>(c: Chain, s: State<V>, obeys: bool)
    ensures Work(DoCancelSource(c, s, obeys)) <= Work(s)
  {
    if s.source.Pending? && obeys {
      WorkOfSchedule(c, s.(asked := true, source := Cancelled), CallSetState);
    }
  }

  lemma WorkOfCallSetState<V>(c: Chain, s: State<V>)
    ensures Work(DoCallSetState(c, s)) <= Work(s) + 1
  {
    WorkOfSetState(c, s);
    WorkOfSchedule(c, s, SetState);
  }

  lemma WorkOfCheckCancel<V>(c: Chain, s: State<V>, obeys: bool)
    ensures Work(DoCheckCancel(c, s, obeys)) <= Work(s) + 1
  {
    WorkOfCancelSource(c, s, obeys);
    WorkOfSchedule(c, s, CancelSource);
  }

  lemma WorkOfFiring<V>(s: State<V>, t: Ticket)
    requires t in s.tickets
    ensures Work(Taken(s, t)) == Work(s) - Weight(t)
  {
    QueuedPlus(s.tickets, t);
  }

  /** A callback that runs, whether or not it raises, leaves less work. */
  lemma FiringEnds<V>(c: Chain, s: State<V>, e: Event<V>)
    requires Enabled(c, s, e) && (e.Fire? || e.ClosesUnder?)
    ensures Work(Step(c, s, e)) < Work(s)
  {
    if e.ClosesUnder? {
      WorkOfFiring(s, CallSetState);
    } else {
      var s1 := Taken(s, e.ticket);
      WorkOfFiring(s, e.ticket);
      match e.ticket
      case CallSetState => WorkOfCallSetState(c, s1);
      case SetState => WorkOfSetState(c, s1);
      case CheckCancel => WorkOfCheckCancel(c, s1, e.obeys);
      case CancelSource => WorkOfCancelSource(c, s1, e.obeys);
    }
  }

  /** Converting twice is converting once. */
  lemma ConvertTwice<V>(o: Outcome<V>)
    ensures Convert(Convert(o)) == Convert(o)
    ensures Stops(Convert(o)) <==> Stops(o)
  {}

  /** A chain onto the destination of another chain delivers what one chain from end to end would,
      except that a loop in the middle does not let a StopIteration through to threads. */
  lemma ChainOfChains<V>(c: Chain, es: seq<Event<V>>, s: State<V>, d: Chain, fs: seq<Event<V>>, t: State<V>)
    requires Run(c, Start(), es, s) && Run(d, Start(), fs, t) && t.source == s.dest
    requires c.dest == d.source && c.asyncio == d.asyncio && t.dest.Finished?
    ensures s.source.Finished?
    ensures Some(t.dest.outcome) == Delivered(Chain(c.source, d.dest, c.asyncio), s.source.outcome) <==>
            !(Stops(s.source.outcome) && c.dest.Loop? && d.dest == Threads)
    ensures !Stops(s.source.outcome) ==> t.dest.outcome == Convert(s.source.outcome)
  {
    ChainSafety(c, es, s);
    ChainSafety(d, fs, t);
    ConvertTwice(s.source.outcome);
  }
}
