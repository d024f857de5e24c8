/** The blocking queue of the runner (libs/langgraph/langgraph/_internal/_queue.py): a deque next to
    a semaphore that has an extra `wait`. Every lock-protected section, `deque.append` and
    `deque.popleft` is one step; threads interleave their steps in any order. */
module SyncQueue {
  import opened Prelude

  type Tid = nat

  datatype Call = Get | Wait

  /** Where a thread stands. A timed sleeper may wake by itself and may give up. */
  datatype Place =
    | Idle
    | Appended                       // put: item appended, semaphore not yet released
    | Acquired                       // get: semaphore acquired, item not yet popped
    | Asleep(call: Call, timed: bool)  // inside Condition.wait
    | Woken(call: Call, timed: bool)   // notified or timed out, value not yet looked at again

  datatype State<T> = State(
    queue: seq<T>,
    value: nat,
    places: map<Tid, Place>,
    sleepers: seq<Tid>,              // waiters of the condition, first come first served
    appended: seq<T>,                // history: every item ever put
    popped: seq<T>,                  // history: every item ever returned by a get
    missed: bool)                    // some popleft found the deque empty

  datatype Event<T> =
    | Append(t: Tid, item: T)
    | Release(t: Tid)
    | GetNow(t: Tid)                                 // get(block=False)
    | GetBlocking(t: Tid, timed: bool)
    | WaitNow(t: Tid)                                // wait(block=False)
    | WaitBlocking(t: Tid, timed: bool)
    | TimeOut(t: Tid)
    | Recheck(t: Tid, giveUp: bool)                  // back in the `while self._value == 0` loop
    | Pop(t: Tid)

  function Start<T>(): State<T> { State([], 0, map[], [], [], [], false) }

  function At<T>(s: State<T>, t: Tid): Place {
    if t in s.places then s.places[t] else Idle
  }

  function Move<T>(s: State<T>, t: Tid, p: Place): State<T> {
    s.(places := s.places[t := p])
  }

  /** Which threads may block in `get`, and which in `wait`. Everyone may put, poll and pop. */
  datatype Usage = Usage(getters: set<Tid>, waiters: set<Tid>)

  predicate Enabled<T>(u: Usage, s: State<T>, e: Event<T>) {
    match e
    case Append(t, _) => At(s, t) == Idle
    case Release(t) => At(s, t) == Appended
    case GetNow(t) => At(s, t) == Idle
    case GetBlocking(t, _) => At(s, t) == Idle && t in u.getters
    case WaitNow(t) => At(s, t) == Idle
    case WaitBlocking(t, _) => At(s, t) == Idle && t in u.waiters
    case TimeOut(t) => At(s, t).Asleep? && At(s, t).timed
    case Recheck(t, giveUp) => At(s, t).Woken? && (giveUp ==> At(s, t).timed)
    case Pop(t) => At(s, t) == Acquired
  }

  function Without(ts: seq<Tid>, t: Tid): seq<Tid> {
    if ts == [] then [] else if ts[0] == t then ts[1..] else [ts[0]] + Without(ts[1..], t)
  }

  function Sleep<T>(s: State<T>, t: Tid, call: Call, timed: bool): State<T> {
    Move(s, t, Asleep(call, timed)).(sleepers := s.sleepers + [t])
  }

  /** `Condition.notify()`: the first sleeper, if any, is woken. */
  function Notify<T>(s: State<T>): State<T> {
    if s.sleepers == [] then s
    else
      var t := s.sleepers[0];
      var p := At(s, t);
      Move(s, t, if p.Asleep? then Woken(p.call, p.timed) else p).(sleepers := s.sleepers[1..])
  }

  function Apply<T>(u: Usage, s: State<T>, e: Event<T>): State<T>
    requires Enabled(u, s, e)
  {
    match e
    case Append(t, item) =>
      Move(s, t, Appended).(queue := s.queue + [item], appended := s.appended + [item])
    case Release(t) =>
      Notify(Move(s, t, Idle).(value := s.value + 1))
    case GetNow(t) =>
      if s.value == 0 then s else Move(s, t, Acquired).(value := s.value - 1)
    case GetBlocking(t, timed) =>
      if s.value == 0 then Sleep(s, t, Get, timed) else Move(s, t, Acquired).(value := s.value - 1)
    case WaitNow(t) =>
      s
    case WaitBlocking(t, timed) =>
      if s.value == 0 then Sleep(s, t, Wait, timed) else s
    case TimeOut(t) =>
      Move(s, t, Woken(At(s, t).call, true)).(sleepers := Without(s.sleepers, t))
    case Recheck(t, giveUp) =>
      var p := At(s, t);
      if s.value == 0 then
        if giveUp then Move(s, t, Idle) else Sleep(s, t, p.call, p.timed)
      else if p.call == Get then Move(s, t, Acquired).(value := s.value - 1)
      else Move(s, t, Idle)
    case Pop(t) =>
      if s.queue == [] then Move(s, t, Idle).(missed := true)
      else Move(s, t, Idle).(queue := s.queue[1..], popped := s.popped + [s.queue[0]])
  }

  /** A run of the protocol: each event is enabled where it happens. */
  ghost predicate Run<T>(u: Usage, s: State<T>, es: seq<Event<T>>, s': State<T>)
    decreases |es|
  {
    if es == [] then s' == s
    else Enabled(u, s, es[0]) && Run(u, Apply(u, s, es[0]), es[1..], s')
  }

  ghost predicate Reachable<T(!new)>(u: Usage, s: State<T>) {
    exists es: seq<Event<T>> :: Run(u, Start(), es, s)
  }

  // ------------------------------------------------------------------ safety

  /** Kinds of places whose threads are counted. */
  datatype Kind = Releasing | Popping | Awake

  predicate Is(k: Kind, p: Place) {
    match k
    case Releasing => p == Appended
    case Popping => p == Acquired
    case Awake => p.Woken?
  }

  function Those<T>(s: State<T>, k: Kind): set<Tid> { set t | t in s.places && Is(k, s.places[t]) }

  function Heads<T>(s: State<T>, k: Kind): nat { |Those(s, k)| }

  function Bit(b: bool): nat { if b then 1 else 0 }

  /** Each queued item is accounted for by a permit: free, on its way in, or on its way out. */
  ghost predicate Balanced<T>(s: State<T>) {
    |s.queue| == s.value + Heads(s, Releasing) + Heads(s, Popping)
  }

  ghost predicate InOrder<T>(s: State<T>) {
    s.popped + s.queue == s.appended
  }

  ghost predicate SleepersListed<T>(s: State<T>) {
    && Distinct(s.sleepers)
    && forall t :: t in s.sleepers <==> At(s, t).Asleep?
  }

  lemma MoveAt<T>(s: State<T>, t: Tid, p: Place)
    ensures forall x :: At(Move(s, t, p), x) == if x == t then p else At(s, x)
  {}

  /** Moving one thread changes a head count by that thread only. */
  lemma MoveHeads<T>(s: State<T>, t: Tid, p: Place, k: Kind)
    ensures Heads(Move(s, t, p), k) + Bit(Is(k, At(s, t))) == Heads(s, k) + Bit(Is(k, p))
  {
    var before, after := Those(s, k), Those(Move(s, t, p), k);
    assert forall x :: x in after <==> if x == t then Is(k, p) else x in before;
    assert t in before <==> Is(k, At(s, t));
    CardStep(before, after, t);
  }

  lemma CardStep<A>(before: set<A>, after: set<A>, t: A)
    requires forall x :: x != t ==> (x in after <==> x in before)
    ensures |after| + Bit(t in before) == |before| + Bit(t in after)
  {
    assert before - {t} == after - {t};
    assert |before| == |before - {t}| + Bit(t in before);
    assert |after| == |after - {t}| + Bit(t in after);
  }

  lemma SomeHead<T>(s: State<T>, t: Tid, k: Kind)
    requires Is(k, At(s, t))
    ensures Heads(s, k) > 0
  {
    assert t in Those(s, k);
  }

  lemma NoHead<T>(s: State<T>, k: Kind)
    requires forall t :: !Is(k, At(s, t))
    ensures Heads(s, k) == 0
  {
    assert forall t :: t in Those(s, k) ==> Is(k, At(s, t));
    assert Those(s, k) == {};
  }

  /** Waking the first sleeper changes that thread only. */
  lemma NotifyHeads<T>(s: State<T>, k: Kind)
    requires SleepersListed(s)
    ensures Heads(Notify(s), k) == Heads(s, k) + Bit(k == Awake && s.sleepers != [])
    ensures forall x :: !At(s, x).Asleep? ==> At(Notify(s), x) == At(s, x)
  {
    SleepersNotify(s);
    if s.sleepers != [] {
      var h := s.sleepers[0];
      var p := Woken(At(s, h).call, At(s, h).timed);
      MoveHeads(s, h, p, k);
      MoveAt(s, h, p);
      assert Those(Notify(s), k) == Those(Move(s, h, p), k);
    }
  }

  lemma ReleaseHeads<T>(u: Usage, s: State<T>, e: Event<T>, k: Kind)
    requires e.Release? && Enabled(u, s, e) && SleepersListed(s)
    ensures var s', t := Apply(u, s, e), e.t;
            && At(s', t) == Idle
            && Heads(s', k) + Bit(Is(k, At(s, t))) == Heads(s, k) + Bit(k == Awake && s.sleepers != [])
  {
    var t := e.t;
    var r := Move(s, t, Idle).(value := s.value + 1);
    MoveHeads(s, t, Idle, k);
    MoveAt(s, t, Idle);
    SleepersMove(s, t, Idle);
    assert Those(r, k) == Those(Move(s, t, Idle), k);
    assert At(r, t) == Idle && !Is(k, Idle);
    NotifyHeads(r, k);
  }

  /** The whole effect of one event on a head count: at most two threads move. */
  lemma HeadsStep<T>(u: Usage, s: State<T>, e: Event<T>, k: Kind)
    requires Enabled(u, s, e) && SleepersListed(s)
    ensures var s', t := Apply(u, s, e), e.t;
            Heads(s', k) + Bit(Is(k, At(s, t))) ==
            Heads(s, k) + Bit(Is(k, At(s', t))) + Bit(k == Awake && e.Release? && s.sleepers != [])
  {
    if e.Release? {
      ReleaseHeads(u, s, e, k);
    } else {
      var s' := Apply(u, s, e);
      MoveHeads(s, e.t, At(s', e.t), k);
      assert Those(s', k) == Those(Move(s, e.t, At(s', e.t)), k);
    }
  }

  lemma SleepersWithout(ts: seq<Tid>, t: Tid)
    requires Distinct(ts)
    ensures Distinct(Without(ts, t))
    ensures forall x :: x in Without(ts, t) <==> x in ts && x != t
  {
    if ts != [] {
      assert forall i, j :: 0 <= i < j < |ts[1..]| ==> ts[1..][i] != ts[1..][j] by {
        assert forall i :: 0 <= i < |ts| - 1 ==> ts[1..][i] == ts[i + 1];
      }
      assert ts[0] !in ts[1..];
      assert forall x :: x in ts <==> x == ts[0] || x in ts[1..];
      if ts[0] != t {
        SleepersWithout(ts[1..], t);
      }
    }
  }

  lemma SleepersMove<T>(s: State<T>, t: Tid, p: Place)
    requires SleepersListed(s) && !At(s, t).Asleep? && !p.Asleep?
    ensures SleepersListed(Move(s, t, p))
  {
    var s' := Move(s, t, p);
    assert forall x :: x != t ==> At(s', x) == At(s, x);
  }

  lemma SleepersSleep<T>(s: State<T>, t: Tid, call: Call, timed: bool)
    requires SleepersListed(s) && !At(s, t).Asleep?
    ensures SleepersListed(Sleep(s, t, call, timed))
  {
    var s' := Sleep(s, t, call, timed);
    assert t !in s.sleepers;
    assert forall x :: x != t ==> At(s', x) == At(s, x);
    assert forall x :: x in s'.sleepers <==> x == t || x in s.sleepers;
  }

  lemma SleepersNotify<T>(s: State<T>)
    requires SleepersListed(s)
    ensures SleepersListed(Notify(s))
    ensures s.sleepers != [] ==> At(s, s.sleepers[0]).Asleep?
  {
    if s.sleepers != [] {
      var t, s' := s.sleepers[0], Notify(s);
      assert t in s.sleepers && t !in s.sleepers[1..];
      assert forall x :: x in s.sleepers <==> x == t || x in s.sleepers[1..];
      assert forall x :: x != t ==> At(s', x) == At(s, x);
      assert At(s', t).Woken?;
    }
  }

  lemma SleepersTimeOut<T>(s: State<T>, t: Tid, p: Place)
    requires SleepersListed(s) && At(s, t).Asleep? && !p.Asleep?
    ensures SleepersListed(Move(s, t, p).(sleepers := Without(s.sleepers, t)))
  {
    var s' := Move(s, t, p).(sleepers := Without(s.sleepers, t));
    SleepersWithout(s.sleepers, t);
    assert forall x :: x != t ==> At(s', x) == At(s, x);
  }

  lemma SleepersStep<T>(u: Usage, s: State<T>, e: Event<T>)
    requires Enabled(u, s, e) && SleepersListed(s)
    ensures SleepersListed(Apply(u, s, e))
  {
    match e
    case Append(t, _) => SleepersMove(s, t, Appended);
    case Release(t) =>
      SleepersMove(s, t, Idle);
      SleepersNotify(Move(s, t, Idle).(value := s.value + 1));
    case GetNow(t) => SleepersMove(s, t, Acquired);
    case GetBlocking(t, timed) =>
      SleepersMove(s, t, Acquired);
      SleepersSleep(s, t, Get, timed);
    case WaitNow(_) =>
    case WaitBlocking(t, timed) => SleepersSleep(s, t, Wait, timed);
    case TimeOut(t) => SleepersTimeOut(s, t, Woken(At(s, t).call, true));
    case Recheck(t, _) =>
      SleepersMove(s, t, Acquired);
      SleepersMove(s, t, Idle);
      SleepersSleep(s, t, At(s, t).call, At(s, t).timed);
    case Pop(t) => SleepersMove(s, t, Idle);
  }

  lemma BalancedStep<T>(u: Usage, s: State<T>, e: Event<T>)
    requires Enabled(u, s, e) && SleepersListed(s) && Balanced(s)
    ensures Balanced(Apply(u, s, e))
    ensures e.Pop? ==> s.queue != []
  {
    HeadsStep(u, s, e, Releasing);
    HeadsStep(u, s, e, Popping);
    ReleaseIdles(u, s, e);
    if e.Pop? {
      SomeHead(s, e.t, Popping);
    }
  }

  lemma ReleaseIdles<T>(u: Usage, s: State<T>, e: Event<T>)
    requires Enabled(u, s, e) && SleepersListed(s)
    ensures e.Release? ==> At(Apply(u, s, e), e.t) == Idle && Apply(u, s, e).value == s.value + 1
  {
    if e.Release? {
      SleepersMove(s, e.t, Idle);
      SleepersNotify(Move(s, e.t, Idle).(value := s.value + 1));
    }
  }

  lemma InOrderStep<T>(u: Usage, s: State<T>, e: Event<T>)
    requires Enabled(u, s, e) && InOrder(s)
    requires e.Pop? ==> s.queue != []
    ensures InOrder(Apply(u, s, e))
    ensures Apply(u, s, e).missed == s.missed
  {
    if e.Append? {
      assert s.popped + (s.queue + [e.item]) == s.popped + s.queue + [e.item];
    } else if e.Pop? {
      assert s.popped + s.queue == (s.popped + [s.queue[0]]) + s.queue[1..];
    }
  }

  lemma {:induction false} RunSafe<T>(u: Usage, s: State<T>, es: seq<Event<T>>, s': State<T>)
    requires Run(u, s, es, s') && SleepersListed(s) && Balanced(s) && InOrder(s) && !s.missed
    ensures SleepersListed(s') && Balanced(s') && InOrder(s') && !s'.missed
    decreases |es|
  {
    if es != [] {
      SleepersStep(u, s, es[0]);
      BalancedStep(u, s, es[0]);
      InOrderStep(u, s, es[0]);
      RunSafe(u, Apply(u, s, es[0]), es[1..], s');
    }
  }

  /** Under every interleaving of any number of threads: permits match items, nothing is lost,
      doubled or reordered, and a `get` that acquired never finds the deque empty. */
  lemma QueueSafety<T>(u: Usage, es: seq<Event<T>>, s: State<T>)
    requires Run(u, Start(), es, s)
    ensures |s.queue| == s.value + Heads(s, Releasing) + Heads(s, Popping)
    ensures s.popped + s.queue == s.appended
    ensures !s.missed
    ensures forall t :: At(s, t) == Acquired ==> s.queue != []
    ensures SleepersListed(s)
  {
    var start := Start<T>();
    NoHead(start, Releasing);
    NoHead(start, Popping);
    RunSafe(u, start, es, s);
    forall t | At(s, t) == Acquired
      ensures s.queue != []
    {
      SomeHead(s, t, Popping);
    }
  }

  // ------------------------------------------------------- what calls achieve

  /** A look at the permits on behalf of `get`: a first one, or the one after waking up. */
  predicate LooksToGet<T>(s: State<T>, e: Event<T>) {
    e.GetNow? || e.GetBlocking? || (e.Recheck? && At(s, e.t).Woken? && At(s, e.t).call == Get)
  }

  /** The caller is ready to sleep when nothing is free. */
  predicate MaySleep<T>(e: Event<T>) {
    e.GetBlocking? || e.WaitBlocking? || (e.Recheck? && !e.giveUp)
  }

  /** A `get` acquires if and only if a permit is free, and then there is an item; if none is free it
      sleeps if it may, and else raises `Empty`. It touches no item yet, and one permit at most. */
  lemma GetOutcome<T>(u: Usage, es: seq<Event<T>>, s: State<T>, e: Event<T>)
    requires Run(u, Start(), es, s) && Enabled(u, s, e) && LooksToGet(s, e)
    ensures var s', t := Apply(u, s, e), e.t;
      && (At(s', t) == Acquired <==> s.value > 0)
      && (s.value > 0 ==> s.queue != [] && s'.value == s.value - 1)
      && (At(s', t).Asleep? <==> s.value == 0 && MaySleep(e))
      && (At(s', t) == Idle <==> s.value == 0 && !MaySleep(e))
      && (s.value == 0 ==> s'.value == 0)
      && s'.queue == s.queue && s'.popped == s.popped && s'.appended == s.appended
  {
    QueueSafety(u, es, s);
  }

  /** The thread that acquired is given the head of the queue at the time of its pop. */
  lemma PopOutcome<T>(u: Usage, es: seq<Event<T>>, s: State<T>, t: Tid)
    requires Run(u, Start(), es, s) && At(s, t) == Acquired
    ensures s.queue != []
    ensures var s' := Apply(u, s, Pop(t));
      && s'.popped == s.popped + [s.queue[0]] && s'.queue == s.queue[1..] && s'.value == s.value
      && At(s', t) == Idle
  {
    QueueSafety(u, es, s);
  }

  /** A `wait` sleeps if and only if it may and nothing is free; it never takes anything. */
  lemma WaitOutcome<T>(u: Usage, s: State<T>, e: Event<T>)
    requires Enabled(u, s, e)
    requires e.WaitNow? || e.WaitBlocking? || (e.Recheck? && At(s, e.t).call == Wait)
    ensures var s', t := Apply(u, s, e), e.t;
      && (At(s', t).Asleep? <==> s.value == 0 && MaySleep(e))
      && (At(s', t) == Idle <==> s.value > 0 || !MaySleep(e))
      && s'.value == s.value && s'.queue == s.queue && s'.popped == s.popped
  {}

  /** With no thread between two steps of a `put` or a `get`, a poll fails if and only if the queue is empty. */
  lemma PollFailsIffEmpty<T>(u: Usage, es: seq<Event<T>>, s: State<T>, t: Tid)
    requires Run(u, Start(), es, s) && At(s, t) == Idle
    requires Heads(s, Releasing) == 0 && Heads(s, Popping) == 0
    ensures At(Apply(u, s, GetNow(t)), t) == Idle <==> s.queue == []
  {
    QueueSafety(u, es, s);
    GetOutcome(u, es, s, GetNow(t));
  }

  /** A release and a timeout wake: the first sleeper, and the one whose time is over. */
  lemma Wakes<T>(u: Usage, s: State<T>, e: Event<T>)
    requires Enabled(u, s, e) && SleepersListed(s)
    ensures e.Release? && s.sleepers != [] ==>
      var s', first := Apply(u, s, e), s.sleepers[0];
      At(s, first).Asleep? && At(s', first) == Woken(At(s, first).call, At(s, first).timed) &&
      s'.sleepers == s.sleepers[1..]
    ensures e.TimeOut? ==> At(Apply(u, s, e), e.t) == Woken(At(s, e.t).call, At(s, e.t).timed)
                           && e.t !in Apply(u, s, e).sleepers
  {
    if e.Release? && s.sleepers != [] {
      SleepersNotify(s);
      assert s.sleepers[0] in s.sleepers;
    } else if e.TimeOut? {
      SleepersWithout(s.sleepers, e.t);
    }
  }

  /** A thread polls and pops, `n` times. */
  function Polls<T>(t: Tid, n: nat): seq<Event<T>> {
    if n == 0 then [] else [GetNow(t)] + ([Pop(t)] + Polls(t, n - 1))
  }

  lemma {:induction false} RunConcat<T>(u: Usage, s: State<T>, es: seq<Event<T>>, s': State<T>, e: Event<T>)
    requires Run(u, s, es, s') && Enabled(u, s', e)
    ensures Run(u, s, es + [e], Apply(u, s', e))
    decreases |es|
  {
    if es == [] {
      RunCons(u, s, e, [], Apply(u, s', e));
      assert es + [e] == [e] + [];
    } else {
      RunConcat(u, Apply(u, s, es[0]), es[1..], s', e);
      RunCons(u, s, es[0], es[1..] + [e], Apply(u, s', e));
      assert es + [e] == [es[0]] + (es[1..] + [e]);
    }
  }

  /** Nothing that was put is kept back: where no other thread is between two steps, polling as often as
      there are items hands out all of them in order, and leaves the queue empty. */
  lemma {:induction false} PollsDrain<T>(u: Usage, es: seq<Event<T>>, s: State<T>, t: Tid) returns (s': State<T>)
    requires Run(u, Start(), es, s) && At(s, t) == Idle
    requires Heads(s, Releasing) == 0 && Heads(s, Popping) == 0
    ensures Run(u, s, Polls(t, |s.queue|), s')
    ensures s'.queue == [] && s'.popped == s.popped + s.queue == s.appended
    decreases |s.queue|
  {
    QueueSafety(u, es, s);
    if s.queue == [] {
      assert s.popped + s.queue == s.popped;
      s' := s;
    } else {
      var s1 := Apply(u, s, GetNow(t));
      GetOutcome(u, es, s, GetNow(t));
      RunConcat(u, Start(), es, s, GetNow(t));
      var s2 := Apply(u, s1, Pop(t));
      PopOutcome(u, es + [GetNow(t)], s1, t);
      RunConcat(u, Start(), es + [GetNow(t)], s1, Pop(t));
      HeadsStep(u, s, GetNow(t), Releasing);
      HeadsStep(u, s, GetNow(t), Popping);
      SleepersStep(u, s, GetNow(t));
      HeadsStep(u, s1, Pop(t), Releasing);
      HeadsStep(u, s1, Pop(t), Popping);
      s' := PollsDrain(u, es + [GetNow(t)] + [Pop(t)], s2, t);
      RunCons(u, s1, Pop(t), Polls(t, |s2.queue|), s');
      RunCons(u, s, GetNow(t), [Pop(t)] + Polls(t, |s2.queue|), s');
      assert s.popped + [s.queue[0]] + s.queue[1..] == s.popped + s.queue;
    }
  }

  // ---------------------------------------------------------------- liveness

  /** An item is free for the taking, somebody sleeps without a timeout, and nobody is under way
      who could wake a sleeper. Only another put could help. */
  ghost predicate Stuck<T>(s: State<T>) {
    && s.value > 0
    && s.sleepers != []
    && forall t :: At(s, t) == Idle || (At(s, t).Asleep? && !At(s, t).timed)
  }

  ghost predicate NeverStuck<T(!new)>(u: Usage) {
    forall s: State<T> :: Reachable(u, s) ==> !Stuck(s)
  }

  /** Without `wait`, every free item has a woken getter or there is no sleeper. */
  ghost predicate WakesCover<T>(s: State<T>) {
    s.sleepers == [] || s.value <= Heads(s, Awake)
  }

  ghost predicate OnlyGetters<T>(s: State<T>) {
    forall t :: (At(s, t).Asleep? || At(s, t).Woken?) ==> At(s, t).call == Get
  }

  lemma OnlyGettersStep<T>(u: Usage, s: State<T>, e: Event<T>)
    requires Enabled(u, s, e) && SleepersListed(s) && OnlyGetters(s) && u.waiters == {}
    ensures OnlyGetters(Apply(u, s, e))
  {
    if e.Release? {
      MoveAt(s, e.t, Idle);
      var r := Move(s, e.t, Idle).(value := s.value + 1);
      SleepersMove(s, e.t, Idle);
      SleepersNotify(r);
      if s.sleepers != [] {
        var h := s.sleepers[0];
        MoveAt(r, h, At(Notify(r), h));
        assert At(r, h) == At(s, h);
        assert forall x :: x != h && x != e.t ==> At(Notify(r), x) == At(s, x);
      }
    } else {
      var s' := Apply(u, s, e);
      MoveAt(s, e.t, At(s', e.t));
      assert forall x :: x != e.t ==> At(s', x) == At(s, x);
    }
  }

  lemma WakesCoverStep<T>(u: Usage, s: State<T>, e: Event<T>)
    requires Enabled(u, s, e) && SleepersListed(s) && WakesCover(s) && OnlyGetters(s) && u.waiters == {}
    ensures WakesCover(Apply(u, s, e))
  {
    HeadsStep(u, s, e, Awake);
    ReleaseIdles(u, s, e);
    if e.TimeOut? {
      SleepersWithout(s.sleepers, e.t);
    } else if e.Recheck? {
      SomeHead(s, e.t, Awake);
    }
  }

  /** With a single thread that ever blocks, a sleeper means that nothing is free. */
  ghost predicate LoneSleeper<T>(u: Usage, s: State<T>) {
    && (s.sleepers != [] ==> s.value == 0)
    && forall t :: (At(s, t).Asleep? || At(s, t).Woken?) ==> t in u.getters + u.waiters
  }

  lemma FewSleepers<T>(u: Usage, s: State<T>)
    requires SleepersListed(s) && LoneSleeper(u, s) && |u.getters + u.waiters| <= 1
    ensures |s.sleepers| <= 1
  {
    if |s.sleepers| > 1 {
      var b := u.getters + u.waiters;
      assert s.sleepers[0] in s.sleepers && s.sleepers[1] in s.sleepers;
      assert {s.sleepers[0], s.sleepers[1]} <= b;
      SubsetCard({s.sleepers[0], s.sleepers[1]}, b);
    }
  }

  lemma LoneSleeperStep<T>(u: Usage, s: State<T>, e: Event<T>)
    requires Enabled(u, s, e) && SleepersListed(s) && LoneSleeper(u, s)
    requires |u.getters + u.waiters| <= 1
    ensures LoneSleeper(u, Apply(u, s, e))
  {
    SleepersWithout(s.sleepers, e.t);
    FewSleepers(u, s);
  }

  lemma {:induction false} RunNotStuck<T>(u: Usage, s: State<T>, es: seq<Event<T>>, s': State<T>)
    requires Run(u, s, es, s') && SleepersListed(s)
    requires (u.waiters == {} && WakesCover(s) && OnlyGetters(s)) || (|u.getters + u.waiters| <= 1 && LoneSleeper(u, s))
    ensures !Stuck(s')
    decreases |es|
  {
    if es != [] {
      SleepersStep(u, s, es[0]);
      if u.waiters == {} && WakesCover(s) && OnlyGetters(s) {
        WakesCoverStep(u, s, es[0]);
        OnlyGettersStep(u, s, es[0]);
      } else {
        LoneSleeperStep(u, s, es[0]);
      }
      RunNotStuck(u, Apply(u, s, es[0]), es[1..], s');
    } else if Stuck(s) {
      NoHead(s, Awake);
    }
  }

  /** The wake-up that `wait` swallows: it is notified, sees the item, leaves it, and tells nobody. */
  lemma LostWakeup<T>(u: Usage, w: Tid, x: Tid, p: Tid, item: T) returns (es: seq<Event<T>>, s: State<T>)
    requires w in u.waiters && x in u.getters + u.waiters && w != x && p != w && p != x
    ensures Run(u, Start(), es, s) && Stuck(s) && s.sleepers == [x] && s.queue == [item]
  {
    var block := if x in u.getters then GetBlocking(x, false) else WaitBlocking(x, false);
    var s1 := Apply(u, Start<T>(), WaitBlocking(w, false));
    var s2 := Apply(u, s1, block);
    var s3 := Apply(u, s2, Append(p, item));
    assert s3.sleepers == [w, x] && At(s3, w) == Asleep(Wait, false) && At(s3, x).Asleep? && At(s3, p) == Appended;
    var s4 := Apply(u, s3, Release(p));
    assert s4.sleepers == [x] && s4.value == 1 && At(s4, w) == Woken(Wait, false);
    s := Apply(u, s4, Recheck(w, false));
    RunCons(u, s4, Recheck(w, false), [], s);
    RunCons(u, s3, Release(p), [Recheck(w, false)], s);
    RunCons(u, s2, Append(p, item), [Release(p)] + [Recheck(w, false)], s);
    es := [Append(p, item)] + ([Release(p)] + [Recheck(w, false)]);
    RunCons(u, s1, block, es, s);
    RunCons(u, Start(), WaitBlocking(w, false), [block] + es, s);
    es := [WaitBlocking(w, false)] + ([block] + es);
  }

  lemma RunCons<T>(u: Usage, s: State<T>, e: Event<T>, es: seq<Event<T>>, s': State<T>)
    requires Enabled(u, s, e) && Run(u, Apply(u, s, e), es, s')
    ensures Run(u, s, [e] + es, s')
  {
    assert ([e] + es)[1..] == es;
  }

  /** No thread can be left asleep beside a free item if and only if `wait` is never used
      blockingly, or at most one thread ever blocks. */
  lemma NeverStuckIff<T(!new)>(u: Usage, item: T)
    ensures NeverStuck<T>(u) <==> u.waiters == {} || |u.getters + u.waiters| <= 1
  {
    var blockers := u.getters + u.waiters;
    if u.waiters == {} || |blockers| <= 1 {
      forall s: State<T> | Reachable(u, s)
        ensures !Stuck(s)
      {
        var es: seq<Event<T>> :| Run(u, Start(), es, s);
        RunNotStuck(u, Start(), es, s);
      }
    } else {
      var w :| w in u.waiters;
      assert |blockers - {w}| >= 1;
      var x :| x in blockers - {w};
      var p := Outsider(blockers);
      var es, s := LostWakeup(u, w, x, p, item);
      assert Reachable(u, s);
    }
  }

  lemma {:induction false} Outsider(ts: set<Tid>) returns (p: Tid)
    ensures forall t :: t in ts ==> t < p
  {
    if ts == {} {
      p := 0;
    } else {
      var t :| t in ts;
      var q := Outsider(ts - {t});
      p := if q <= t then t + 1 else q;
      assert forall t' :: t' in ts ==> t' == t || t' in ts - {t};
    }
  }
}
