/** One resume value for a whole step: `get_null_resume` of the task scratchpads
    (libs/langgraph/langgraph/pregel/_algo.py) over the lists of pending writes that the loop
    (libs/langgraph/langgraph/pregel/_loop.py) copies while tasks run. */
module SharedResume {
  import opened Prelude
  import opened Interrupt

  /** Where a task comes from: prepared for the step, called by a running task of the same loop,
      or prepared by a subgraph that a task runs, whose loop has writes of its own. */
  datatype Place = Top | Called(caller: nat) | Below(task: nat)

  /** A task in one invocation. `stored` are the answers it comes with, addressed ones included, and
      `told` those given again so far. `source` is the list of writes it would take the value from:
      the list of its loop if the value was there at first sight, else that of its parent. */
  datatype Task<!V, !Q, !R> = Task(
    node: Node<V, Q, R>, stored: seq<V>, inner: bool, source: Option<nat>,
    told: seq<V>, resume: seq<V>, end: Option<Outcome<Q, R>>)
  {
    predicate Took() { |resume| > |stored| }

    /** It asked more than it came with answers for. */
    predicate Wanted() { |told| > |stored| || (end.Some? && end.value.Waiting?) }
  }

  /** The lists of pending writes made so far, the last of them current; of each only whether the
      value is still in it. */
  datatype State<!V, !Q, !R> = State(value: V, lists: seq<bool>, tasks: seq<Task<V, Q, R>>)

  function Start<V, Q, R>(value: V): State<V, Q, R> {
    State(value, [true], [])
  }

  datatype Event<!V, !Q, !R> =
    | Open(node: Node<V, Q, R>, stored: seq<V>, place: Place)
    | Go(task: nat)
    | Save(task: nat)

  /** The tasks of the step are prepared together, before any of them is saved; others come from a
      task that has not ended. */
  predicate Placed<V, Q, R>(s: State<V, Q, R>, place: Place) {
    match place
    case Top => |s.lists| == 1
    case Called(caller) => caller < |s.tasks| && s.tasks[caller].end.None?
    case Below(task) => task < |s.tasks| && s.tasks[task].end.None?
  }

  predicate Enabled<V, Q, R>(s: State<V, Q, R>, e: Event<V, Q, R>) {
    match e
    case Open(_, _, place) => s.lists != [] && Placed(s, place)
    case Go(t) => t < |s.tasks| && s.tasks[t].end.None?
    case Save(t) => s.lists != [] && t < |s.tasks| && s.tasks[t].end.Some? && !s.tasks[t].inner
  }

  function Opened<V, Q, R>(s: State<V, Q, R>, node: Node<V, Q, R>, stored: seq<V>, place: Place): Task<V, Q, R>
    requires s.lists != [] && Placed(s, place)
  {
    var last := |s.lists| - 1;
    match place
    case Top => Task(node, stored, false, if s.lists[last] then Some(last) else None, [], stored, None)
    case Called(caller) =>
      var parent := s.tasks[caller];
      var source := if !parent.inner && s.lists[last] then Some(last) else parent.source;
      Task(node, stored, parent.inner, source, [], stored, None)
    case Below(task) => Task(node, stored, true, s.tasks[task].source, [], stored, None)
  }

  predicate CanTake<V, Q, R>(s: State<V, Q, R>, task: Task<V, Q, R>) {
    task.source.Some? && task.source.value < |s.lists| && s.lists[task.source.value]
  }

  /** The task runs to its next call of `interrupt`, or to its end. */
  function Moved<V, Q, R>(s: State<V, Q, R>, task: Task<V, Q, R>): Task<V, Q, R> {
    match task.node(task.told)
    case Finish(result) => task.(end := Some(Done(result)))
    case Ask(question) =>
      if |task.told| < |task.resume| then task.(told := task.told + [task.resume[|task.told|]])
      else if CanTake(s, task) then
        if |task.resume| != |task.told| then task.(end := Some(Crashed))
        else task.(told := task.told + [s.value], resume := task.resume + [s.value])
      else task.(end := Some(Waiting(question)))
  }

  /** The value is removed from the list that it was taken from, and from no other. */
  function Taken<V, Q, R>(s: State<V, Q, R>, task: Task<V, Q, R>): seq<bool> {
    if task.node(task.told).Ask? && |task.told| >= |task.resume| && CanTake(s, task)
    then s.lists[task.source.value := false]
    else s.lists
  }

  /** Saving the writes of a task replaces the list of the loop by a copy. */
  function Next<V, Q, R>(s: State<V, Q, R>, e: Event<V, Q, R>): State<V, Q, R>
    requires Enabled(s, e)
  {
    match e
    case Open(node, stored, place) => s.(tasks := s.tasks + [Opened(s, node, stored, place)])
    case Go(t) => s.(lists := Taken(s, s.tasks[t]), tasks := s.tasks[t := Moved(s, s.tasks[t])])
    case Save(_) => s.(lists := s.lists + [s.lists[|s.lists| - 1]])
  }

  /** A task is opened that looks for the value in a copy which still holds it. Those of subgraphs
      do not look there, nor do the tasks that they call. */
  predicate Risky<V, Q, R>(s: State<V, Q, R>, e: Event<V, Q, R>)
    requires Enabled(s, e)
  {
    e.Open? && e.place.Called? && !s.tasks[e.place.caller].inner && |s.lists| > 1 && s.lists[|s.lists| - 1]
  }

  /** `events` can happen one after the other from `s`; unless `late`, without risky openings. */
  predicate Possible<V, Q, R>(s: State<V, Q, R>, events: seq<Event<V, Q, R>>, late: bool)
    decreases |events|
  {
    events == [] ||
    (Enabled(s, events[0]) && (late || !Risky(s, events[0])) && Possible(Next(s, events[0]), events[1..], late))
  }

  function Played<V, Q, R>(s: State<V, Q, R>, events: seq<Event<V, Q, R>>, late: bool): State<V, Q, R>
    requires Possible(s, events, late)
    decreases |events|
  {
    if events == [] then s else Played(Next(s, events[0]), events[1..], late)
  }

  // ------------------------------------------------------------- one task

  /** The node asks after each of its first answers. */
  ghost predicate Asks<V, Q, R>(node: Node<V, Q, R>, answers: seq<V>, n: nat) {
    n <= |answers| && forall k :: 0 <= k < n ==> node(answers[..k]).Ask?
  }

  lemma {:induction false} DirectFrom<V, Q, R>(node: Node<V, Q, R>, answers: seq<V>, n: nat)
    requires Asks(node, answers, n)
    ensures Direct(node, answers, 0) == Direct(node, answers, n)
  {
    if n > 0 {
      DirectFrom(node, answers, n - 1);
    }
  }

  /** A task has asked for all it was told, is told its own answers in order, and ends as a direct
      run on them. One that waits found no value where it looked. */
  ghost predicate Replays<V, Q, R>(value: V, lists: seq<bool>, task: Task<V, Q, R>) {
    (task.source.Some? ==> task.source.value < |lists|) &&
    Asks(task.node, task.resume, |task.told|) && task.told == task.resume[..|task.told|] &&
    (task.resume == task.stored ||
     (task.resume == task.stored + [value] && task.told == task.resume &&
      task.source.Some? && !lists[task.source.value])) &&
    (task.end.Some? ==> task.end.value == Direct(task.node, task.resume, 0) && !task.end.value.Crashed?) &&
    (task.end.Some? && task.end.value.Waiting? ==>
       task.told == task.resume && (task.source.Some? ==> !lists[task.source.value]))
  }

  lemma MovedReplays<V, Q, R>(s: State<V, Q, R>, task: Task<V, Q, R>)
    requires Replays(s.value, s.lists, task) && task.end.None?
    ensures Replays(s.value, Taken(s, task), Moved(s, task))
    ensures Moved(s, task).Took() && !task.Took() ==> CanTake(s, task) && !Taken(s, task)[task.source.value]
    ensures Taken(s, task) != s.lists ==> Moved(s, task).Took() && !task.Took()
  {
    var n := |task.told|;
    match task.node(task.told) {
      case Finish(_) => DirectFrom(task.node, task.resume, n);
      case Ask(_) =>
        if n < |task.resume| {
          assert task.resume[..n + 1] == task.told + [task.resume[n]];
        } else if CanTake(s, task) {
          var more := task.resume + [s.value];
          assert forall k :: 0 <= k <= n ==> more[..k] == task.resume[..k];
          assert more[..n + 1] == more;
        } else {
          DirectFrom(task.node, task.resume, n);
        }
    }
  }

  // ------------------------------------------------------------- any run

  /** What holds in every run: all tasks replay, and no two took the value from one list. */
  ghost predicate Inv<V, Q, R>(s: State<V, Q, R>) {
    s.lists != [] &&
    (forall t :: 0 <= t < |s.tasks| ==> Replays(s.value, s.lists, s.tasks[t])) &&
    (forall t, u :: 0 <= t < u < |s.tasks| && s.tasks[t].Took() && s.tasks[u].Took() ==>
        s.tasks[t].source != s.tasks[u].source)
  }

  lemma InvStep<V, Q, R>(s: State<V, Q, R>, e: Event<V, Q, R>)
    requires Inv(s) && Enabled(s, e)
    ensures Inv(Next(s, e))
  {
    if e.Go? {
      GoKeeps(s, e.task);
    }
  }

  lemma GoKeeps<V, Q, R>(s: State<V, Q, R>, t: nat)
    requires Inv(s) && Enabled(s, Go(t))
    ensures Inv(Next(s, Go(t)))
  {
    MovedReplays(s, s.tasks[t]);
  }

  // --------------------------------------------- runs without risky openings

  /** What holds besides in runs without risky openings: everything is taken from the first list. */
  ghost predicate OneList<V, Q, R>(s: State<V, Q, R>) {
    s.lists != [] &&
    (forall t :: 0 <= t < |s.tasks| && s.tasks[t].source.Some? ==> s.tasks[t].source.value == 0) &&
    (s.lists[0] ==>
       (forall i :: 0 <= i < |s.lists| ==> s.lists[i]) &&
       (forall t :: 0 <= t < |s.tasks| ==> s.tasks[t].source.Some?)) &&
    (!s.lists[0] ==> SomeTook(s.tasks))
  }

  ghost predicate SomeTook<V, Q, R>(tasks: seq<Task<V, Q, R>>) {
    exists t :: 0 <= t < |tasks| && tasks[t].Took()
  }

  lemma GoOneList<V, Q, R>(s: State<V, Q, R>, t: nat)
    requires Inv(s) && OneList(s) && Enabled(s, Go(t))
    ensures OneList(Next(s, Go(t)))
  {
    var after := Next(s, Go(t));
    MovedReplays(s, s.tasks[t]);
    if !s.lists[0] {
      var u :| 0 <= u < |s.tasks| && s.tasks[u].Took();
      assert after.tasks[u].Took();
    } else if !after.lists[0] {
      assert after.tasks[t].Took();
    }
  }

  lemma OneListStep<V, Q, R>(s: State<V, Q, R>, e: Event<V, Q, R>)
    requires Inv(s) && OneList(s) && Enabled(s, e) && !Risky(s, e)
    ensures OneList(Next(s, e))
  {
    match e
    case Go(t) => GoOneList(s, t);
    case Save(_) =>
    case Open(_, _, _) =>
      var after := Next(s, e);
      if !s.lists[0] {
        var t :| 0 <= t < |s.tasks| && s.tasks[t].Took();
        assert after.tasks[t].Took();
      }
  }

  lemma {:induction false} RunKeeps<V, Q, R>(s: State<V, Q, R>, events: seq<Event<V, Q, R>>, late: bool)
    requires Inv(s) && (late || OneList(s)) && Possible(s, events, late)
    ensures Inv(Played(s, events, late)) && (late || OneList(Played(s, events, late)))
    ensures Played(s, events, late).value == s.value
    decreases |events|
  {
    if events != [] {
      InvStep(s, events[0]);
      if !late {
        OneListStep(s, events[0]);
      }
      RunKeeps(Next(s, events[0]), events[1..], late);
    }
  }

  // ---------------------------------------------------------------- results

  /** In every run whatever every task ends as a direct run on its own answers, at most one of which
      is the shared value, and is never told anything else on the way. */
  lemma EveryTaskReplays<V, Q, R>(value: V, events: seq<Event<V, Q, R>>, late: bool, t: nat)
    requires Possible(Start(value), events, late)
    requires t < |Played(Start(value), events, late).tasks|
    ensures var task := Played(Start(value), events, late).tasks[t];
            (task.resume == task.stored || task.resume == task.stored + [value]) &&
            task.told <= task.resume &&
            (task.end.Some? ==> task.end.value == Direct(task.node, task.resume, 0) && !task.end.value.Crashed?)
  {
    RunKeeps(Start(value), events, late);
  }

  ghost predicate AtMostOnce<V, Q, R>(s: State<V, Q, R>) {
    forall t, u :: 0 <= t < u < |s.tasks| ==> !(s.tasks[t].Took() && s.tasks[u].Took())
  }

  /** In a run without risky openings the value answers one question of one task as soon as any task wants it. */
  lemma OneAnswer<V, Q, R>(value: V, events: seq<Event<V, Q, R>>)
    requires Possible(Start(value), events, false)
    ensures var s := Played(Start(value), events, false);
            AtMostOnce(s) &&
            (SomeTook(s.tasks) <==> exists t :: 0 <= t < |s.tasks| && s.tasks[t].Wanted())
  {
    RunKeeps(Start(value), events, false);
    var s := Played(Start(value), events, false);
    if t :| 0 <= t < |s.tasks| && s.tasks[t].Took() {
      assert s.tasks[t].Wanted();
    }
    if t :| 0 <= t < |s.tasks| && s.tasks[t].Wanted() {
      assert s.tasks[t].Took() || !s.lists[0];
    }
  }

  /** `events` lead from `s` to `end`. */
  ghost predicate Leads<V, Q, R>(s: State<V, Q, R>, events: seq<Event<V, Q, R>>, end: State<V, Q, R>, late: bool) {
    Possible(s, events, late) && Played(s, events, late) == end
  }

  lemma Lead<V, Q, R>(
    s: State<V, Q, R>, e: Event<V, Q, R>, after: State<V, Q, R>, events: seq<Event<V, Q, R>>, end: State<V, Q, R>,
    late: bool)
    requires Enabled(s, e) && (late || !Risky(s, e)) && Next(s, e) == after
    requires Leads(after, events, end, late)
    ensures Leads(s, [e] + events, end, late)
  {
    assert ([e] + events)[1..] == events;
  }

  /** A node that asks once and returns `r`, or returns at once. */
  function Asking<V, Q, R>(q: Q, r: R): Node<V, Q, R> {
    told => if told == [] then Ask(q) else Finish(r)
  }

  function Returning<V, Q, R>(r: R): Node<V, Q, R> {
    told => Finish(r)
  }

  function SavedBetween<V, Q, R>(q: Q, r: R): seq<Event<V, Q, R>> {
    [Open(Returning(r), [], Top)] + ([Open(Asking(q, r), [], Top)] + ([Go(0)] + ([Save(0)] + CallBetween(q, r))))
  }

  function CallBetween<V, Q, R>(q: Q, r: R): seq<Event<V, Q, R>> {
    [Go(1)] + ([Open(Asking(q, r), [], Called(1))] + ([Go(2)] + []))
  }

  function SavedFirst<V, Q, R>(value: V, q: Q, r: R): State<V, Q, R> {
    State(value, [true, true],
          [Task(Returning(r), [], false, Some(0), [], [], Some(Done(r))),
           Task(Asking(q, r), [], false, Some(0), [], [], None)])
  }

  function BothTook<V, Q, R>(value: V, q: Q, r: R): State<V, Q, R> {
    State(value, [false, false],
          [Task(Returning(r), [], false, Some(0), [], [], Some(Done(r))),
           Task(Asking(q, r), [], false, Some(0), [value], [value], None),
           Task(Asking(q, r), [], false, Some(1), [value], [value], None)])
  }

  lemma SavedThere<V, Q, R>(value: V, q: Q, r: R, events: seq<Event<V, Q, R>>, end: State<V, Q, R>)
    requires Leads(SavedFirst(value, q, r), events, end, true)
    ensures Leads(
              Start(value),
              [Open(Returning(r), [], Top)] + ([Open(Asking(q, r), [], Top)] + ([Go(0)] + ([Save(0)] + events))),
              end, true)
  {
    var t0 := Task(Returning(r), [], false, Some(0), [], [], None);
    var t1 := Task(Asking(q, r), [], false, Some(0), [], [], None);
    var s1, s2 := State(value, [true], [t0]), State(value, [true], [t0, t1]);
    var s3 := s2.(tasks := [t0.(end := Some(Done(r))), t1]);
    Lead(s3, Save(0), SavedFirst(value, q, r), events, end, true);
    Lead(s2, Go(0), s3, [Save(0)] + events, end, true);
    Lead(s1, Open(Asking(q, r), [], Top), s2, [Go(0)] + ([Save(0)] + events), end, true);
    Lead(Start(value), Open(Returning(r), [], Top), s1,
         [Open(Asking(q, r), [], Top)] + ([Go(0)] + ([Save(0)] + events)), end, true);
  }

  lemma CalledThere<V, Q, R>(value: V, q: Q, r: R)
    ensures Leads(SavedFirst(value, q, r), CallBetween(q, r), BothTook(value, q, r), true)
  {
    var s0, end := SavedFirst(value, q, r), BothTook(value, q, r);
    var t1 := s0.tasks[1].(told := [value], resume := [value]);
    var t2 := Task(Asking(q, r), [], false, Some(1), [], [], None);
    var s1 := State(value, [false, true], [s0.tasks[0], t1]);
    var s2 := State(value, [false, true], [s0.tasks[0], t1, t2]);
    assert [] + [value] == [value];
    Lead(s2, Go(2), end, [], end, true);
    Lead(s1, Open(Asking(q, r), [], Called(1)), s2, [Go(2)] + [], end, true);
    Lead(s0, Go(1), s1, [Open(Asking(q, r), [], Called(1))] + ([Go(2)] + []), end, true);
  }

  /** The failing input: next to a task that waits, one that failed before is run again and saved
      first; the waiting task takes the value from the list it has seen and calls another, which
      finds the value in the copy. */
  lemma TwoAnswers<V, Q, R>(value: V, q: Q, r: R)
    ensures Leads(Start(value), SavedBetween(q, r), BothTook(value, q, r), true)
    ensures !AtMostOnce(BothTook<V, Q, R>(value, q, r))
  {
    CalledThere(value, q, r);
    SavedThere(value, q, r, CallBetween(q, r), BothTook(value, q, r));
    var tasks := BothTook<V, Q, R>(value, q, r).tasks;
    assert tasks[1].Took() && tasks[2].Took();
  }

  lemma OneTaker<V, Q, R>(s: State<V, Q, R>)
    requires Inv(s) && OneList(s)
    ensures AtMostOnce(s)
  {}

  /** `events` can follow without a risky opening, and then two questions have got the value. */
  ghost predicate Doubles<V, Q, R>(s: State<V, Q, R>, events: seq<Event<V, Q, R>>) {
    Possible(s, events, false) && !AtMostOnce(Played(s, events, false))
  }

  function TakeBelow<V, Q, R>(t: nat, n: nat, q: Q, r: R): seq<Event<V, Q, R>> {
    [Open(Asking(q, r), [], Below(t))] + ([Go(n)] + [])
  }

  /** Through a subgraph, a task that has not ended takes the value from where it would look. */
  lemma TakesBelow<V, Q, R>(s: State<V, Q, R>, t: nat, q: Q, r: R) returns (end: State<V, Q, R>)
    requires s.lists != [] && t < |s.tasks| && s.tasks[t].end.None? && CanTake(s, s.tasks[t])
    ensures Leads(s, TakeBelow(t, |s.tasks|, q, r), end, false)
    ensures |end.tasks| == |s.tasks| + 1 && end.tasks[..|s.tasks|] == s.tasks && end.tasks[|s.tasks|].Took()
    ensures end.lists == s.lists[s.tasks[t].source.value := false]
  {
    var n := |s.tasks|;
    var asking: Event<V, Q, R> := Open(Asking(q, r), [], Below(t));
    var s1 := Next(s, asking);
    assert s1.tasks[n] == Task(Asking(q, r), [], true, s.tasks[t].source, [], [], None);
    end := Next(s1, Go(n));
    Lead(s1, Go(n), end, [], end, false);
    Lead(s, asking, s1, [Go(n)] + [], end, false);
  }

  lemma {:induction false} Chained<V, Q, R>(
    s: State<V, Q, R>, events: seq<Event<V, Q, R>>, mid: State<V, Q, R>, more: seq<Event<V, Q, R>>,
    end: State<V, Q, R>)
    requires Leads(s, events, mid, false) && Leads(mid, more, end, false)
    ensures Leads(s, events + more, end, false)
    decreases |events|
  {
    if events == [] {
      assert events + more == more;
    } else {
      Chained(Next(s, events[0]), events[1..], mid, more, end);
      Lead(s, events[0], Next(s, events[0]), events[1..] + more, end, false);
      assert events + more == [events[0]] + (events[1..] + more);
    }
  }

  /** After a risky opening one below the new task and, if nobody has it yet, one below its caller get the value. */
  lemma RiskyDoubles<V, Q, R>(s: State<V, Q, R>, e: Event<V, Q, R>, q: Q, r: R)
    returns (more: seq<Event<V, Q, R>>)
    requires Inv(s) && OneList(s) && Enabled(s, e) && Risky(s, e)
    ensures Doubles(Next(s, e), more)
  {
    var after, n, caller := Next(s, e), |s.tasks|, e.place.caller;
    var mid := TakesBelow(after, n, q, r);
    more := TakeBelow(n, n + 1, q, r);
    if s.lists[0] {
      assert mid.tasks[caller] == s.tasks[caller];
      var end := TakesBelow(mid, caller, q, r);
      Chained(after, more, mid, TakeBelow(caller, n + 2, q, r), end);
      more := more + TakeBelow(caller, n + 2, q, r);
      assert end.tasks[n + 1] == mid.tasks[n + 1];
      assert end.tasks[n + 1].Took() && end.tasks[n + 2].Took();
    } else {
      var t :| 0 <= t < n && s.tasks[t].Took();
      assert mid.tasks[t] == s.tasks[t];
      assert mid.tasks[t].Took() && mid.tasks[n + 1].Took();
    }
  }

  /** Whatever happens next in a run without risky openings, it can lead to two answers without
      another one if and only if it is a risky opening itself. */
  lemma AnswersOnceIff<V, Q, R>(value: V, q: Q, r: R, events: seq<Event<V, Q, R>>, e: Event<V, Q, R>)
    requires Possible(Start(value), events, false) && Enabled(Played(Start(value), events, false), e)
    ensures var s := Played(Start(value), events, false);
            (exists more: seq<Event<V, Q, R>> :: Doubles(Next(s, e), more)) <==> Risky(s, e)
  {
    var s := Played(Start(value), events, false);
    RunKeeps(Start(value), events, false);
    if Risky(s, e) {
      var more := RiskyDoubles(s, e, q, r);
      assert Doubles(Next(s, e), more);
    } else {
      InvStep(s, e);
      OneListStep(s, e);
      forall more: seq<Event<V, Q, R>> ensures !Doubles(Next(s, e), more) {
        if Possible(Next(s, e), more, false) {
          RunKeeps(Next(s, e), more, false);
          OneTaker(Played(Next(s, e), more, false));
        }
      }
    }
  }

  // --------------------------------------------------------- who is answered

  /** A step that is resumed: its tasks are those that paused, each about to ask once more than it
      was answered. */
  ghost predicate Resumed<V, Q, R>(s: State<V, Q, R>) {
    s.lists == [true] &&
    forall t :: 0 <= t < |s.tasks| ==>
      var task := s.tasks[t];
      task.source == Some(0) && task.end.None? && task.resume == task.stored && StillAsks(task)
  }

  ghost predicate StillAsks<V, Q, R>(task: Task<V, Q, R>) {
    task.told <= task.resume && Asks(task.node, task.resume, |task.resume|) && task.node(task.resume).Ask?
  }

  /** A run in which only task `t` goes on, `n` times. */
  function Alone<V, Q, R>(t: nat, n: nat): seq<Event<V, Q, R>> {
    if n == 0 then [] else [Go(t)] + Alone(t, n - 1)
  }

  ghost predicate TakesAlone<V, Q, R>(s: State<V, Q, R>, t: nat, n: nat) {
    Possible(s, Alone(t, n), false) &&
    var end := Played(s, Alone(t, n), false);
    t < |end.tasks| && end.tasks[t].Took()
  }

  /** The value can be given to task `t`. */
  ghost predicate MayTake<V, Q, R>(s: State<V, Q, R>, t: nat) {
    exists n: nat :: TakesAlone(s, t, n)
  }

  lemma {:induction false} AnyoneMayTake<V, Q, R>(s: State<V, Q, R>, t: nat)
    requires Resumed(s) && t < |s.tasks|
    ensures MayTake(s, t)
    decreases |s.tasks[t].resume| - |s.tasks[t].told|
  {
    var task := s.tasks[t];
    var n, after := |task.told|, Next(s, Go(t));
    assert task.told == task.resume[..n];
    if n < |task.resume| {
      assert task.resume[..n + 1] == task.told + [task.resume[n]];
      assert Resumed(after);
      AnyoneMayTake(after, t);
      var more: nat :| TakesAlone(after, t, more);
      Lead(s, Go(t), after, Alone(t, more), Played(after, Alone(t, more), false), false);
      assert TakesAlone(s, t, more + 1);
    } else {
      assert task.told == task.resume;
      assert after.tasks[t].Took();
      Lead(s, Go(t), after, Alone(t, 0), after, false);
      assert TakesAlone(s, t, 1);
    }
  }

  /** The waiting tasks that were never answered. Only they count when a value without an address is
      refused because several interrupts are pending. */
  function Hanging<V, Q, R>(tasks: seq<Task<V, Q, R>>): nat {
    if tasks == [] then 0 else (if tasks[0].stored == [] then 1 else 0) + Hanging(tasks[1..])
  }

  predicate Refused<V, Q, R>(s: State<V, Q, R>) {
    Hanging(s.tasks) > 1
  }

  lemma {:induction false} HangingFew<V, Q, R>(tasks: seq<Task<V, Q, R>>)
    ensures Hanging(tasks) <= |tasks|
    ensures (forall t :: 0 <= t < |tasks| ==> tasks[t].stored == []) <==> Hanging(tasks) == |tasks|
    ensures (forall t :: 0 <= t < |tasks| ==> tasks[t].stored != []) <==> Hanging(tasks) == 0
  {
    if tasks != [] {
      HangingFew(tasks[1..]);
    }
  }

  /** It is open whom the value answers exactly when several tasks wait. Then it is refused if two of
      them were never answered, and given to whoever asks first if all of them were. */
  lemma OpenWhomIff<V, Q, R>(s: State<V, Q, R>)
    requires Resumed(s)
    ensures (exists t: nat, u: nat :: t < u < |s.tasks| && MayTake(s, t) && MayTake(s, u)) <==> |s.tasks| > 1
    ensures Refused(s) ==> |s.tasks| > 1
    ensures (forall t :: 0 <= t < |s.tasks| ==> s.tasks[t].stored != []) ==> !Refused(s)
    ensures (forall t :: 0 <= t < |s.tasks| ==> s.tasks[t].stored == []) ==> (Refused(s) <==> |s.tasks| > 1)
  {
    HangingFew(s.tasks);
    if |s.tasks| > 1 {
      AnyoneMayTake(s, 0);
      AnyoneMayTake(s, 1);
    }
  }
}
