/** A loop over items in which each item makes calls and yields a result, and in which an exception
    may end everything (the loop of `executar`, apps/hotmart-ebook-agent/hotmart_agent/graph.py). */
module AgentCourse {
  import opened Prelude

  /** What one item does; without a result an exception has left the loop. */
  datatype Step<R, C> = Step(result: Option<R>, calls: seq<C>)

  /** What an item does when its turn comes, given how many calls were made before. */
  type Steps<!E, R, C> = (E, nat) -> Step<R, C>

  datatype Course<R, C> = Course(calls: seq<C>, results: seq<R>, ended: bool)

  function Continue<R, C>(c: Course<R, C>, step: Step<R, C>): Course<R, C> {
    match step.result
    case None => Course(c.calls + step.calls, c.results, true)
    case Some(r) => Course(c.calls + step.calls, c.results + [r], false)
  }

  /** The course of the loop, `n` calls having been made before. */
  function CourseOf<E, R, C>(items: seq<E>, steps: Steps<E, R, C>, n: nat): Course<R, C> {
    if items == [] then Course([], [], false)
    else
      var i := |items| - 1;
      var c := CourseOf(items[..i], steps, n);
      if c.ended then c else Continue(c, steps(items[i], n + |c.calls|))
  }

  lemma CourseNext<E, R, C>(items: seq<E>, i: nat, steps: Steps<E, R, C>, n: nat)
    requires i < |items|
    ensures var c := CourseOf(items[..i], steps, n);
      CourseOf(items[..i + 1], steps, n) == if c.ended then c else Continue(c, steps(items[i], n + |c.calls|))
  {
    assert items[..i + 1][..i] == items[..i];
  }

  /** The calls that the last item adds. */
  lemma LastCalls<E, R, C>(items: seq<E>, steps: Steps<E, R, C>, n: nat) returns (block: seq<C>, m: nat)
    requires items != []
    ensures var i := |items| - 1;
      && CourseOf(items, steps, n).calls == CourseOf(items[..i], steps, n).calls + block
      && (block != [] ==> block == steps(items[i], m).calls)
  {
    var c := CourseOf(items[..|items| - 1], steps, n);
    m := n + |c.calls|;
    block := if c.ended then [] else steps(items[|items| - 1], m).calls;
  }

  /** A course that has ended stays as it is. */
  lemma {:induction false} EndedStays<E, R, C>(items: seq<E>, i: nat, steps: Steps<E, R, C>, n: nat)
    requires i <= |items| && CourseOf(items[..i], steps, n).ended
    ensures CourseOf(items, steps, n) == CourseOf(items[..i], steps, n)
    decreases |items| - i
  {
    if i == |items| {
      assert items[..i] == items;
    } else {
      CourseNext(items, i, steps, n);
      EndedStays(items, i + 1, steps, n);
    }
  }

  /** After `start`, the first `i` items have made these calls and got these results. */
  ghost predicate Progress<E, R, C>(items: seq<E>, i: nat, steps: Steps<E, R, C>, start: seq<C>, calls: seq<C>,
                                    done: seq<R>)
  {
    && i <= |items|
    && var c := CourseOf(items[..i], steps, |start|);
       calls == start + c.calls && done == c.results && !c.ended
  }

  lemma ProgressNext<E, R, C>(items: seq<E>, i: nat, steps: Steps<E, R, C>, start: seq<C>, calls: seq<C>, done: seq<R>)
    requires i < |items| && Progress(items, i, steps, start, calls, done)
    ensures var step := steps(items[i], |calls|);
      && (step.result.Some? ==> Progress(items, i + 1, steps, start, calls + step.calls, done + [step.result.value]))
      && (step.result.None? ==>
            && CourseOf(items, steps, |start|).ended
            && calls + step.calls == start + CourseOf(items, steps, |start|).calls)
  {
    var c, step := CourseOf(items[..i], steps, |start|), steps(items[i], |calls|);
    CourseNext(items, i, steps, |start|);
    Regroup(start, c.calls, step.calls);
    assert CourseOf(items[..i + 1], steps, |start|) == Continue(c, step);
    if step.result.None? {
      EndedStays(items, i + 1, steps, |start|);
    }
  }

  /** When an exception ends the loop, some item was the last to act: those before it were gone
      through, it made its calls up to the one that raised, and those after it did nothing. */
  lemma {:induction false} EndsAt<E, R, C>(items: seq<E>, steps: Steps<E, R, C>, n: nat) returns (k: nat)
    requires CourseOf(items, steps, n).ended
    ensures k < |items| && !CourseOf(items[..k], steps, n).ended
    ensures var c := CourseOf(items[..k], steps, n);
      var step := steps(items[k], n + |c.calls|);
      && step.result.None? && CourseOf(items, steps, n).calls == c.calls + step.calls
      && CourseOf(items, steps, n).results == c.results
  {
    var i := |items| - 1;
    if CourseOf(items[..i], steps, n).ended {
      k := EndsAt(items[..i], steps, n);
      assert items[..i][..k] == items[..k];
    } else {
      k := i;
    }
  }

  /** The results that the items have to give, each in its turn. */
  function Expected<E, R, C>(items: seq<E>, steps: Steps<E, R, C>, n: nat): (r: seq<Option<R>>)
    ensures |r| == |items|
  {
    if items == [] then []
    else
      var i := |items| - 1;
      Expected(items[..i], steps, n) + [steps(items[i], n + |CourseOf(items[..i], steps, n).calls|).result]
  }

  /** One result for each item, in order, unless the loop was ended. */
  lemma {:induction false} ResultsInOrder<E, R, C>(items: seq<E>, steps: Steps<E, R, C>, n: nat)
    ensures var c := CourseOf(items, steps, n);
      && |c.results| <= |items| && (!c.ended <==> |c.results| == |items|)
      && forall i :: 0 <= i < |c.results| ==> Some(c.results[i]) == Expected(items, steps, n)[i]
  {
    if items != [] {
      ResultsInOrder(items[..|items| - 1], steps, n);
    }
  }

  /** Where a result comes from. */
  lemma {:induction false} ExpectedAt<E, R, C>(items: seq<E>, i: nat, steps: Steps<E, R, C>, n: nat) returns (m: nat)
    requires i < |items|
    ensures m == n + |CourseOf(items[..i], steps, n).calls|
    ensures Expected(items, steps, n)[i] == steps(items[i], m).result
  {
    var j := |items| - 1;
    if i < j {
      assert items[..j][..i] == items[..i];
      m := ExpectedAt(items[..j], i, steps, n);
    } else {
      m := n + |CourseOf(items[..j], steps, n).calls|;
    }
  }

  /** Every call was made by some item in its turn. */
  lemma {:induction false} CallOrigin<E, R, C>(items: seq<E>, steps: Steps<E, R, C>, n: nat, call: C)
      returns (i: nat, m: nat)
    requires call in CourseOf(items, steps, n).calls
    ensures i < |items| && call in steps(items[i], m).calls
  {
    var j := |items| - 1;
    var c := CourseOf(items[..j], steps, n);
    if call in c.calls {
      i, m := CallOrigin(items[..j], steps, n, call);
    } else {
      i, m := j, n + |c.calls|;
    }
  }

  /** Call `k` is one of a block that some item made, all of it, in its turn. */
  ghost predicate InBlock<R, C>(calls: seq<C>, n: nat, k: nat, step: Step<R, C>, m: nat) {
    n <= m <= n + k < m + |step.calls| <= n + |calls| && calls[m - n..m - n + |step.calls|] == step.calls
  }

  lemma {:induction false} CallAt<E, R, C>(items: seq<E>, steps: Steps<E, R, C>, n: nat, k: nat)
      returns (i: nat, m: nat)
    requires k < |CourseOf(items, steps, n).calls|
    ensures i < |items| && InBlock(CourseOf(items, steps, n).calls, n, k, steps(items[i], m), m)
  {
    var j := |items| - 1;
    var c := CourseOf(items[..j], steps, n);
    if k < |c.calls| {
      i, m := CallAt(items[..j], steps, n, k);
      var b := |steps(items[i], m).calls|;
      assert CourseOf(items, steps, n).calls[..|c.calls|] == c.calls;
      assert CourseOf(items, steps, n).calls[m - n..m - n + b] == c.calls[m - n..m - n + b];
    } else {
      i, m := j, n + |c.calls|;
    }
  }

  /** An item whose turn comes makes its calls. */
  lemma {:induction false} TurnCalls<E, R, C>(items: seq<E>, i: nat, steps: Steps<E, R, C>, n: nat) returns (m: nat)
    requires i < |items| && !CourseOf(items[..i], steps, n).ended
    ensures forall c :: c in steps(items[i], m).calls ==> c in CourseOf(items, steps, n).calls
  {
    var j := |items| - 1;
    if i < j {
      assert items[..j][..i] == items[..i];
      m := TurnCalls(items[..j], i, steps, n);
    } else {
      m := n + |CourseOf(items[..j], steps, n).calls|;
    }
  }

  /** In a loop that makes no call, no item makes one. */
  lemma {:induction false} NoneCalls<E, R, C>(items: seq<E>, steps: Steps<E, R, C>, n: nat, i: nat)
    requires CourseOf(items, steps, n).calls == [] && i < |items|
    requires forall e, m :: steps(e, m).result.None? ==> steps(e, m).calls != []
    ensures !CourseOf(items, steps, n).ended && steps(items[i], n).calls == []
  {
    var j := |items| - 1;
    if j > 0 {
      NoneCalls(items[..j], steps, n, if i < j then i else 0);
    }
  }

  /** Where no item makes a call or raises, nothing happens. */
  lemma {:induction false} Silent<E, R, C>(items: seq<E>, steps: Steps<E, R, C>, n: nat)
    requires forall e, m :: e in items ==> steps(e, m).calls == [] && steps(e, m).result.Some?
    ensures CourseOf(items, steps, n).calls == [] && !CourseOf(items, steps, n).ended
  {
    if items != [] {
      assert items[|items| - 1] in items;
      Silent(items[..|items| - 1], steps, n);
    }
  }

  // ------------------------------------------------------- what ends the loop

  /** An item raises exactly when the last of its calls does, and no earlier one can have. */
  predicate EndsRight<R, C>(step: Step<R, C>, raises: nat -> bool, m: nat) {
    && (step.result.None? <==> step.calls != [] && raises(m + |step.calls| - 1))
    && forall i :: m <= i < m + |step.calls| - 1 ==> !raises(i)
  }

  predicate NoneRaises(raises: nat -> bool, n: nat, made: nat) { forall i :: n <= i < n + made ==> !raises(i) }

  /** `made` calls were made, and the loop has ended exactly if the last of them raised. */
  predicate EndedRight(ended: bool, raises: nat -> bool, n: nat, made: nat) {
    if ended then made > 0 && raises(n + made - 1) && NoneRaises(raises, n, made - 1) else NoneRaises(raises, n, made)
  }

  lemma {:induction false} CourseEnded<E, R, C>(items: seq<E>, steps: Steps<E, R, C>, raises: nat -> bool, n: nat)
    requires forall e, m :: EndsRight(steps(e, m), raises, m)
    ensures var c := CourseOf(items, steps, n); EndedRight(c.ended, raises, n, |c.calls|)
  {
    if items != [] {
      var i := |items| - 1;
      CourseEnded(items[..i], steps, raises, n);
      var c := CourseOf(items[..i], steps, n);
      if !c.ended {
        EndedStep(steps(items[i], n + |c.calls|), raises, n, |c.calls|);
      }
    }
  }

  /** The loop is ended exactly when some call made raised, and then it was the last one made. */
  lemma EndedIff<E, R, C>(items: seq<E>, steps: Steps<E, R, C>, raises: nat -> bool, n: nat)
    requires forall e, m :: EndsRight(steps(e, m), raises, m)
    ensures var c := CourseOf(items, steps, n);
      EndedRight(c.ended, raises, n, |c.calls|) && (c.ended <==> !NoneRaises(raises, n, |c.calls|))
  {
    CourseEnded(items, steps, raises, n);
    var c := CourseOf(items, steps, n);
    if c.ended {
      assert raises(n + |c.calls| - 1);
    }
  }

  lemma EndedStep<R, C>(step: Step<R, C>, raises: nat -> bool, n: nat, made: nat)
    requires NoneRaises(raises, n, made) && EndsRight(step, raises, n + made)
    ensures EndedRight(step.result.None?, raises, n, made + |step.calls|)
  {}
}
