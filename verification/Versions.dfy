/** Selection of a published API version (`_resolve_compatible_api_version`,
    libs/cli/langgraph_cli/config.py). The two patterns that read text are parameters. */
module Versions {
  import opened Prelude

  datatype Stage = Dev | Rc | Stable
  datatype Parsed = Version(release: seq<nat>, stage: Stage, number: nat)

  /** What the version pattern can yield: one to three numbers, and no number without a stage. */
  predicate Readable(v: Parsed) { 1 <= |v.release| <= 3 && (v.stage.Stable? ==> v.number == 0) }

  type Parser = f: string -> Option<Parsed> | forall s :: f(s).Some? ==> Readable(f(s).value) witness _ => None

  datatype Range = Range(floor: Parsed, allowFutureStable: bool)
  datatype UsageError = BadRange | TaggedImage | Unreachable | NoMatch

  // ----------------------------------------------------------- tuple order

  /** Comparison of two tuples of numbers: a proper prefix is smaller. */
  predicate Less(a: seq<nat>, b: seq<nat>) {
    b != [] && (a == [] || a[0] < b[0] || (a[0] == b[0] && Less(a[1..], b[1..])))
  }

  function Rank(s: Stage): nat { match s case Dev => 0 case Rc => 1 case Stable => 2 }

  /** Comparison of sort keys. */
  predicate Before(u: Parsed, v: Parsed) {
    || Less(u.release, v.release)
    || (u.release == v.release
        && (Rank(u.stage) < Rank(v.stage) || (u.stage == v.stage && u.number < v.number)))
  }

  predicate AtMost(u: Parsed, v: Parsed) { !Before(v, u) }

  lemma {:induction false} LessTotal(a: seq<nat>, b: seq<nat>)
    ensures Less(a, b) || a == b || Less(b, a)
    ensures !(Less(a, b) && Less(b, a)) && !Less(a, a)
  {
    if a != [] && b != [] && a[0] == b[0] {
      LessTotal(a[1..], b[1..]);
      assert a == [a[0]] + a[1..] && b == [b[0]] + b[1..];
    }
    if a != [] {
      LessTotal(a[1..], a[1..]);
    }
  }

  lemma {:induction false} LessTransitive(a: seq<nat>, b: seq<nat>, c: seq<nat>)
    requires Less(a, b) && Less(b, c)
    ensures Less(a, c)
  {
    if a != [] && a[0] == b[0] == c[0] {
      LessTransitive(a[1..], b[1..], c[1..]);
    }
  }

  /** Of two versions exactly one comes first, unless they are the same version. */
  lemma OrderTotal(u: Parsed, v: Parsed)
    ensures Before(u, v) || u == v || Before(v, u)
    ensures !(Before(u, v) && Before(v, u)) && !Before(u, u)
  {
    LessTotal(u.release, v.release);
    LessTotal(u.release, u.release);
  }

  lemma OrderTransitive(u: Parsed, v: Parsed, w: Parsed)
    requires AtMost(u, v) && AtMost(v, w)
    ensures AtMost(u, w)
  {
    OrderTotal(u, v);
    OrderTotal(v, w);
    OrderTotal(u, w);
    if Before(u, v) && Before(v, w) {
      BeforeTransitive(u, v, w);
    }
  }

  lemma BeforeTransitive(u: Parsed, v: Parsed, w: Parsed)
    requires Before(u, v) && Before(v, w)
    ensures Before(u, w)
  {
    if Less(u.release, v.release) && Less(v.release, w.release) {
      LessTransitive(u.release, v.release, w.release);
    }
  }

  /** As in PEP 440: of one release all dev releases come first, then the candidates, in the order of
      their numbers, and then the release itself. */
  lemma StagesInOrder(release: seq<nat>, m: nat, n: nat)
    ensures Before(Version(release, Dev, m), Version(release, Rc, n))
    ensures Before(Version(release, Rc, m), Version(release, Stable, 0))
    ensures m < n ==> Before(Version(release, Dev, m), Version(release, Dev, n))
    ensures m < n ==> Before(Version(release, Rc, m), Version(release, Rc, n))
  {}

  // ------------------------------------------------- missing parts and zeros

  function Padded(a: seq<nat>, n: nat): (p: seq<nat>)
    requires |a| <= n
    ensures |p| == n
  {
    a + seq(n - |a|, _ => 0)
  }

  predicate Zeros(a: seq<nat>) { forall i :: 0 <= i < |a| ==> a[i] == 0 }

  lemma {:induction false} NotBelowZeros(a: seq<nat>, z: seq<nat>)
    requires |a| == |z| && Zeros(z)
    ensures !Less(a, z) && (Less(z, a) <==> !Zeros(a))
  {
    if a != [] {
      assert z[0] == 0;
      NotBelowZeros(a[1..], z[1..]);
      assert a == [a[0]] + a[1..];
      assert forall i :: 0 <= i < |a| - 1 ==> a[1..][i] == a[i + 1];
      assert forall i :: 1 <= i < |a| ==> a[i] == a[1..][i - 1];
    }
  }

  /** The order used differs from the order of PEP 440, which reads a missing part as zero, exactly
      when one release is the other with only zeros added. */
  lemma {:induction false} PaddedOrderIff(a: seq<nat>, b: seq<nat>, n: nat)
    requires |a| <= n && |b| <= n
    ensures (Less(a, b) <==> Less(Padded(a, n), Padded(b, n))) <==> !(a < b && Zeros(b[|a|..]))
  {
    var pa, pb := Padded(a, n), Padded(b, n);
    if a == [] {
      NotBelowZeros(pb, pa);
      assert b[0..] == b;
      assert Zeros(pb) <==> Zeros(b) by {
        assert forall i :: 0 <= i < |b| ==> pb[i] == b[i];
      }
    } else if b == [] {
      NotBelowZeros(pa, pb);
    } else {
      PaddedOrderIff(a[1..], b[1..], n - 1);
      assert pa[1..] == Padded(a[1..], n - 1) && pb[1..] == Padded(b[1..], n - 1);
      if a[0] == b[0] {
        assert a == [a[0]] + a[1..] && b == [b[0]] + b[1..];
        assert a < b <==> a[1..] < b[1..];
        assert a < b ==> b[|a|..] == b[1..][|a[1..]|..];
      }
    }
  }

  // ------------------------------------------------------------ compatibility

  function UpperBound(v: Parsed): seq<nat>
    requires Readable(v)
  {
    if |v.release| <= 2 then [v.release[0] + 1] else [v.release[0], v.release[1] + 1]
  }

  function Start(a: seq<nat>, n: nat): seq<nat> { if |a| <= n then a else a[..n] }

  predicate Compatible(c: Parsed, range: Range, upper: seq<nat>) {
    if Before(c, range.floor) then false
    else
      var outside := !Less(Start(c.release, |upper|), upper);
      if outside && !range.allowFutureStable then false
      else if outside && !c.stage.Stable? then false
      else if range.floor.stage.Dev? && c.stage.Dev? then c == range.floor
      else true
  }

  /** Cutting a release to the length of the bound does not change how it compares with the bound. */
  lemma {:induction false} PrefixComparison(a: seq<nat>, upper: seq<nat>)
    ensures Less(Start(a, |upper|), upper) <==> Less(a, upper)
  {
    if a != [] && upper != [] {
      PrefixComparison(a[1..], upper[1..]);
      assert Start(a, |upper|)[1..] == Start(a[1..], |upper[1..]|);
    }
  }

  /** The parts of the floor that a compatible release must share: all but the last, at least one. */
  function Fixed(floor: Parsed): seq<nat>
    requires Readable(floor)
  {
    if |floor.release| <= 2 then floor.release[..1] else floor.release[..2]
  }

  predicate DevRule(c: Parsed, floor: Parsed) { c.stage.Dev? && floor.stage.Dev? ==> c == floor }

  lemma BelowBoundIff(c: Parsed, floor: Parsed)
    requires Readable(c) && Readable(floor) && AtMost(floor, c)
    ensures Less(c.release, UpperBound(floor)) <==> Fixed(floor) <= c.release
  {
    var a, f := c.release, floor.release;
    LessTotal(f, a);
    assert f[0] <= a[0];
    if |f| <= 2 {
      assert Less(a, UpperBound(floor)) <==> a[0] == f[0];
      assert Fixed(floor) == [f[0]];
    } else {
      assert Fixed(floor) == [f[0], f[1]];
      if a[0] == f[0] {
        SecondPart(a[1..], f[1..]);
      }
    }
  }

  lemma SecondPart(a: seq<nat>, f: seq<nat>)
    requires f != [] && (Less(f, a) || f == a)
    ensures a != [] && f[0] <= a[0]
    ensures Less(a, [f[0] + 1]) <==> a[0] == f[0]
  {
    assert !Less(a[1..], []);
  }

  /** With `~=` a candidate is accepted exactly when it is a compatible release of the floor in the
      sense of PEP 440 (not below it, and sharing all its parts but the last) that obeys the rule on
      dev releases. With `>~=` exactly the stable releases from the bound on come in as well. */
  lemma CompatibleIff(c: Parsed, range: Range)
    requires Readable(c) && Readable(range.floor)
    ensures Compatible(c, range, UpperBound(range.floor)) <==>
            && AtMost(range.floor, c) && DevRule(c, range.floor)
            && (Fixed(range.floor) <= c.release || (range.allowFutureStable && c.stage.Stable?))
  {
    PrefixComparison(c.release, UpperBound(range.floor));
    if AtMost(range.floor, c) {
      BelowBoundIff(c, range.floor);
    }
  }

  // ---------------------------------------------------------------- resolving

  predicate Accepted(s: string, parse: Parser, range: Range)
    requires Readable(range.floor)
  {
    parse(s).Some? && Compatible(parse(s).value, range, UpperBound(range.floor))
  }

  /** `s` is the first of the published accepted versions that no other comes after. */
  ghost predicate IsChosen(s: string, published: seq<string>, parse: Parser, range: Range)
    requires Readable(range.floor)
  {
    exists i :: 0 <= i < |published| && s == published[i] && IsChosenAt(i, published, parse, range)
  }

  ghost predicate IsChosenAt(i: nat, published: seq<string>, parse: Parser, range: Range)
    requires i < |published| && Readable(range.floor)
  {
    && Accepted(published[i], parse, range)
    && (forall j :: 0 <= j < |published| && Accepted(published[j], parse, range) ==>
          AtMost(parse(published[j]).value, parse(published[i]).value))
    && (forall j :: 0 <= j < i && Accepted(published[j], parse, range) ==>
          Before(parse(published[j]).value, parse(published[i]).value))
  }

  datatype Operator = Compatibly | CompatiblyOrNewer

  /** The candidates are the accepted ones among the first `n` published versions, which stand at
      the positions `at`. */
  ghost predicate Placed(candidates: seq<(Parsed, string)>, at: seq<nat>, n: nat, published: seq<string>,
                         parse: Parser, range: Range)
    requires n <= |published| && Readable(range.floor)
  {
    && |at| == |candidates|
    && (forall k :: 0 <= k < |at| ==>
          at[k] < n && Accepted(published[at[k]], parse, range)
          && candidates[k] == (parse(published[at[k]]).value, published[at[k]]))
    && (forall k, l :: 0 <= k < l < |at| ==> at[k] < at[l])
    && (forall j :: 0 <= j < n && Accepted(published[j], parse, range) ==> j in at)
  }

  lemma PlacedContents(candidates: seq<(Parsed, string)>, at: seq<nat>, published: seq<string>, parse: Parser,
                       range: Range)
    requires Readable(range.floor) && Placed(candidates, at, |published|, published, parse, range)
    ensures forall s :: s in published && Accepted(s, parse, range) ==> (parse(s).value, s) in candidates
    ensures forall c :: c in candidates ==>
      c.1 in published && Accepted(c.1, parse, range) && c.0 == parse(c.1).value
  {
    forall s | s in published && Accepted(s, parse, range) ensures (parse(s).value, s) in candidates {
      var j :| 0 <= j < |published| && published[j] == s;
      var k :| 0 <= k < |at| && at[k] == j;
      assert candidates[k] == (parse(s).value, s);
    }
  }

  /** Collects the accepted versions in order; a text that cannot be read is passed over. */
  method Candidates(published: seq<string>, parse: Parser, range: Range)
      returns (candidates: seq<(Parsed, string)>, ghost at: seq<nat>)
    requires Readable(range.floor)
    ensures Placed(candidates, at, |published|, published, parse, range)
    ensures forall s :: s in published && Accepted(s, parse, range) ==> (parse(s).value, s) in candidates
    ensures forall c :: c in candidates ==>
      c.1 in published && Accepted(c.1, parse, range) && c.0 == parse(c.1).value
  {
    candidates, at := [], [];
    var upper := UpperBound(range.floor);
    for i := 0 to |published|
      invariant Placed(candidates, at, i, published, parse, range)
    {
      match parse(published[i])
      case None =>
      case Some(candidate) =>
        if Compatible(candidate, range, upper) {
          candidates, at := candidates + [(candidate, published[i])], at + [i];
        }
    }
    PlacedContents(candidates, at, published, parse, range);
  }

  /** The first greatest candidate. */
  method Greatest(candidates: seq<(Parsed, string)>) returns (best: nat)
    requires candidates != []
    ensures best < |candidates|
    ensures forall k :: 0 <= k < |candidates| ==> AtMost(candidates[k].0, candidates[best].0)
    ensures forall k :: 0 <= k < best ==> Before(candidates[k].0, candidates[best].0)
  {
    best := 0;
    OrderTotal(candidates[0].0, candidates[0].0);
    for i := 1 to |candidates|
      invariant best < i
      invariant forall k :: 0 <= k < i ==> AtMost(candidates[k].0, candidates[best].0)
      invariant forall k :: 0 <= k < best ==> Before(candidates[k].0, candidates[best].0)
    {
      if Before(candidates[best].0, candidates[i].0) {
        forall k | 0 <= k < i
          ensures Before(candidates[k].0, candidates[i].0) && AtMost(candidates[k].0, candidates[i].0)
        {
          NewBest(candidates[k].0, candidates[best].0, candidates[i].0);
        }
        OrderTotal(candidates[i].0, candidates[i].0);
        best := i;
      }
    }
  }

  lemma NewBest(u: Parsed, v: Parsed, w: Parsed)
    requires AtMost(u, v) && Before(v, w)
    ensures Before(u, w) && AtMost(u, w)
  {
    OrderTotal(u, v);
    if Before(u, v) {
      BeforeTransitive(u, v, w);
    }
    OrderTotal(u, w);
  }

  /** The whole resolution: `readRange` recognises a range, `index` is what the package index answers. */
  method Resolve(api: string, readRange: string -> Option<(Operator, string)>, parse: Parser, baseImage: string,
                 index: Option<seq<string>>) returns (r: Result<string, UsageError>)
    ensures readRange(api).None? ==> r == Success(api)
    ensures readRange(api).Some? ==>
      match parse(readRange(api).value.1)
      case None => r == Failure(BadRange)
      case Some(floor) =>
        var range := Range(floor, readRange(api).value.0.CompatiblyOrNewer?);
        if ':' in baseImage then r == Failure(TaggedImage)
        else if index.None? then r == Failure(Unreachable)
        else
          && (r.Success? ==> IsChosen(r.value, index.value, parse, range))
          && (r.Failure? ==> r.error == NoMatch && forall s :: s in index.value ==> !Accepted(s, parse, range))
  {
    var text := readRange(api);
    if text.None? {
      return Success(api);
    }
    var floor := parse(text.value.1);
    if floor.None? {
      return Failure(BadRange);
    }
    if ':' in baseImage {
      return Failure(TaggedImage);
    }
    if index.None? {
      return Failure(Unreachable);
    }
    r := Choose(index.value, parse, Range(floor.value, text.value.0.CompatiblyOrNewer?));
  }

  method Choose(published: seq<string>, parse: Parser, range: Range) returns (r: Result<string, UsageError>)
    requires Readable(range.floor)
    ensures r.Success? ==> IsChosen(r.value, published, parse, range)
    ensures r.Failure? ==> r.error == NoMatch && forall s :: s in published ==> !Accepted(s, parse, range)
  {
    var candidates, at := Candidates(published, parse, range);
    if candidates == [] {
      return Failure(NoMatch);
    }
    var best := Greatest(candidates);
    r := Success(candidates[best].1);
    forall j | 0 <= j < |published| && Accepted(published[j], parse, range)
      ensures AtMost(parse(published[j]).value, parse(published[at[best]]).value)
      ensures j < at[best] ==> Before(parse(published[j]).value, parse(published[at[best]]).value)
    {
      var k :| 0 <= k < |at| && at[k] == j;
      assert AtMost(candidates[k].0, candidates[best].0);
    }
    assert IsChosenAt(at[best], published, parse, range);
  }

  // ------------------------------------------------------------ consequences

  /** The contract of `Choose` leaves no freedom: at most one text is chosen, and one is chosen
      exactly when some published version is accepted. */
  lemma ChosenUnique(s: string, t: string, published: seq<string>, parse: Parser, range: Range)
    requires Readable(range.floor)
    requires IsChosen(s, published, parse, range) && IsChosen(t, published, parse, range)
    ensures s == t
  {
    var i :| 0 <= i < |published| && s == published[i] && IsChosenAt(i, published, parse, range);
    var j :| 0 <= j < |published| && t == published[j] && IsChosenAt(j, published, parse, range);
    OrderTotal(parse(s).value, parse(t).value);
  }

  /** Publishing more versions never lowers the chosen one, and never leaves none to choose. */
  lemma MorePublished(s: string, t: string, few: seq<string>, many: seq<string>, parse: Parser, range: Range)
    requires Readable(range.floor) && forall v :: v in few ==> v in many
    requires IsChosen(s, few, parse, range)
    ensures exists v :: v in many && Accepted(v, parse, range)
    ensures IsChosen(t, many, parse, range) ==> AtMost(parse(s).value, parse(t).value)
  {
    assert s in many && Accepted(s, parse, range);
  }

  /** With `>~=` the chosen version is at least the one chosen with `~=`. */
  lemma WiderRange(s: string, t: string, published: seq<string>, parse: Parser, floor: Parsed)
    requires Readable(floor)
    requires IsChosen(s, published, parse, Range(floor, false)) && IsChosen(t, published, parse, Range(floor, true))
    ensures AtMost(parse(s).value, parse(t).value)
    ensures Fixed(floor) <= parse(s).value.release
    ensures parse(t).value.stage.Stable? || Fixed(floor) <= parse(t).value.release
  {
    CompatibleIff(parse(s).value, Range(floor, false));
    CompatibleIff(parse(s).value, Range(floor, true));
    CompatibleIff(parse(t).value, Range(floor, true));
    assert Accepted(s, parse, Range(floor, true));
  }

  /** With a dev floor, the chosen version is the floor itself or not a dev release. */
  lemma DevFloor(s: string, published: seq<string>, parse: Parser, range: Range)
    requires Readable(range.floor) && range.floor.stage.Dev?
    requires IsChosen(s, published, parse, range)
    ensures parse(s).value == range.floor || !parse(s).value.stage.Dev?
  {
    CompatibleIff(parse(s).value, range);
  }
}
