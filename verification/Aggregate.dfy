/** Aggregation of sales into a window (`_aggregate`,
    apps/hotmart-ebook-agent/hotmart_agent/integrations/hotmart.py). Money is a real number. */
module Aggregate {
  import opened Prelude

  /** The first ten characters of an order date: a calendar day, by its ordinal, or other text. */
  datatype Day = Date(ordinal: int) | Text(s: string)

  /** A sale as read from the API: status in upper case, absent values at their defaults. */
  datatype Sale = Sale(status: string, price: real, commission: real, source: string,
                       day: Option<Day>, affiliate: string)

  const APPROVED := {"APPROVED", "COMPLETE"}
  const REFUNDED := {"REFUNDED", "CANCELLED"}
  const CHARGEBACK := {"CHARGEBACK"}
  const PENDING := {"WAITING_PAYMENT", "PRINTED_BILLET", "STARTED"}

  datatype Stats = Stats(units: nat, revenue: real)

  class SalesWindow {
    const start: int
    const end: int
    var units: nat
    var gross: real
    var net: real
    var refunds: nat
    var refunded: real
    var chargebacks: nat
    var pendingBillets: nat
    var affiliateUnits: nat
    var checkoutSessions: nat
    var topAffiliateRevenue: real
    var dailyRevenue: seq<real>
    var bySource: map<string, Stats>

    constructor (start: int, end: int)
      ensures this.start == start && this.end == end
      ensures Counts() == Window(0, 0.0, 0.0, 0, 0.0, 0, 0, 0)
      ensures bySource == map[] && topAffiliateRevenue == 0.0 && dailyRevenue == [] && checkoutSessions == 0
    {
      this.start, this.end := start, end;
      units, gross, net, refunds, refunded := 0, 0.0, 0.0, 0, 0.0;
      chargebacks, pendingBillets, affiliateUnits, checkoutSessions := 0, 0, 0, 0;
      topAffiliateRevenue, dailyRevenue, bySource := 0.0, [], map[];
    }

    function Counts(): Window
      reads this
    {
      Window(units, gross, net, refunds, refunded, chargebacks, pendingBillets, affiliateUnits)
    }
  }

  /** The additive fields of a window. */
  datatype Window = Window(units: nat, gross: real, net: real, refunds: nat, refunded: real,
                           chargebacks: nat, pendingBillets: nat, affiliateUnits: nat)

  // --------------------------------------------------- sums told sale by sale

  /** The sum of `f` over the sales that satisfy `p`. */
  function SumOf(sales: seq<Sale>, p: Sale -> bool, f: Sale -> real): real {
    if sales == [] then 0.0
    else
      var last := sales[|sales| - 1];
      SumOf(sales[..|sales| - 1], p, f) + if p(last) then f(last) else 0.0
  }

  function CountOf(sales: seq<Sale>, p: Sale -> bool): nat {
    if sales == [] then 0
    else CountOf(sales[..|sales| - 1], p) + if p(sales[|sales| - 1]) then 1 else 0
  }

  function IsApproved(): Sale -> bool { (s: Sale) => s.status in APPROVED }
  function IsRefunded(): Sale -> bool { (s: Sale) => s.status in REFUNDED }
  function IsChargeback(): Sale -> bool { (s: Sale) => s.status in CHARGEBACK }
  function IsPending(): Sale -> bool { (s: Sale) => s.status in PENDING }
  function IsUnknown(): Sale -> bool { (s: Sale) => s.status !in APPROVED + REFUNDED + CHARGEBACK + PENDING }
  function ApprovedFrom(src: string): Sale -> bool { (s: Sale) => s.status in APPROVED && s.source == src }
  function ApprovedBy(name: string): Sale -> bool { (s: Sale) => s.status in APPROVED && s.affiliate == name }
  function HasAffiliate(): Sale -> bool { (s: Sale) => s.status in APPROVED && s.affiliate != "" }
  function Price(): Sale -> real { (s: Sale) => s.price }
  function Commission(): Sale -> real { (s: Sale) => s.commission }

  function DayOf(s: Sale, start: int): Day { if s.day.Some? then s.day.value else Date(start) }

  function OnDay(start: int, d: Day): Sale -> bool { (s: Sale) => s.status in APPROVED && DayOf(s, start) == d }

  /** Approved sales whose day is not among the days of the window. */
  function OutOfWindow(start: int, days: nat): Sale -> bool {
    (s: Sale) => s.status in APPROVED &&
                 !(DayOf(s, start).Date? && start <= DayOf(s, start).ordinal < start + days)
  }

  function DaysOf(start: int, end: int): (days: nat)
    ensures days >= 1 && (end > start ==> days == end - start) && (end <= start ==> days == 1)
  { if end - start < 1 then 1 else end - start }

  ghost function Totals(sales: seq<Sale>): Window {
    Window(CountOf(sales, IsApproved()), SumOf(sales, IsApproved(), Price()),
           SumOf(sales, IsApproved(), Commission()), CountOf(sales, IsRefunded()),
           SumOf(sales, IsRefunded(), Price()), CountOf(sales, IsChargeback()),
           CountOf(sales, IsPending()), CountOf(sales, HasAffiliate()))
  }

  /** The per-source dictionary: a source appears when it has an approved sale, with its sums. */
  ghost predicate SourcesRight(sales: seq<Sale>, m: map<string, Stats>) {
    && (forall k :: k in m <==> CountOf(sales, ApprovedFrom(k)) > 0)
    && (forall k :: k in m ==>
          m[k] == Stats(CountOf(sales, ApprovedFrom(k)), SumOf(sales, ApprovedFrom(k), Price())))
  }

  ghost predicate AffiliatesRight(sales: seq<Sale>, m: map<string, real>) {
    && (forall k :: k in m <==> k != "" && CountOf(sales, ApprovedBy(k)) > 0)
    && (forall k :: k in m ==> m[k] == SumOf(sales, ApprovedBy(k), Price()))
  }

  ghost predicate DaysRight(sales: seq<Sale>, start: int, m: map<Day, real>) {
    forall d :: (if d in m then m[d] else 0.0) == SumOf(sales, OnDay(start, d), Price())
  }

  /** The largest entry, or nothing for an empty dictionary. */
  ghost predicate IsTop(m: map<string, real>, top: real) {
    && (m == map[] ==> top == 0.0)
    && (m != map[] ==> (exists k :: k in m && m[k] == top) && forall k :: k in m ==> m[k] <= top)
  }

  method MaxValue(m: map<string, real>) returns (top: real)
    ensures IsTop(m, top)
  {
    if m == map[] {
      return 0.0;
    }
    var best :| best in m;
    var todo := m.Keys - {best};
    while todo != {}
      invariant best in m && todo <= m.Keys
      invariant forall k :: k in m && k !in todo ==> m[k] <= m[best]
      decreases todo
    {
      var k :| k in todo;
      if m[best] < m[k] {
        best := k;
      }
      todo := todo - {k};
    }
    top := m[best];
  }

  /** What one sale adds to the fields and to the dictionaries. */
  function Added(t: Window, s: Sale): Window {
    if s.status in APPROVED then
      t.(units := t.units + 1, gross := t.gross + s.price, net := t.net + s.commission,
         affiliateUnits := t.affiliateUnits + if s.affiliate != "" then 1 else 0)
    else if s.status in REFUNDED then t.(refunds := t.refunds + 1, refunded := t.refunded + s.price)
    else if s.status in CHARGEBACK then t.(chargebacks := t.chargebacks + 1)
    else if s.status in PENDING then t.(pendingBillets := t.pendingBillets + 1)
    else t
  }

  datatype Dictionaries = Dictionaries(sources: map<string, Stats>, affiliates: map<string, real>, days: map<Day, real>)

  function AddedTo(d: Dictionaries, s: Sale, start: int): Dictionaries {
    if s.status !in APPROVED then d
    else
      var was := if s.source in d.sources then d.sources[s.source] else Stats(0, 0.0);
      Dictionaries(d.sources[s.source := Stats(was.units + 1, was.revenue + s.price)],
                   if s.affiliate != "" then Plus(d.affiliates, s.affiliate, s.price) else d.affiliates,
                   Plus(d.days, DayOf(s, start), s.price))
  }

  ghost predicate DictionariesRight(sales: seq<Sale>, start: int, d: Dictionaries) {
    SourcesRight(sales, d.sources) && AffiliatesRight(sales, d.affiliates) && DaysRight(sales, start, d.days)
  }

  method AddSale(w: SalesWindow, d: Dictionaries, sale: Sale) returns (d': Dictionaries)
    modifies w
    ensures w.Counts() == Added(old(w.Counts()), sale)
    ensures d' == AddedTo(d, sale, w.start)
    ensures w.bySource == old(w.bySource) && w.dailyRevenue == old(w.dailyRevenue)
  {
    d' := d;
    if sale.status in APPROVED {
      w.units := w.units + 1;
      w.gross := w.gross + sale.price;
      w.net := w.net + sale.commission;
      d' := d'.(days := Plus(d'.days, DayOf(sale, w.start), sale.price));
      var stats := if sale.source in d'.sources then d'.sources[sale.source] else Stats(0, 0.0);
      d' := d'.(sources := d'.sources[sale.source := Stats(stats.units + 1, stats.revenue + sale.price)]);
      if sale.affiliate != "" {
        w.affiliateUnits := w.affiliateUnits + 1;
        d' := d'.(affiliates := Plus(d'.affiliates, sale.affiliate, sale.price));
      }
    } else if sale.status in REFUNDED {
      w.refunds := w.refunds + 1;
      w.refunded := w.refunded + sale.price;
    } else if sale.status in CHARGEBACK {
      w.chargebacks := w.chargebacks + 1;
    } else if sale.status in PENDING {
      w.pendingBillets := w.pendingBillets + 1;
    }
  }

  /** Every field of the window is the sum or count that its name announces. */
  method Aggregated(start: int, end: int, sales: seq<Sale>) returns (w: SalesWindow)
    ensures fresh(w) && w.start == start && w.end == end
    ensures w.Counts() == Totals(sales)
    ensures SourcesRight(sales, w.bySource)
    ensures exists m :: AffiliatesRight(sales, m) && IsTop(m, w.topAffiliateRevenue)
    ensures w.dailyRevenue == Daily(sales, start, DaysOf(start, end))
    ensures w.checkoutSessions == w.units + w.pendingBillets
  {
    w := new SalesWindow(start, end);
    var d := Dictionaries(map[], map[], map[]);
    for i := 0 to |sales|
      invariant fresh(w) && w.start == start && w.end == end
      invariant w.Counts() == Totals(sales[..i])
      invariant DictionariesRight(sales[..i], start, d)
    {
      assert sales[..i + 1] == sales[..i] + [sales[i]];
      TotalsNext(sales[..i], sales[i]);
      DictionariesNext(sales[..i], sales[i], start, d);
      d := AddSale(w, d, sales[i]);
    }
    assert sales[..|sales|] == sales;
    w.bySource := d.sources;
    w.topAffiliateRevenue := MaxValue(d.affiliates);
    w.dailyRevenue := Series(d.days, start, DaysOf(start, end));
    SeriesIsDaily(sales, d.days, start, DaysOf(start, end));
    w.checkoutSessions := w.units + w.pendingBillets;
  }

  /** The days from `start` on as a dictionary by day has them, zero where it has nothing. */
  function Series(m: map<Day, real>, start: int, days: nat): seq<real> {
    seq(days, i requires 0 <= i => if Date(start + i) in m then m[Date(start + i)] else 0.0)
  }

  lemma SeriesIsDaily(sales: seq<Sale>, m: map<Day, real>, start: int, days: nat)
    requires DaysRight(sales, start, m)
    ensures Series(m, start, days) == Daily(sales, start, days)
  {
    assert forall i :: 0 <= i < days ==> Series(m, start, days)[i] == Daily(sales, start, days)[i];
  }

  /** A dictionary with default zero, increased at one key. */
  function Plus<K>(m: map<K, real>, k: K, v: real): map<K, real> {
    m[k := (if k in m then m[k] else 0.0) + v]
  }

  ghost function Daily(sales: seq<Sale>, start: int, days: nat): seq<real> {
    seq(days, i requires 0 <= i => SumOf(sales, OnDay(start, Date(start + i)), Price()))
  }

  lemma SumNext(sales: seq<Sale>, s: Sale, p: Sale -> bool, f: Sale -> real)
    ensures SumOf(sales + [s], p, f) == SumOf(sales, p, f) + if p(s) then f(s) else 0.0
  {
    assert (sales + [s])[..|sales|] == sales;
  }

  lemma CountNext(sales: seq<Sale>, s: Sale, p: Sale -> bool)
    ensures CountOf(sales + [s], p) == CountOf(sales, p) + if p(s) then 1 else 0
  {
    assert (sales + [s])[..|sales|] == sales;
  }

  /** No status is in two of the categories. */
  lemma OneCategory(s: Sale)
    ensures s.status in APPROVED ==> s.status !in REFUNDED + CHARGEBACK + PENDING
    ensures s.status in REFUNDED ==> s.status !in CHARGEBACK + PENDING
    ensures s.status in CHARGEBACK ==> s.status !in PENDING
  {}

  lemma ApprovedNext(sales: seq<Sale>, s: Sale)
    ensures var was, now, yes := Totals(sales), Totals(sales + [s]), s.status in APPROVED;
            && now.units == was.units + (if yes then 1 else 0)
            && now.gross == was.gross + (if yes then s.price else 0.0)
            && now.net == was.net + (if yes then s.commission else 0.0)
            && now.affiliateUnits == was.affiliateUnits + (if yes && s.affiliate != "" then 1 else 0)
  {
    CountNext(sales, s, IsApproved());
    SumNext(sales, s, IsApproved(), Price());
    SumNext(sales, s, IsApproved(), Commission());
    CountNext(sales, s, HasAffiliate());
  }

  lemma OthersNext(sales: seq<Sale>, s: Sale)
    ensures var was, now := Totals(sales), Totals(sales + [s]);
            && now.refunds == was.refunds + (if s.status in REFUNDED then 1 else 0)
            && now.refunded == was.refunded + (if s.status in REFUNDED then s.price else 0.0)
            && now.chargebacks == was.chargebacks + (if s.status in CHARGEBACK then 1 else 0)
            && now.pendingBillets == was.pendingBillets + (if s.status in PENDING then 1 else 0)
  {
    CountNext(sales, s, IsRefunded());
    SumNext(sales, s, IsRefunded(), Price());
    CountNext(sales, s, IsChargeback());
    CountNext(sales, s, IsPending());
  }

  lemma TotalsNext(sales: seq<Sale>, s: Sale)
    ensures Totals(sales + [s]) == Added(Totals(sales), s)
  {
    ApprovedNext(sales, s);
    OthersNext(sales, s);
    OneCategory(s);
  }

  lemma DictionariesNext(sales: seq<Sale>, s: Sale, start: int, d: Dictionaries)
    requires DictionariesRight(sales, start, d)
    ensures DictionariesRight(sales + [s], start, AddedTo(d, s, start))
  {
    SourcesNext(sales, s, d.sources);
    AffiliatesNext(sales, s, d.affiliates);
    DaysNext(sales, s, start, d.days);
  }

  lemma SourcesNext(sales: seq<Sale>, s: Sale, m: map<string, Stats>)
    requires SourcesRight(sales, m)
    ensures var was := if s.source in m then m[s.source] else Stats(0, 0.0);
            SourcesRight(sales + [s],
                         if s.status in APPROVED then m[s.source := Stats(was.units + 1, was.revenue + s.price)] else m)
  {
    forall k: string
      ensures CountOf(sales + [s], ApprovedFrom(k)) ==
              CountOf(sales, ApprovedFrom(k)) + (if ApprovedFrom(k)(s) then 1 else 0)
      ensures SumOf(sales + [s], ApprovedFrom(k), Price()) ==
              SumOf(sales, ApprovedFrom(k), Price()) + (if ApprovedFrom(k)(s) then s.price else 0.0)
    {
      CountNext(sales, s, ApprovedFrom(k));
      SumNext(sales, s, ApprovedFrom(k), Price());
    }
    NoneNothing(sales, ApprovedFrom(s.source), Price());
  }

  lemma AffiliatesNext(sales: seq<Sale>, s: Sale, m: map<string, real>)
    requires AffiliatesRight(sales, m)
    ensures AffiliatesRight(sales + [s],
                            if s.status in APPROVED && s.affiliate != "" then Plus(m, s.affiliate, s.price) else m)
  {
    forall k: string
      ensures CountOf(sales + [s], ApprovedBy(k)) == CountOf(sales, ApprovedBy(k)) + (if ApprovedBy(k)(s) then 1 else 0)
      ensures SumOf(sales + [s], ApprovedBy(k), Price()) ==
              SumOf(sales, ApprovedBy(k), Price()) + (if ApprovedBy(k)(s) then s.price else 0.0)
    {
      CountNext(sales, s, ApprovedBy(k));
      SumNext(sales, s, ApprovedBy(k), Price());
    }
    NoneNothing(sales, ApprovedBy(s.affiliate), Price());
  }

  lemma DaysNext(sales: seq<Sale>, s: Sale, start: int, m: map<Day, real>)
    requires DaysRight(sales, start, m)
    ensures DaysRight(sales + [s], start, if s.status in APPROVED then Plus(m, DayOf(s, start), s.price) else m)
  {
    forall d: Day
      ensures SumOf(sales + [s], OnDay(start, d), Price()) ==
              SumOf(sales, OnDay(start, d), Price()) + (if OnDay(start, d)(s) then s.price else 0.0)
    {
      SumNext(sales, s, OnDay(start, d), Price());
    }
  }

  lemma {:induction false} NoneNothing(sales: seq<Sale>, p: Sale -> bool, f: Sale -> real)
    ensures CountOf(sales, p) == 0 ==> SumOf(sales, p, f) == 0.0
  {
    if sales != [] {
      NoneNothing(sales[..|sales| - 1], p, f);
    }
  }

  // ------------------------------------------------------------- conservation

  /** Every sale is counted in exactly one category. */
  lemma {:induction false} EveryCategory(sales: seq<Sale>)
    ensures var t := Totals(sales);
            t.units + t.refunds + t.chargebacks + t.pendingBillets + CountOf(sales, IsUnknown()) == |sales|
  {
    if sales != [] {
      var front, last := sales[..|sales| - 1], sales[|sales| - 1];
      assert sales == front + [last];
      EveryCategory(front);
      TotalsNext(front, last);
      CountNext(front, last, IsUnknown());
    }
  }

  /** The sum of `g` over a set of keys. */
  ghost function SetSum(keys: set<string>, g: string -> real): real {
    if keys == {} then 0.0
    else
      var k :| k in keys;
      g(k) + SetSum(keys - {k}, g)
  }

  lemma {:induction false} SetSumRemove(keys: set<string>, g: string -> real, x: string)
    requires x in keys
    ensures SetSum(keys, g) == g(x) + SetSum(keys - {x}, g)
    decreases keys
  {
    var k :| k in keys && SetSum(keys, g) == g(k) + SetSum(keys - {k}, g);
    if k != x {
      SetSumRemove(keys - {k}, g, x);
      SetSumRemove(keys - {x}, g, k);
      assert keys - {k} - {x} == keys - {x} - {k};
    }
  }

  lemma {:induction false} SetSumSame(keys: set<string>, g: string -> real, h: string -> real)
    requires forall k :: k in keys ==> g(k) == h(k)
    ensures SetSum(keys, g) == SetSum(keys, h)
    decreases keys
  {
    if keys != {} {
      var x :| x in keys;
      SetSumRemove(keys, g, x);
      SetSumRemove(keys, h, x);
      SetSumSame(keys - {x}, g, h);
    }
  }

  /** One key's value is increased. */
  lemma SetSumAdd(keys: set<string>, g: string -> real, h: string -> real, x: string, v: real)
    requires x in keys && h(x) == g(x) + v && forall k :: k in keys && k != x ==> g(k) == h(k)
    ensures SetSum(keys, h) == SetSum(keys, g) + v
  {
    SetSumRemove(keys, g, x);
    SetSumRemove(keys, h, x);
    SetSumSame(keys - {x}, g, h);
  }

  function RevenueFrom(sales: seq<Sale>): string -> real { k => SumOf(sales, ApprovedFrom(k), Price()) }
  function UnitsFrom(sales: seq<Sale>): string -> real { k => CountOf(sales, ApprovedFrom(k)) as real }

  lemma {:induction false} SourcesPartition(sales: seq<Sale>, keys: set<string>)
    requires forall s :: s in sales && s.status in APPROVED ==> s.source in keys
    ensures SetSum(keys, RevenueFrom(sales)) == SumOf(sales, IsApproved(), Price())
    ensures SetSum(keys, UnitsFrom(sales)) == CountOf(sales, IsApproved()) as real
    decreases |sales|
  {
    if sales == [] {
      SetSumZero(keys, RevenueFrom(sales));
      SetSumZero(keys, UnitsFrom(sales));
    } else {
      var front, last := sales[..|sales| - 1], sales[|sales| - 1];
      assert last in sales && sales == front + [last];
      SourcesPartition(front, keys);
      forall k: string
        ensures RevenueFrom(sales)(k) == RevenueFrom(front)(k) + (if ApprovedFrom(k)(last) then last.price else 0.0)
        ensures UnitsFrom(sales)(k) == UnitsFrom(front)(k) + (if ApprovedFrom(k)(last) then 1.0 else 0.0)
      {
        CountNext(front, last, ApprovedFrom(k));
        SumNext(front, last, ApprovedFrom(k), Price());
      }
      if last.status in APPROVED {
        SetSumAdd(keys, RevenueFrom(front), RevenueFrom(sales), last.source, last.price);
        SetSumAdd(keys, UnitsFrom(front), UnitsFrom(sales), last.source, 1.0);
      } else {
        SetSumSame(keys, RevenueFrom(front), RevenueFrom(sales));
        SetSumSame(keys, UnitsFrom(front), UnitsFrom(sales));
      }
    }
  }

  lemma {:induction false} SetSumZero(keys: set<string>, g: string -> real)
    requires forall k :: g(k) == 0.0
    ensures SetSum(keys, g) == 0.0
    decreases keys
  {
    if keys != {} {
      var x :| x in keys;
      SetSumRemove(keys, g, x);
      SetSumZero(keys - {x}, g);
    }
  }

  function Revenues(m: map<string, Stats>): string -> real { k => if k in m then m[k].revenue else 0.0 }
  function Units(m: map<string, Stats>): string -> real { k => if k in m then m[k].units as real else 0.0 }

  lemma {:induction false} CountedSale(sales: seq<Sale>, s: Sale, p: Sale -> bool)
    requires s in sales && p(s)
    ensures CountOf(sales, p) > 0
  {
    if s != sales[|sales| - 1] {
      CountedSale(sales[..|sales| - 1], s, p);
    }
  }

  /** Summed over the sources, units and revenue are those of the whole window. */
  lemma SourcesConserve(sales: seq<Sale>, m: map<string, Stats>)
    requires SourcesRight(sales, m)
    ensures SetSum(m.Keys, Revenues(m)) == Totals(sales).gross
    ensures SetSum(m.Keys, Units(m)) == Totals(sales).units as real
  {
    forall s | s in sales && s.status in APPROVED
      ensures s.source in m.Keys
    {
      CountedSale(sales, s, ApprovedFrom(s.source));
    }
    SourcesPartition(sales, m.Keys);
    SetSumSame(m.Keys, Revenues(m), RevenueFrom(sales));
    SetSumSame(m.Keys, Units(m), UnitsFrom(sales));
  }

  lemma {:induction false} SumMonotone(sales: seq<Sale>, p: Sale -> bool, q: Sale -> bool)
    requires forall s :: s in sales && s.status in APPROVED ==> s.price >= 0.0
    requires forall s: Sale :: p(s) ==> q(s) && s.status in APPROVED
    requires forall s: Sale :: q(s) ==> s.status in APPROVED
    ensures 0.0 <= SumOf(sales, p, Price()) <= SumOf(sales, q, Price())
    decreases |sales|
  {
    if sales != [] {
      assert sales[|sales| - 1] in sales;
      SumMonotone(sales[..|sales| - 1], p, q);
    }
  }

  /** No affiliate earns more than the window, if prices are not negative. */
  lemma TopBelowGross(sales: seq<Sale>, m: map<string, real>, top: real)
    requires AffiliatesRight(sales, m) && IsTop(m, top)
    requires forall s :: s in sales && s.status in APPROVED ==> s.price >= 0.0
    ensures 0.0 <= top <= Totals(sales).gross
  {
    SumMonotone(sales, IsApproved(), IsApproved());
    if m != map[] {
      var k :| k in m && m[k] == top;
      SumMonotone(sales, ApprovedBy(k), IsApproved());
    }
  }

  function SeqSum(xs: seq<real>): real {
    if xs == [] then 0.0 else SeqSum(xs[..|xs| - 1]) + xs[|xs| - 1]
  }

  function DatedOn(d: Day): Sale -> bool { (s: Sale) => s.status in APPROVED && s.day == Some(d) }
  function Undated(): Sale -> bool { (s: Sale) => s.status in APPROVED && s.day.None? }

  lemma {:induction false} OnDayIs(sales: seq<Sale>, start: int, day: int)
    ensures SumOf(sales, OnDay(start, Date(day)), Price()) ==
            SumOf(sales, DatedOn(Date(day)), Price()) + if day == start then SumOf(sales, Undated(), Price()) else 0.0
  {
    if sales != [] {
      OnDayIs(sales[..|sales| - 1], start, day);
    }
  }

  /** The entry of each day is the revenue of the approved sales dated on it; those without a date count
      for the first day. */
  lemma DailyIs(sales: seq<Sale>, start: int, days: nat, i: nat)
    requires i < days
    ensures Daily(sales, start, days)[i] ==
            SumOf(sales, DatedOn(Date(start + i)), Price()) + if i == 0 then SumOf(sales, Undated(), Price()) else 0.0
  {
    OnDayIs(sales, start, start + i);
  }

  lemma DailyNext(sales: seq<Sale>, start: int, days: nat)
    ensures SeqSum(Daily(sales, start, days + 1)) ==
            SeqSum(Daily(sales, start, days)) + SumOf(sales, OnDay(start, Date(start + days)), Price())
  {
    assert Daily(sales, start, days + 1)[..days] == Daily(sales, start, days);
  }

  /** A longer window loses one day's sales from outside. */
  lemma {:induction false} OutsideNext(sales: seq<Sale>, start: int, days: nat)
    ensures SumOf(sales, OutOfWindow(start, days), Price()) ==
            SumOf(sales, OutOfWindow(start, days + 1), Price())
            + SumOf(sales, OnDay(start, Date(start + days)), Price())
    decreases |sales|
  {
    if sales != [] {
      OutsideNext(sales[..|sales| - 1], start, days);
    }
  }

  lemma {:induction false} SumSamePredicate(sales: seq<Sale>, p: Sale -> bool, q: Sale -> bool)
    requires forall s: Sale :: p(s) == q(s)
    ensures SumOf(sales, p, Price()) == SumOf(sales, q, Price())
    decreases |sales|
  {
    if sales != [] {
      SumSamePredicate(sales[..|sales| - 1], p, q);
    }
  }

  /** The daily series adds up to the gross revenue less that of approved sales dated outside. */
  lemma {:induction false} DailyConserves(sales: seq<Sale>, start: int, days: nat)
    ensures SeqSum(Daily(sales, start, days)) + SumOf(sales, OutOfWindow(start, days), Price()) == Totals(sales).gross
    decreases days
  {
    if days == 0 {
      assert Daily(sales, start, 0) == [];
      SumSamePredicate(sales, OutOfWindow(start, 0), IsApproved());
    } else {
      DailyConserves(sales, start, days - 1);
      DailyNext(sales, start, days - 1);
      OutsideNext(sales, start, days - 1);
    }
  }

  lemma {:induction false} OutsideZero(sales: seq<Sale>, p: Sale -> bool)
    requires forall s :: s in sales && p(s) ==> s.price > 0.0
    ensures SumOf(sales, p, Price()) >= 0.0
    ensures SumOf(sales, p, Price()) == 0.0 <==> forall s :: s in sales ==> !p(s)
    decreases |sales|
  {
    if sales != [] {
      var front, last := sales[..|sales| - 1], sales[|sales| - 1];
      OutsideZero(front, p);
      assert forall s :: s in sales <==> s in front || s == last;
    }
  }

  /** With positive prices the series is complete exactly when no approved sale is dated outside the
      window. The window's last day is outside: a sale made on it is in the gross revenue only. */
  lemma DailyCompleteIff(sales: seq<Sale>, start: int, end: int)
    requires forall s :: s in sales && s.status in APPROVED ==> s.price > 0.0
    ensures SeqSum(Daily(sales, start, DaysOf(start, end))) == Totals(sales).gross <==>
            forall s :: s in sales ==> !OutOfWindow(start, DaysOf(start, end))(s)
  {
    DailyConserves(sales, start, DaysOf(start, end));
    OutsideZero(sales, OutOfWindow(start, DaysOf(start, end)));
  }

  lemma EndDayIsOutside(start: int, end: int, s: Sale)
    requires start < end && s.status in APPROVED && s.day == Some(Date(end))
    ensures OutOfWindow(start, DaysOf(start, end))(s)
  {}
}
