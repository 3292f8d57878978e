/** How much of a timeline kernels keep busy: sort the intervals, merge those that touch, add up the
    merged lengths. */
module Intervals {
  import opened Wrappers

  /** A closed interval of time, the duration not negative. */
  datatype Interval = Interval(s: real, e: real)

  ghost predicate Proper(iv: seq<Interval>) {
    forall i :: 0 <= i < |iv| ==> iv[i].s <= iv[i].e
  }

  // ---- the union and its measure ----

  ghost predicate In(iv: seq<Interval>, x: real) {
    exists i :: 0 <= i < |iv| && iv[i].s <= x <= iv[i].e
  }

  ghost predicate SameUnion(a: seq<Interval>, b: seq<Interval>) {
    forall x :: In(a, x) <==> In(b, x)
  }

  /** In time order, with idle time between any two. */
  ghost predicate Separated(c: seq<Interval>) {
    Proper(c) && forall i, j :: 0 <= i < j < |c| ==> c[i].e < c[j].s
  }

  function Total(c: seq<Interval>): real {
    if c == [] then 0.0 else Total(c[..|c| - 1]) + (c[|c| - 1].e - c[|c| - 1].s)
  }

  /** The idle time between components. */
  function Gaps(c: seq<Interval>): real {
    if |c| < 2 then 0.0 else Gaps(c[..|c| - 1]) + (c[|c| - 1].s - c[|c| - 2].e)
  }

  /** c lists the connected components of the union of iv. */
  ghost predicate Components(iv: seq<Interval>, c: seq<Interval>) {
    Separated(c) && SameUnion(iv, c)
  }

  lemma Inside(c: seq<Interval>, i: nat, x: real)
    requires i < |c| && c[i].s <= x <= c[i].e
    ensures In(c, x)
  {
  }

  /** Where no component is. */
  lemma Outside(c: seq<Interval>, i: nat, x: real)
    requires Separated(c) && i < |c| && c[i].e < x && (i + 1 < |c| ==> x < c[i + 1].s)
    ensures !In(c, x)
  {
    hide Separated;
    forall j | 0 <= j < |c| ensures !(c[j].s <= x <= c[j].e) {
      if j <= i {
        InOrder(c, j, i);
      } else {
        InOrder(c, i + 1, j);
      }
    }
  }

  lemma InOrder(c: seq<Interval>, i: nat, j: nat)
    requires Separated(c) && i <= j < |c|
    ensures c[i].s <= c[i].e && c[i].s <= c[j].s && c[i].e <= c[j].e && (i < j ==> c[i].e < c[j].s)
  {
    if i < j {
      assert c[i].e < c[j].s;
    }
  }

  /** If one list's component i ends before the other's, that point is covered once and once not. */
  lemma EndsAgree(c: seq<Interval>, d: seq<Interval>, i: nat)
    requires Separated(c) && Separated(d) && SameUnion(c, d)
    requires i < |c| && i < |d| && c[i].s == d[i].s
    ensures d[i].e <= c[i].e
  {
    hide Separated, In;
    if c[i].e < d[i].e {
      if i + 1 < |c| {
        InOrder(c, i, i + 1);
      }
      var top := if i + 1 < |c| && c[i + 1].s < d[i].e then c[i + 1].s else d[i].e;
      var x := (c[i].e + top) / 2.0;
      assert c[i].e < x < top;
      InOrder(d, i, i);
      InOrder(c, i, i);
      Outside(c, i, x);
      Inside(d, i, x);
    }
  }

  lemma StartInside(c: seq<Interval>, i: nat)
    requires Separated(c) && i < |c|
    ensures In(c, c[i].s)
  {
    Inside(c, i, c[i].s);
  }

  /** After equal components, the next one starts no earlier in c than in d. */
  lemma StartsAgree(c: seq<Interval>, d: seq<Interval>, i: nat)
    requires Separated(c) && Separated(d) && SameUnion(c, d)
    requires i < |c| && i <= |d| && (i > 0 ==> c[i - 1] == d[i - 1])
    ensures i < |d| && d[i].s <= c[i].s
  {
    hide Separated;
    var x := c[i].s;
    InOrder(c, i, i);
    StartInside(c, i);
    var j :| 0 <= j < |d| && d[j].s <= x <= d[j].e;
    if i > 0 {
      InOrder(c, i - 1, i);
      if j < i {
        InOrder(d, j, i - 1);
      }
    }
    InOrder(d, i, j);
  }

  lemma {:induction false} PrefixesAgree(c: seq<Interval>, d: seq<Interval>, i: nat)
    requires Separated(c) && Separated(d) && SameUnion(c, d) && i <= |c|
    ensures i <= |d| && c[..i] == d[..i]
  {
    hide Separated, SameUnion;
    if i > 0 {
      PrefixesAgree(c, d, i - 1);
      if i > 1 {
        assert c[i - 2] == c[..i - 1][i - 2] == d[i - 2];
      }
      Flip(c, d);
      StartsAgree(c, d, i - 1);
      StartsAgree(d, c, i - 1);
      EndsAgree(c, d, i - 1);
      EndsAgree(d, c, i - 1);
      assert c[..i] == c[..i - 1] + [c[i - 1]] && d[..i] == d[..i - 1] + [d[i - 1]];
    }
  }

  lemma Flip(c: seq<Interval>, d: seq<Interval>)
    requires SameUnion(c, d)
    ensures SameUnion(d, c)
  {
  }

  /** A union has one list of components, so its measure is well defined. */
  lemma ComponentsUnique(iv: seq<Interval>, c: seq<Interval>, d: seq<Interval>)
    requires Components(iv, c) && Components(iv, d)
    ensures c == d
  {
    hide Separated, In;
    assert SameUnion(c, d) && SameUnion(d, c);
    PrefixesAgree(c, d, |c|);
    PrefixesAgree(d, c, |d|);
    assert c[..|c|] == c && d[..|d|] == d;
  }

  /** m is the measure of the union of iv. */
  ghost predicate Measures(iv: seq<Interval>, m: real) {
    exists c :: Components(iv, c) && Total(c) == m
  }

  lemma MeasureUnique(iv: seq<Interval>, m: real, n: real)
    requires Measures(iv, m) && Measures(iv, n)
    ensures m == n
  {
    hide Components;
    var c :| Components(iv, c) && Total(c) == m;
    var d :| Components(iv, d) && Total(d) == n;
    ComponentsUnique(iv, c, d);
  }

  lemma SameMeasure(iv: seq<Interval>, m: real, n: real)
    requires Measures(iv, m) && m == n
    ensures Measures(iv, n)
  {
  }

  // ---- earliest start, latest end ----

  function Earliest(iv: seq<Interval>): (r: real)
    requires iv != []
    ensures forall i :: 0 <= i < |iv| ==> r <= iv[i].s
    ensures exists i :: 0 <= i < |iv| && r == iv[i].s
  {
    if |iv| == 1 then iv[0].s
    else
      var r := Earliest(iv[1..]);
      assert forall i :: 1 <= i < |iv| ==> iv[i] == iv[1..][i - 1];
      var k :| 0 <= k < |iv[1..]| && r == iv[1..][k].s;
      assert r == iv[k + 1].s;
      if iv[0].s < r then iv[0].s else r
  }

  function Latest(iv: seq<Interval>): (r: real)
    requires iv != []
    ensures forall i :: 0 <= i < |iv| ==> iv[i].e <= r
    ensures exists i :: 0 <= i < |iv| && r == iv[i].e
  {
    if |iv| == 1 then iv[0].e
    else
      var r := Latest(iv[1..]);
      assert forall i :: 1 <= i < |iv| ==> iv[i] == iv[1..][i - 1];
      var k :| 0 <= k < |iv[1..]| && r == iv[1..][k].e;
      assert r == iv[k + 1].e;
      if iv[0].e > r then iv[0].e else r
  }

  lemma {:induction false} Telescope(c: seq<Interval>)
    requires Separated(c) && c != []
    ensures Total(c) + Gaps(c) == c[|c| - 1].e - c[0].s && Gaps(c) >= 0.0
  {
    if |c| > 1 {
      Telescope(c[..|c| - 1]);
    } else {
      assert Total(c[..0]) == 0.0;
    }
  }

  lemma {:induction false} ComponentsExtent(iv: seq<Interval>, c: seq<Interval>)
    requires iv != [] && Proper(iv) && Components(iv, c)
    ensures c != [] && c[0].s == Earliest(iv) && c[|c| - 1].e == Latest(iv)
  {
    hide Earliest, Latest;
    var lo, hi := Earliest(iv), Latest(iv);
    assert In(iv, lo) && In(iv, hi);
    var i :| 0 <= i < |c| && c[i].s <= lo <= c[i].e;
    var j :| 0 <= j < |c| && c[j].s <= hi <= c[j].e;
    Inside(c, 0, c[0].s);
    Inside(c, |c| - 1, c[|c| - 1].e);
    var k :| 0 <= k < |iv| && iv[k].s <= c[0].s <= iv[k].e;
    var l :| 0 <= l < |iv| && iv[l].s <= c[|c| - 1].e <= iv[l].e;
    InOrder(c, 0, i);
    InOrder(c, j, |c| - 1);
  }

  /** Busy time and idle time make up the time from the earliest start to the latest end. */
  lemma {:induction false} BusyPlusIdle(iv: seq<Interval>, c: seq<Interval>)
    requires iv != [] && Proper(iv) && Components(iv, c)
    ensures Total(c) + Gaps(c) == Latest(iv) - Earliest(iv) && Gaps(c) >= 0.0
  {
    ComponentsExtent(iv, c);
    Telescope(c);
  }

  // ---- sorting ----

  /** Python's order on pairs. */
  predicate Before(a: Interval, b: Interval) {
    a.s < b.s || (a.s == b.s && a.e <= b.e)
  }

  ghost predicate Ordered(iv: seq<Interval>) {
    forall i, j :: 0 <= i < j < |iv| ==> Before(iv[i], iv[j])
  }

  function Durations(iv: seq<Interval>): real {
    if iv == [] then 0.0 else (iv[0].e - iv[0].s) + Durations(iv[1..])
  }

  function Insert(x: Interval, iv: seq<Interval>): seq<Interval> {
    if iv == [] || Before(x, iv[0]) then [x] + iv else [iv[0]] + Insert(x, iv[1..])
  }

  lemma {:induction false} InsertElements(x: Interval, iv: seq<Interval>)
    ensures multiset(Insert(x, iv)) == multiset(iv) + multiset{x}
    ensures |Insert(x, iv)| == |iv| + 1
  {
    if iv != [] && !Before(x, iv[0]) {
      InsertElements(x, iv[1..]);
      assert iv == [iv[0]] + iv[1..];
    }
  }

  lemma {:induction false} InsertOrdered(x: Interval, iv: seq<Interval>)
    requires Ordered(iv)
    ensures Ordered(Insert(x, iv))
  {
    if iv != [] && !Before(x, iv[0]) {
      var r := Insert(x, iv[1..]);
      InsertOrdered(x, iv[1..]);
      InsertElements(x, iv[1..]);
      forall i | 0 <= i < |r| ensures Before(iv[0], r[i]) {
        assert r[i] in multiset(r);
        if r[i] != x {
          assert r[i] in iv[1..];
        }
      }
    }
  }

  lemma {:induction false} InsertDurations(x: Interval, iv: seq<Interval>)
    ensures Durations(Insert(x, iv)) == Durations(iv) + (x.e - x.s)
  {
    if iv == [] || Before(x, iv[0]) {
      assert ([x] + iv)[1..] == iv;
    } else {
      InsertDurations(x, iv[1..]);
      assert ([iv[0]] + Insert(x, iv[1..]))[1..] == Insert(x, iv[1..]);
    }
  }

  /** list.sort() */
  function Sort(iv: seq<Interval>): (r: seq<Interval>)
    ensures Ordered(r) && multiset(r) == multiset(iv) && |r| == |iv|
    ensures Durations(r) == Durations(iv)
  {
    hide Insert, Ordered;
    if iv == [] then
      NothingOrdered();
      []
    else
      assert iv == [iv[0]] + iv[1..];
      var r := Sort(iv[1..]);
      InsertElements(iv[0], r);
      InsertOrdered(iv[0], r);
      InsertDurations(iv[0], r);
      Insert(iv[0], r)
  }

  lemma NothingOrdered()
    ensures Ordered([])
  {
  }

  lemma SameElements(iv: seq<Interval>, r: seq<Interval>)
    requires multiset(r) == multiset(iv)
    ensures SameUnion(iv, r) && (Proper(iv) ==> Proper(r))
  {
    forall i | 0 <= i < |iv| ensures exists j :: 0 <= j < |r| && r[j] == iv[i] {
      assert iv[i] in multiset(r);
    }
    forall j | 0 <= j < |r| ensures exists i :: 0 <= i < |iv| && iv[i] == r[j] {
      assert r[j] in multiset(iv);
    }
  }

  // ---- the merge loop ----

  /** One more interval joins the last component or starts another; in both cases what is covered grows
      by that interval, and by no more than its duration. */
  lemma Joined(iv: seq<Interval>, done: seq<Interval>, c: Interval, x: Interval, c': Interval)
    requires Components(iv, done + [c]) && x.s <= x.e && c.s <= x.s <= c.e
    requires c' == Interval(c.s, if x.e > c.e then x.e else c.e)
    ensures Components(iv + [x], done + [c'])
  {
    var before, after := done + [c], done + [c'];
    assert before[|done|] == c;
    forall t ensures In(iv + [x], t) <==> In(after, t) {
      InAppend(iv, x, t);
      InAppend(done, c, t);
      InAppend(done, c', t);
    }
    assert forall i :: 0 <= i < |done| ==> after[i] == before[i];
  }

  lemma Started(iv: seq<Interval>, done: seq<Interval>, c: Interval, x: Interval)
    requires Components(iv, done + [c]) && x.s <= x.e && c.s <= c.e < x.s
    ensures Components(iv + [x], done + [c] + [x])
  {
    var before := done + [c];
    assert before[|done|] == c;
    forall t ensures In(iv + [x], t) <==> In(before + [x], t) {
      InAppend(iv, x, t);
      InAppend(before, x, t);
    }
    forall i | 0 <= i < |before| ensures before[i].e < x.s {
      if i < |done| {
        assert before[i].e < before[|done|].s;
      }
    }
  }

  lemma InAppend(iv: seq<Interval>, x: Interval, t: real)
    ensures In(iv + [x], t) <==> In(iv, t) || x.s <= t <= x.e
  {
    if In(iv, t) {
      var i :| 0 <= i < |iv| && iv[i].s <= t <= iv[i].e;
      assert (iv + [x])[i] == iv[i];
    }
    if x.s <= t <= x.e {
      assert (iv + [x])[|iv|] == x;
    }
  }

  lemma TotalAppend(c: seq<Interval>, x: Interval)
    ensures Total(c + [x]) == Total(c) + (x.e - x.s)
  {
    assert (c + [x])[..|c|] == c;
  }

  lemma {:induction false} DurationsAppend(iv: seq<Interval>, x: Interval)
    ensures Durations(iv + [x]) == Durations(iv) + (x.e - x.s)
  {
    if iv == [] {
      assert Durations([x][1..]) == 0.0;
    } else {
      DurationsAppend(iv[1..], x);
      assert (iv + [x])[1..] == iv[1..] + [x];
    }
  }

  /** The loop both analysers run over their sorted intervals. */
  method Merge(sv: seq<Interval>) returns (covered: real)
    requires sv != [] && Proper(sv) && Ordered(sv)
    ensures Measures(sv, covered)
    ensures covered <= Durations(sv)
  {
    hide Components;
    covered := 0.0;
    var cs, ce := sv[0].s, sv[0].e;
    ghost var done: seq<Interval> := [];
    assert sv[..1] == [sv[0]] && done + [Interval(cs, ce)] == [sv[0]] && [] + [sv[0]] == [sv[0]];
    OneComponent(sv[0]);
    DurationsAppend([], sv[0]);
    for k := 1 to |sv|
      invariant Components(sv[..k], done + [Interval(cs, ce)]) && cs <= ce && cs <= sv[k - 1].s
      invariant covered == Total(done) && covered + (ce - cs) <= Durations(sv[..k])
    {
      var x := sv[k];
      assert Before(sv[k - 1], x);
      assert sv[..k + 1] == sv[..k] + [x];
      DurationsAppend(sv[..k], x);
      if x.s > ce {
        Started(sv[..k], done, Interval(cs, ce), x);
        TotalAppend(done, Interval(cs, ce));
        done := done + [Interval(cs, ce)];
        covered := covered + (ce - cs);
        cs, ce := x.s, x.e;
      } else {
        var e := if x.e > ce then x.e else ce;
        Joined(sv[..k], done, Interval(cs, ce), x, Interval(cs, e));
        ce := e;
      }
    }
    assert sv[..|sv|] == sv;
    TotalAppend(done, Interval(cs, ce));
    covered := covered + (ce - cs);
  }

  lemma OneComponent(x: Interval)
    requires x.s <= x.e
    ensures Components([x], [x])
  {
  }

  lemma SortMeasures(iv: seq<Interval>, m: real)
    requires Measures(Sort(iv), m)
    ensures Measures(iv, m)
  {
    hide Sort;
    SameElements(iv, Sort(iv));
    var c :| Components(Sort(iv), c) && Total(c) == m;
    assert Components(iv, c);
  }

  // ---- the two analysers ----

  datatype Shares = Shares(bubble: Option<real>, busy: Option<real>, span: real)

  /** What the code divides by: the end of the interval that sorts last, less the first start. */
  function Span(iv: seq<Interval>): real
    requires iv != []
  {
    var sv := Sort(iv);
    sv[|sv| - 1].e - sv[0].s
  }

  /** b is the measure of the union of iv as a share of the span. */
  ghost predicate BusyShare(iv: seq<Interval>, b: real)
    requires iv != []
  {
    exists m :: Measures(iv, m) && m == b * Span(iv)
  }

  /** `bubble` of the nsys analyser: None on no intervals; otherwise the idle and busy shares of the span
      (None when the span is zero) and the span. */
  method Bubble(iv: seq<Interval>) returns (r: Option<Shares>)
    requires Proper(iv)
    ensures r.None? <==> iv == []
    ensures iv != [] ==> r.value.span == Span(iv)
    ensures iv != [] && Span(iv) == 0.0 ==> r.value.bubble == r.value.busy == None && Measures(iv, 0.0)
    ensures iv != [] && Span(iv) != 0.0 ==>
      r.value.busy.Some? && BusyShare(iv, r.value.busy.value) && r.value.bubble == Some(1.0 - r.value.busy.value)
  {
    hide Measures, Sort;
    if iv == [] {
      return None;
    }
    var sv := Sort(iv);
    SameElements(iv, sv);
    var span := sv[|sv| - 1].e - sv[0].s;
    var covered := Merge(sv);
    SortMeasures(iv, covered);
    SpanSign(iv, covered);
    if span != 0.0 {
      var busy := covered / span;
      assert busy * span == covered;
      return Some(Shares(Some(1.0 - busy), Some(busy), span));
    }
    SameMeasure(iv, covered, 0.0);
    return Some(Shares(None, None, span));
  }

  /** A kernel event of the torch trace, with the bucket its name falls in. */
  datatype Event = Event(ts: real, dur: real, bucket: string)

  function Spans(ev: seq<Event>): (r: seq<Interval>)
    ensures |r| == |ev| && forall i :: 0 <= i < |ev| ==> r[i] == Interval(ev[i].ts, ev[i].ts + ev[i].dur)
  {
    seq(|ev|, i requires 0 <= i < |ev| => Interval(ev[i].ts, ev[i].ts + ev[i].dur))
  }

  function BucketTime(ev: seq<Event>, b: string): real {
    if ev == [] then 0.0
    else BucketTime(ev[..|ev| - 1], b) + if ev[|ev| - 1].bucket == b then ev[|ev| - 1].dur else 0.0
  }

  ghost predicate Occurs(ev: seq<Event>, b: string) {
    exists i :: 0 <= i < |ev| && ev[i].bucket == b
  }

  lemma OccursAppend(ev: seq<Event>, x: Event)
    ensures forall b :: Occurs(ev + [x], b) <==> Occurs(ev, b) || b == x.bucket
    ensures forall b :: BucketTime(ev + [x], b) == BucketTime(ev, b) + if x.bucket == b then x.dur else 0.0
  {
    assert (ev + [x])[..|ev|] == ev;
    forall b | Occurs(ev, b) ensures Occurs(ev + [x], b) {
      var i :| 0 <= i < |ev| && ev[i].bucket == b;
      assert (ev + [x])[i].bucket == b;
    }
    assert (ev + [x])[|ev|].bucket == x.bucket;
  }

  lemma {:induction false} BucketTimeAbsent(ev: seq<Event>, b: string)
    requires !Occurs(ev, b)
    ensures BucketTime(ev, b) == 0.0
  {
    if ev != [] {
      var init := ev[..|ev| - 1];
      assert init + [ev[|ev| - 1]] == ev;
      OccursAppend(init, ev[|ev| - 1]);
      BucketTimeAbsent(init, b);
    }
  }

  /** The time per bucket, and in all. */
  method Aggregate(ev: seq<Event>) returns (agg: map<string, real>, total: real)
    ensures forall b :: b in agg <==> Occurs(ev, b)
    ensures forall b :: b in agg ==> agg[b] == BucketTime(ev, b)
    ensures total == Durations(Spans(ev))
  {
    hide Occurs, BucketTime, Durations;
    agg, total := map[], 0.0;
    NothingYet();
    for k := 0 to |ev|
      invariant forall b :: b in agg <==> Occurs(ev[..k], b)
      invariant forall b :: b in agg ==> agg[b] == BucketTime(ev[..k], b)
      invariant total == Durations(Spans(ev)[..k])
    {
      var x := ev[k];
      assert ev[..k + 1] == ev[..k] + [x] && Spans(ev)[..k + 1] == Spans(ev)[..k] + [Spans(ev)[k]];
      OccursAppend(ev[..k], x);
      DurationsAppend(Spans(ev)[..k], Spans(ev)[k]);
      if x.bucket !in agg {
        BucketTimeAbsent(ev[..k], x.bucket);
      }
      agg := agg[x.bucket := (if x.bucket in agg then agg[x.bucket] else 0.0) + x.dur];
      total := total + x.dur;
    }
    assert ev[..|ev|] == ev && Spans(ev)[..|ev|] == Spans(ev);
  }

  datatype Report = Report(agg: map<string, real>, total: real, busy: real, spanMs: real, n: nat)

  /** `analyze` of the torch analyser: time per bucket, in all, and the busy share of the span. */
  method Analyze(ev: seq<Event>) returns (r: Option<Report>)
    requires forall i :: 0 <= i < |ev| ==> ev[i].dur >= 0.0
    ensures r.None? <==> ev == []
    ensures r.Some? ==> forall b :: b in r.value.agg <==> Occurs(ev, b)
    ensures r.Some? ==> forall b :: b in r.value.agg ==> r.value.agg[b] == BucketTime(ev, b)
    ensures r.Some? ==> r.value.total == Durations(Spans(ev)) && r.value.n == |ev|
    ensures r.Some? ==> r.value.spanMs * 1000.0 == Span(Spans(ev)) && BusyShare(Spans(ev), r.value.busy)
    ensures r.Some? ==> r.value.busy * Span(Spans(ev)) <= r.value.total
    ensures r.Some? && r.value.spanMs == 0.0 ==> r.value.busy == 0.0
  {
    hide Measures, Sort, Occurs, BucketTime, Durations;
    if ev == [] {
      return None;
    }
    var agg, total := Aggregate(ev);
    var spans := Spans(ev);
    var sv := Sort(spans);
    SameElements(spans, sv);
    var span := sv[|sv| - 1].e - sv[0].s;
    var covered := Merge(sv);
    SortMeasures(spans, covered);
    SpanSign(spans, covered);
    var busy := 0.0;
    if span != 0.0 {
      busy := covered / span;
    }
    assert busy * span == covered;
    r := Some(Report(agg, total, busy, span / 1000.0, |ev|));
  }

  lemma NothingYet()
    ensures forall b :: !Occurs([], b)
    ensures Durations([]) == 0.0
  {
  }

  // ---- the span ----

  lemma {:induction false} SortedExtent(iv: seq<Interval>)
    requires iv != []
    ensures Sort(iv)[0].s == Earliest(iv) && Sort(iv)[|iv| - 1].e <= Latest(iv)
  {
    hide Sort, Earliest, Latest;
    var sv := Sort(iv);
    assert sv[0] in multiset(iv) && sv[|iv| - 1] in multiset(iv);
    var i :| 0 <= i < |iv| && iv[i].s == Earliest(iv);
    assert iv[i] in multiset(sv);
    var j :| 0 <= j < |sv| && sv[j] == iv[i];
    if j > 0 {
      assert Before(sv[0], sv[j]);
    }
  }

  /** The span is never negative, and zero only when nothing is covered. */
  lemma {:induction false} SpanSign(iv: seq<Interval>, m: real)
    requires iv != [] && Proper(iv) && Measures(iv, m)
    ensures Span(iv) >= 0.0 && m >= 0.0
    ensures Span(iv) == 0.0 ==> m == 0.0
  {
    hide Sort, Earliest, Latest, Components;
    var sv := Sort(iv);
    SameElements(iv, sv);
    var c :| Components(iv, c) && Total(c) == m;
    BusyPlusIdle(iv, c);
    NotNegative(iv, c);
    SortedExtent(iv);
    var last := sv[|sv| - 1];
    if |sv| > 1 {
      assert Before(sv[0], last);
    }
    if Span(iv) == 0.0 {
      var k :| 0 <= k < |iv| && iv[k].e == Latest(iv);
      assert iv[k] in multiset(sv);
      var j :| 0 <= j < |sv| && sv[j] == iv[k];
      if j < |sv| - 1 {
        assert Before(sv[j], last);
      }
      if j > 0 {
        assert Before(sv[0], sv[j]);
      }
    }
  }

  lemma NotNegative(iv: seq<Interval>, c: seq<Interval>)
    requires Components(iv, c)
    ensures Total(c) >= 0.0
  {
    SumNotNegative(c);
  }

  lemma {:induction false} SumNotNegative(c: seq<Interval>)
    requires Proper(c)
    ensures Total(c) >= 0.0
  {
    if c != [] {
      SumNotNegative(c[..|c| - 1]);
    }
  }

  /** What is covered fits in the code's span exactly when the intervals overrun the end of the last
      sorted one by no more than the idle time; so always when the last sorted one ends latest. */
  lemma {:induction false} CoveredFitsSpan(iv: seq<Interval>, c: seq<Interval>)
    requires iv != [] && Proper(iv) && Components(iv, c)
    ensures Total(c) <= Latest(iv) - Earliest(iv)
    ensures Total(c) <= Span(iv) <==> Latest(iv) - Sort(iv)[|iv| - 1].e <= Gaps(c)
    ensures Sort(iv)[|iv| - 1].e == Latest(iv) ==> Total(c) <= Span(iv) == Latest(iv) - Earliest(iv)
  {
    hide Sort, Earliest, Latest, Components;
    BusyPlusIdle(iv, c);
    SortedExtent(iv);
  }

  /** The span is the whole extent exactly when the interval that sorts last ends latest; so what is reported
      as the busy share is the share of the extent exactly then, or when nothing is covered. */
  lemma {:induction false} ShareIsTrue(iv: seq<Interval>, m: real)
    requires iv != [] && Proper(iv) && Measures(iv, m) && Span(iv) != 0.0
    ensures Span(iv) == Latest(iv) - Earliest(iv) <==> Sort(iv)[|iv| - 1].e == Latest(iv)
    ensures 0.0 < Span(iv) <= Latest(iv) - Earliest(iv)
    ensures m / Span(iv) == m / (Latest(iv) - Earliest(iv)) <==> Sort(iv)[|iv| - 1].e == Latest(iv) || m == 0.0
  {
    hide Sort, Earliest, Latest, Components, Measures;
    SortedExtent(iv);
    SpanSign(iv, m);
    SameShare(m, Span(iv), Latest(iv) - Earliest(iv));
  }

  lemma SameShare(m: real, s: real, t: real)
    requires 0.0 < s <= t && m >= 0.0
    ensures m / s == m / t <==> s == t || m == 0.0
  {
    var p, q := m / s, m / t;
    assert p * s == m && q * t == m;
    if p == q && m != 0.0 {
      if s < t {
        Bigger(p, s, t);
      }
    }
  }

  lemma Bigger(p: real, s: real, t: real)
    requires s < t && 0.0 < s && p * s > 0.0
    ensures p * s < p * t
  {
    if p <= 0.0 {
      NotPositive(p, s);
    } else {
      assert p * (t - s) > 0.0;
      assert p * t - p * s == p * (t - s);
    }
  }

  lemma NotPositive(p: real, s: real)
    requires p <= 0.0 && s > 0.0
    ensures p * s <= 0.0
  {
  }

  /** A short kernel inside a long one sorts last: the busy share comes out as 5. */
  lemma {:induction false} SpanTooShort()
    ensures var iv := [Interval(0.0, 10.0), Interval(1.0, 2.0)];
      Span(iv) == 2.0 && Measures(iv, 10.0)
  {
    var a, b := Interval(0.0, 10.0), Interval(1.0, 2.0);
    OneComponent(a);
    assert [] + [a] == [a];
    Joined([a], [], a, b, a);
    assert [a] + [b] == [a, b];
    TotalAppend([], a);
    assert Measures([a, b], 10.0);
    assert Sort([b]) == [b] by {
      assert Sort([]) == [];
    }
    assert [a, b][1..] == [b];
    assert Sort([a, b]) == Insert(a, [b]) == [a] + [b];
  }
}
