/** The quarter-octave histogram: buckets, and how close its percentiles come to the exact ones. */
module DurationHistogram {
  import opened Basics

  const BUCKETS: nat := 256
  const WORD: nat := 0x1_0000_0000_0000_0000

  type Duration = us: int | 0 <= us < 0x1_0000_0000_0000_0000

  function Pow2(e: nat): (p: nat)
    ensures p >= 1
  {
    if e == 0 then 1 else 2 * Pow2(e - 1)
  }

  /** One less than the number of bits a duration needs. */
  function Exponent(us: nat): (e: nat)
    requires us >= 1
    ensures Pow2(e) <= us < 2 * Pow2(e)
  {
    if us == 1 then 0 else 1 + Exponent(us / 2)
  }

  function Fraction(us: nat): nat
    requires us >= 1
  {
    var e := Exponent(us);
    var base := Pow2(e);
    if e >= 2 then (us - base) / Pow2(e - 2) else (us - base) * 4 / base
  }

  function Bucket(us: Duration): nat {
    if us == 0 then 0 else Min(255, 4 * Exponent(us) + Fraction(us))
  }

  /** The value a percentile reports for a bucket. */
  function Upper(i: nat): nat {
    var base := Pow2(i / 4);
    var tail := Max(1, base / 4) * (i % 4 + 1) - 1;
    if tail > WORD - 1 - base then WORD - 1 else base + tail
  }

  function Rank(count: nat, percent: nat): nat { ((count * percent + 99) % WORD) / 100 }

  // ---- Buckets ----

  lemma Pow2Mono(a: nat, b: nat)
    requires a <= b
    ensures Pow2(a) <= Pow2(b)
  {
    if a < b { Pow2Mono(a, b - 1); }
  }

  lemma Pow2Quarters(e: nat)
    requires e >= 2
    ensures Pow2(e) == 4 * Pow2(e - 2) && Pow2(e) == 2 * Pow2(e - 1)
  {
  }

  lemma {:induction false} Pow2Adds(a: nat, b: nat)
    ensures Pow2(a + b) == Pow2(a) * Pow2(b)
  {
    if b == 0 {
    } else {
      Pow2Adds(a, b - 1);
      assert Pow2(a + b) == 2 * Pow2(a + b - 1);
      TwiceProduct(Pow2(a), Pow2(b - 1));
    }
  }

  lemma TwiceProduct(x: nat, y: nat)
    ensures 2 * (x * y) == x * (2 * y)
  {
  }

  lemma Pow2Of64(e: nat)
    requires e == 8
    ensures Pow2(8 * e) == WORD && Pow2(8 * e - 1) == WORD / 2
  {
    hide Pow2;
    Pow2Of8(e);
    Pow2Adds(e, e);
    Pow2Adds(2 * e, 2 * e);
    Pow2Adds(4 * e, 4 * e);
    Pow2Quarters(8 * e);
  }

  lemma Pow2Of8(e: nat)
    requires e == 8
    ensures Pow2(e) == 256
  {
    Pow2Quarters(e);
    Pow2Quarters(e - 2);
    Pow2Quarters(e - 4);
    Pow2Quarters(e - 6);
  }

  lemma ExponentIsSmall(us: Duration)
    requires us >= 1
    ensures Exponent(us) <= 63 && Pow2(Exponent(us)) <= WORD / 2
  {
    hide Pow2, Exponent;
    Pow2Of64(8);
    if Exponent(us) >= 64 { Pow2Mono(64, Exponent(us)); } else { Pow2Mono(Exponent(us), 63); }
  }

  lemma DivisionEdges(d: nat, q: nat)
    requires q >= 1
    ensures (d / q) * q <= d < (d / q) * q + q
  {
    assert d == (d / q) * q + d % q;
  }

  lemma MulMono(a: nat, b: nat, q: nat)
    requires a <= b
    ensures a * q <= b * q
  {
  }

  lemma {:induction false} DivisionMono(a: nat, b: nat, q: nat)
    requires a <= b && q >= 1
    ensures a / q <= b / q
  {
    DivisionEdges(a, q);
    DivisionEdges(b, q);
    QuotientOrder(a / q, b / q, q, a, b);
  }

  lemma {:induction false} QuotientOrder(m: nat, n: nat, q: nat, a: nat, b: nat)
    requires q >= 1 && a <= b && m * q <= a && b < n * q + q
    ensures m <= n
  {
    if m > n {
      MulMono(n + 1, m, q);
      assert false;
    }
  }

  lemma QuotientBelowFour(d: nat, q: nat)
    requires q >= 1 && d < 4 * q
    ensures d / q <= 3
  {
    DivisionEdges(d, q);
    if d / q >= 4 { MulMono(4, d / q, q); }
  }

  /** Dividing an octave in four: which quarter a duration lies in, and the quarter's edges. */
  lemma {:induction false} QuarterOf(us: Duration)
    requires us >= 4
    ensures var e := Exponent(us);
            && e >= 2 && Fraction(us) == (us - Pow2(e)) / Pow2(e - 2) <= 3 && Pow2(e) == 4 * Pow2(e - 2)
            && Pow2(e) + Fraction(us) * Pow2(e - 2) <= us < Pow2(e) + Fraction(us) * Pow2(e - 2) + Pow2(e - 2)
  {
    hide Pow2, Exponent;
    var e := Exponent(us);
    Pow2Small(e);
    Pow2Quarters(e);
    DivisionEdges(us - Pow2(e), Pow2(e - 2));
    QuotientBelowFour(us - Pow2(e), Pow2(e - 2));
  }

  lemma Pow2Small(e: nat)
    requires 4 < 2 * Pow2(e) || 4 <= Pow2(e)
    ensures e >= 2 || Pow2(e) < 4
    ensures e == 0 ==> Pow2(e) == 1
    ensures e == 1 ==> Pow2(e) == 2
    ensures e >= 2
  {
  }

  lemma SmallBuckets(us: Duration)
    requires 1 <= us < 4
    ensures Exponent(us) == (if us == 1 then 0 else 1) && Fraction(us) == if us == 3 then 2 else 0
    ensures Pow2(Exponent(us)) == if us == 1 then 1 else 2
  {
  }

  lemma {:induction false} BucketParts(us: Duration)
    requires us >= 1
    ensures Fraction(us) <= 3 && Exponent(us) <= 63
    ensures Bucket(us) == 4 * Exponent(us) + Fraction(us) <= 255
    ensures Bucket(us) / 4 == Exponent(us) && Bucket(us) % 4 == Fraction(us)
  {
    hide Pow2, Exponent, Fraction;
    ExponentIsSmall(us);
    if us < 4 { SmallBuckets(us); } else { QuarterOf(us); }
  }

  /** Buckets never need the cap, and a longer duration never has a lower one. */
  lemma BucketIsMonotone(us: Duration, vs: Duration)
    requires us <= vs
    ensures Bucket(us) <= Bucket(vs) < BUCKETS
  {
    hide Pow2, Exponent, Fraction;
    if us == 0 {
      if vs > 0 { BucketParts(vs); }
    } else {
      BucketParts(us);
      BucketParts(vs);
      if Exponent(us) > Exponent(vs) {
        Pow2Mono(Exponent(vs) + 1, Exponent(us));
        Pow2Next(Exponent(vs));
      } else if Exponent(us) == Exponent(vs) {
        FractionIsMonotone(us, vs);
      }
    }
  }

  lemma Pow2Next(e: nat)
    ensures Pow2(e + 1) == 2 * Pow2(e)
  {
  }

  lemma {:induction false} FractionIsMonotone(us: Duration, vs: Duration)
    requires 1 <= us <= vs && Exponent(us) == Exponent(vs)
    ensures Fraction(us) <= Fraction(vs)
  {
    hide Pow2, Exponent;
    var e := Exponent(us);
    if e >= 2 { DivisionMono(us - Pow2(e), vs - Pow2(e), Pow2(e - 2)); }
    else { DivisionMono((us - Pow2(e)) * 4, (vs - Pow2(e)) * 4, Pow2(e)); }
  }

  lemma {:induction false} UpperWithin(e: nat, f: nat)
    requires f <= 3 && Pow2(e) <= WORD / 2
    ensures Upper(4 * e + f) == Pow2(e) + Max(1, Pow2(e) / 4) * (f + 1) - 1
  {
    hide Pow2, Max;
    assert (4 * e + f) / 4 == e && (4 * e + f) % 4 == f;
    StepsFit(Pow2(e), f);
  }

  lemma StepsFit(base: nat, f: nat)
    requires f <= 3 && 1 <= base <= WORD / 2
    ensures 1 <= Max(1, base / 4) * (f + 1) <= Max(4, base)
    ensures base + Max(1, base / 4) * (f + 1) - 1 <= WORD - 1
  {
    var step := Max(1, base / 4);
    assert step * (f + 1) == step * f + step;
    MulMono(f, 3, step);
    assert step * f == f * step;
  }

  /** What is reported for a bucket covers every duration in it, by at most a quarter of the duration
      or one, and is not cut off at the widest word. */
  lemma {:induction false} UpperIsClose(us: Duration)
    ensures us <= Upper(Bucket(us)) <= us + Max(1, us / 4)
  {
    hide Pow2, Exponent, Fraction, Upper;
    if us == 0 {
      UpperOfZero(0);
    } else {
      BucketParts(us);
      ExponentIsSmall(us);
      var e, f := Exponent(us), Fraction(us);
      UpperWithin(e, f);
      if us < 4 {
        SmallBuckets(us);
      } else {
        QuarterOf(us);
        TimesNext(Pow2(e - 2), f);
      }
    }
  }

  lemma TimesNext(q: nat, f: nat)
    ensures q * (f + 1) == f * q + q
  {
  }

  lemma UpperOfZero(i: nat)
    requires i == 0
    ensures Upper(i) == 1
  {
  }

  // ---- Exact ranks ----

  predicate AscendingOrder(s: seq<nat>) { forall i, j :: 0 <= i < j < |s| ==> s[i] <= s[j] }

  function Inserted(s: seq<nat>, x: nat): (r: seq<nat>)
    ensures |r| == |s| + 1
  {
    if s == [] || x <= s[0] then [x] + s else [s[0]] + Inserted(s[1..], x)
  }

  /** The samples in ascending order. */
  function Sorted(s: seq<nat>): (r: seq<nat>)
    ensures |r| == |s|
  {
    if s == [] then [] else Inserted(Sorted(s[..|s| - 1]), s[|s| - 1])
  }

  function CountBelow(s: seq<nat>, v: nat): nat {
    if s == [] then 0 else CountBelow(s[..|s| - 1], v) + if s[|s| - 1] < v then 1 else 0
  }

  /** `x` is the nearest-rank value: fewer than `rank` samples are below it and at least `rank` are
      not above it. */
  predicate IsNearestRank(s: seq<nat>, rank: nat, x: nat) {
    x in s && CountBelow(s, x) < rank <= CountBelow(s, x + 1)
  }

  lemma {:induction false} InsertedSame(s: seq<nat>, x: nat)
    ensures multiset(Inserted(s, x)) == multiset(s) + multiset{x}
  {
    if s != [] && x > s[0] {
      InsertedSame(s[1..], x);
      assert s == [s[0]] + s[1..];
    }
  }

  lemma {:induction false} InsertedOrder(s: seq<nat>, x: nat)
    requires AscendingOrder(s)
    ensures AscendingOrder(Inserted(s, x))
  {
    if s != [] && x > s[0] {
      InsertedOrder(s[1..], x);
      InsertedSame(s[1..], x);
      var r := Inserted(s[1..], x);
      forall i | 0 <= i < |r| ensures s[0] <= r[i] {
        assert r[i] in multiset(r);
        if r[i] != x { assert r[i] in s[1..]; }
      }
    }
  }

  lemma {:induction false} InsertedCounts(s: seq<nat>, x: nat, v: nat)
    ensures CountBelow(Inserted(s, x), v) == CountBelow(s, v) + if x < v then 1 else 0
  {
    hide CountBelow;
    if s == [] || x <= s[0] {
      CountFront(s, x, v);
    } else {
      InsertedCounts(s[1..], x, v);
      CountFront(s[1..], s[0], v);
      CountFront(Inserted(s[1..], x), s[0], v);
      assert s == [s[0]] + s[1..];
    }
  }

  lemma {:induction false} CountFront(s: seq<nat>, x: nat, v: nat)
    ensures CountBelow([x] + s, v) == CountBelow(s, v) + if x < v then 1 else 0
  {
    var t := [x] + s;
    if s == [] {
      assert t[..0] == [];
    } else {
      assert t[..|s|] == [x] + s[..|s| - 1];
      CountFront(s[..|s| - 1], x, v);
    }
  }

  lemma {:induction false} SortedCounts(s: seq<nat>, v: nat)
    ensures AscendingOrder(Sorted(s)) && multiset(Sorted(s)) == multiset(s)
    ensures CountBelow(Sorted(s), v) == CountBelow(s, v)
  {
    hide Inserted, AscendingOrder;
    if s == [] {
      EmptyIsOrdered(Sorted(s));
    } else {
      SortedCounts(s[..|s| - 1], v);
      InsertedOrder(Sorted(s[..|s| - 1]), s[|s| - 1]);
      InsertedSame(Sorted(s[..|s| - 1]), s[|s| - 1]);
      InsertedCounts(Sorted(s[..|s| - 1]), s[|s| - 1], v);
      assert s == s[..|s| - 1] + [s[|s| - 1]];
    }
  }

  lemma EmptyIsOrdered(s: seq<nat>)
    requires s == []
    ensures AscendingOrder(s)
  {
  }

  lemma {:induction false} CountAscending(s: seq<nat>, k: nat, v: nat)
    requires AscendingOrder(s) && k < |s|
    ensures s[k] >= v ==> CountBelow(s, v) <= k
    ensures s[k] < v ==> CountBelow(s, v) > k
  {
    var front := s[..|s| - 1];
    CountAtMost(front, v);
    if k < |s| - 1 {
      CountAscending(front, k, v);
    } else if s[k] < v {
      CountAll(front, v);
    }
  }

  lemma CountAtMost(s: seq<nat>, v: nat)
    ensures CountBelow(s, v) <= |s|
  {
  }

  lemma CountAll(s: seq<nat>, v: nat)
    requires forall i :: 0 <= i < |s| ==> s[i] < v
    ensures CountBelow(s, v) == |s|
  {
  }

  /** The nearest-rank value is the one the sorted samples have at that rank. */
  lemma {:induction false} NearestRankIsSorted(s: seq<nat>, rank: nat)
    requires 1 <= rank <= |s|
    ensures IsNearestRank(s, rank, Sorted(s)[rank - 1])
  {
    hide Sorted, CountBelow, AscendingOrder;
    var x := Sorted(s)[rank - 1];
    SortedCounts(s, x);
    SortedCounts(s, x + 1);
    CountAscending(Sorted(s), rank - 1, x);
    CountAscending(Sorted(s), rank - 1, x + 1);
    assert x in multiset(Sorted(s));
  }

  // ---- Samples by bucket ----

  predicate Durations(s: seq<nat>) { forall i :: 0 <= i < |s| ==> s[i] < WORD }

  function BucketOf(us: nat): nat { if us < WORD then Bucket(us) else BUCKETS }

  function InBucket(s: seq<nat>, i: nat): nat {
    if s == [] then 0 else InBucket(s[..|s| - 1], i) + if BucketOf(s[|s| - 1]) == i then 1 else 0
  }

  /** How many samples are in buckets before `i`. */
  function BeforeBucket(s: seq<nat>, i: nat): nat {
    if s == [] then 0 else BeforeBucket(s[..|s| - 1], i) + if BucketOf(s[|s| - 1]) < i then 1 else 0
  }

  lemma {:induction false} OneMoreBucket(s: seq<nat>, i: nat)
    ensures BeforeBucket(s, i + 1) == BeforeBucket(s, i) + InBucket(s, i)
  {
    hide BucketOf;
    if s != [] { OneMoreBucket(s[..|s| - 1], i); }
  }

  lemma NothingBeforeFirst(s: seq<nat>, i: nat)
    requires i == 0
    ensures BeforeBucket(s, i) == 0
  {
  }

  lemma AllBeforeLast(s: seq<nat>, i: nat)
    requires Durations(s) && i == BUCKETS
    ensures BeforeBucket(s, i) == |s|
  {
    if s != [] {
      AllBeforeLast(s[..|s| - 1], i);
      BucketIsMonotone(s[|s| - 1], s[|s| - 1]);
    }
  }

  /** Samples up to `x` are in buckets up to the one of `x`, and samples in earlier buckets are below `x`. */
  lemma {:induction false} CountsByBucket(s: seq<nat>, x: Duration)
    requires Durations(s)
    ensures CountBelow(s, x + 1) <= BeforeBucket(s, Bucket(x) + 1)
    ensures BeforeBucket(s, Bucket(x)) <= CountBelow(s, x)
  {
    if s != [] {
      var y := s[|s| - 1];
      CountsByBucket(s[..|s| - 1], x);
      if y <= x { BucketIsMonotone(y, x); } else { BucketIsMonotone(x, y); }
    }
  }

  lemma BeforeBucketMono(s: seq<nat>, i: nat, j: nat)
    requires i <= j
    ensures BeforeBucket(s, i) <= BeforeBucket(s, j)
  {
  }

  /** The first bucket by which `rank` samples have been seen is the bucket of the exact value. */
  lemma {:induction false} RankBucket(s: seq<nat>, rank: nat, x: Duration, i: nat)
    requires Durations(s) && IsNearestRank(s, rank, x)
    requires BeforeBucket(s, i) < rank <= BeforeBucket(s, i + 1)
    ensures Bucket(x) == i
  {
    CountsByBucket(s, x);
    if i < Bucket(x) { BeforeBucketMono(s, i + 1, Bucket(x)); }
    if i > Bucket(x) { BeforeBucketMono(s, Bucket(x) + 1, i); }
  }

  lemma RankIsInRange(count: nat, percent: nat)
    requires count >= 1 && 1 <= percent <= 100 && count * percent + 99 < WORD
    ensures 1 <= Rank(count, percent) <= count
  {
    MulMono(percent, 100, count);
    MulMono(1, percent, count);
    assert count * percent <= count * 100;
  }

  function Maximum(s: seq<nat>): nat {
    if s == [] then 0 else Max(Maximum(s[..|s| - 1]), s[|s| - 1])
  }

  lemma MaximumBounds(s: seq<nat>, x: nat)
    requires x in s
    ensures x <= Maximum(s)
  {
    if x != s[|s| - 1] { assert x in s[..|s| - 1]; MaximumBounds(s[..|s| - 1], x); }
  }

  // ---- The histogram ----

  class GuiDurationHistogram {
    const bins: array<nat>
    var count: nat
    var total: nat
    var max: nat
    ghost var samples: seq<nat>

    ghost predicate Valid()
      reads this, bins
    {
      && bins.Length == BUCKETS && Durations(samples) && count == |samples| && max == Maximum(samples)
      && forall i :: 0 <= i < BUCKETS ==> bins[i] == InBucket(samples, i)
    }

    constructor ()
      ensures Valid() && fresh(bins) && samples == []
    {
      bins := new nat[BUCKETS](_ => 0);
      count, total, max, samples := 0, 0, 0, [];
    }

    method Add(us: Duration)
      requires Valid()
      modifies this, bins
      ensures Valid() && samples == old(samples) + [us] && total == (old(total) + us) % WORD
    {
      hide Bucket;
      BucketIsMonotone(us, us);
      ghost var more := samples + [us];
      assert more[..|samples|] == samples;
      bins[Bucket(us)] := bins[Bucket(us)] + 1;
      count := count + 1;
      total := (total + us) % WORD;
      max := Max(max, us);
      samples := more;
    }

    /** For a percent from 1 to 100 of few enough samples that the rank does not wrap, the result is
        close to the nearest-rank value: a sample below which lies less than that share of the samples,
        and at or below which lies at least that share. It is no less than that sample, above it by at
        most a quarter or one, and never above the largest sample. */
    method Percentile(percent: nat) returns (us: nat)
      requires Valid()
      ensures count == 0 ==> us == 0
      ensures count > 0 && 1 <= percent <= 100 && count * percent + 99 < WORD ==>
                exists x :: x in samples
                  && 100 * CountBelow(samples, x) < percent * count <= 100 * CountBelow(samples, x + 1)
                  && x <= us <= x + Max(1, x / 4)
      ensures us <= Maximum(samples)
    {
      hide InBucket, BeforeBucket, Upper, Sorted, Rank, Durations, Maximum;
      if count == 0 { return 0; }
      var rank := RankOf(percent);
      var seen := 0;
      var i := 0;
      NothingBeforeFirst(samples, i);
      while i < bins.Length
        invariant i <= BUCKETS && seen == BeforeBucket(samples, i) && (i > 0 ==> seen < rank)
      {
        OneMoreBucket(samples, i);
        seen := seen + bins[i];
        if seen < rank {
          i := i + 1;
          continue;
        }
        var upper := Upper(i);
        us := if max < upper then max else upper;
        if 1 <= percent <= 100 && count * percent + 99 < WORD {
          InRankBucket(samples, percent, i);
          ShareOfRank(samples, percent);
        }
        return;
      }
      AllBeforeLast(samples, i);
      us := max;
      if 1 <= percent <= 100 && count * percent + 99 < WORD { RankIsInRange(count, percent); }
    }

    method RankOf(percent: nat) returns (rank: nat)
      ensures rank == Rank(count, percent)
    {
      rank := ((count * percent + 99) % WORD) / 100;
    }
  }

  lemma {:induction false} InRankBucket(s: seq<nat>, percent: nat, i: nat)
    requires Durations(s) && |s| >= 1 && 1 <= percent <= 100 && |s| * percent + 99 < WORD
    requires (i > 0 ==> BeforeBucket(s, i) < Rank(|s|, percent)) && Rank(|s|, percent) <= BeforeBucket(s, i + 1)
    ensures 1 <= Rank(|s|, percent) <= |s|
    ensures var x := Sorted(s)[Rank(|s|, percent) - 1];
            x <= Upper(i) <= x + Max(1, x / 4) && x <= Maximum(s)
  {
    hide Rank, Sorted, Upper, Bucket, Maximum;
    var rank := Rank(|s|, percent);
    RankIsInRange(|s|, percent);
    if i == 0 { NothingBeforeFirst(s, i); }
    NearestRankIsSorted(s, rank);
    var x := Sorted(s)[rank - 1];
    SampleIsDuration(s, x);
    RankBucket(s, rank, x, i);
    UpperIsClose(x);
    MaximumBounds(s, x);
  }

  /** The sample at the rank of a percentage is the one that share of the samples reaches. */
  lemma {:induction false} ShareOfRank(s: seq<nat>, percent: nat)
    requires |s| >= 1 && 1 <= percent <= 100 && |s| * percent + 99 < WORD
    ensures 1 <= Rank(|s|, percent) <= |s|
    ensures var x := Sorted(s)[Rank(|s|, percent) - 1];
            x in s && 100 * CountBelow(s, x) < percent * |s| <= 100 * CountBelow(s, x + 1)
  {
    hide Sorted, CountBelow;
    RankIsInRange(|s|, percent);
    NearestRankIsSorted(s, Rank(|s|, percent));
  }

  lemma SampleIsDuration(s: seq<nat>, x: nat)
    requires Durations(s) && x in s
    ensures x < WORD
  {
  }
}
