/** Batch sizes that grow geometrically, and the batches they cut a stream into. */
module Batching {
  import Text

  /** The three numbers a `BatchSize` is made from. */
  datatype Setting = Setting(max: real, min: real, growth: real) {
    predicate Dynamic() {
      growth > 1.0 && min >= 1.0 && max > min
    }
  }

  function Min(a: real, b: real): real {
    if a <= b then a else b
  }

  /** The size in force after k updates, one update at a time. */
  function SizeAfter(s: Setting, k: nat): real {
    if !s.Dynamic() then s.max
    else if k == 0 then s.min
    else Min(SizeAfter(s, k - 1) * s.growth, s.max)
  }

  class BatchSize {
    var maxBatchSize: real
    var batchSizeGrowthFactor: real
    var minBatchSize: real
    var isDynamic: bool
    var currentBatchSize: real
    ghost var updates: nat

    ghost function Numbers(): Setting
      reads this
    {
      Setting(maxBatchSize, minBatchSize, batchSizeGrowthFactor)
    }

    ghost predicate Valid()
      reads this
    {
      isDynamic == Numbers().Dynamic() && currentBatchSize == SizeAfter(Numbers(), updates)
    }

    constructor (maxBatchSize: real, minBatchSize: real, batchSizeGrowthFactor: real)
      ensures Valid() && updates == 0
      ensures Numbers() == Setting(maxBatchSize, minBatchSize, batchSizeGrowthFactor)
    {
      this.maxBatchSize := maxBatchSize;
      this.batchSizeGrowthFactor := batchSizeGrowthFactor;
      this.minBatchSize := minBatchSize;
      this.updates := 0;
      if batchSizeGrowthFactor > 1.0 && minBatchSize >= 1.0 && maxBatchSize > minBatchSize {
        this.isDynamic := true;
        this.currentBatchSize := minBatchSize;
      } else {
        this.isDynamic := false;
        this.currentBatchSize := maxBatchSize;
      }
    }

    method Update()
      requires Valid()
      modifies this`currentBatchSize, this`updates
      ensures Valid() && updates == old(updates) + 1
    {
      if isDynamic {
        currentBatchSize := Min(currentBatchSize * batchSizeGrowthFactor, maxBatchSize);
      }
      updates := updates + 1;
    }
  }

  // -- Closed form -----------------------------------------------------------------

  function Power(g: real, k: nat): real {
    if k == 0 then 1.0 else Power(g, k - 1) * g
  }

  lemma TimesNonNegative(x: real, y: real)
    requires x >= 0.0 && y >= 0.0
    ensures x * y >= 0.0
  {
  }

  lemma {:induction false} TimesMonotone(a: real, b: real, g: real)
    requires a <= b && g >= 0.0
    ensures a * g <= b * g
  {
    TimesNonNegative(b - a, g);
    assert (b - a) * g == b * g - a * g;
  }

  lemma {:induction false} GrowthGrows(a: real, g: real)
    requires a >= 0.0 && g > 1.0
    ensures a * g >= a
  {
    TimesNonNegative(a, g - 1.0);
    assert a * (g - 1.0) == a * g - a;
  }

  /** `min * growth^k`, one factor at a time. */
  function Grown(s: Setting, k: nat): real {
    if k == 0 then s.min else Grown(s, k - 1) * s.growth
  }

  lemma {:induction false} GrownIsPower(s: Setting, k: nat)
    ensures Grown(s, k) == s.min * Power(s.growth, k)
  {
    if k > 0 {
      GrownIsPower(s, k - 1);
      TimesAssoc(s.min, Power(s.growth, k - 1), s.growth);
    }
  }

  lemma TimesAssoc(a: real, b: real, c: real)
    ensures a * b * c == a * (b * c)
  {
  }

  lemma {:induction false} GrownAtLeast(s: Setting, k: nat)
    requires s.Dynamic()
    ensures Grown(s, k) >= 1.0
    ensures k > 0 ==> Grown(s, k) >= Grown(s, k - 1)
  {
    if k > 0 {
      GrownAtLeast(s, k - 1);
      GrowthGrows(Grown(s, k - 1), s.growth);
    }
  }

  lemma {:induction false} GrownWhileBelow(s: Setting, k: nat)
    requires s.Dynamic() && Grown(s, k) <= s.max
    ensures SizeAfter(s, k) == Grown(s, k)
  {
    if k > 0 {
      GrownAtLeast(s, k);
      GrownWhileBelow(s, k - 1);
    }
  }

  lemma {:induction false} MaxFromThere(s: Setting, k: nat)
    requires s.Dynamic() && Grown(s, k) > s.max
    ensures SizeAfter(s, k) == s.max
  {
    if Grown(s, k - 1) > s.max {
      MaxFromThere(s, k - 1);
      GrowthGrows(s.max, s.growth);
    } else {
      GrownWhileBelow(s, k - 1);
    }
  }

  lemma {:induction false} SizeIsGrown(s: Setting, k: nat)
    requires s.Dynamic()
    ensures SizeAfter(s, k) == Min(Grown(s, k), s.max)
  {
    if Grown(s, k) <= s.max {
      GrownWhileBelow(s, k);
    } else {
      MaxFromThere(s, k);
    }
  }

  /** After k updates the dynamic size is `min * growth^k`, capped at max. */
  lemma {:induction false} SizeClosedForm(s: Setting, k: nat)
    requires s.Dynamic()
    ensures SizeAfter(s, k) == Min(s.min * Power(s.growth, k), s.max)
  {
    SizeIsGrown(s, k);
    GrownIsPower(s, k);
  }

  lemma {:induction false} GrownMonotone(s: Setting, k: nat, n: nat)
    requires s.Dynamic() && k <= n
    ensures Grown(s, k) <= Grown(s, n)
    decreases n
  {
    if k < n {
      GrownMonotone(s, k, n - 1);
      GrownAtLeast(s, n);
    }
  }

  lemma {:induction false} SizeGrows(s: Setting, k: nat, n: nat)
    requires s.Dynamic() && k <= n
    ensures 1.0 <= SizeAfter(s, k) <= SizeAfter(s, n) <= s.max
  {
    SizeIsGrown(s, k);
    SizeIsGrown(s, n);
    GrownAtLeast(s, k);
    GrownMonotone(s, k, n);
  }

  /** The first size is the minimum where growth, minimum and maximum allow, else the maximum,
      and then every size is. */
  lemma {:induction false} FirstSize(s: Setting, k: nat)
    ensures s.growth > 1.0 && s.min >= 1.0 && s.max > s.min ==> SizeAfter(s, 0) == s.min
    ensures s.growth <= 1.0 || s.min < 1.0 || s.max <= s.min ==> SizeAfter(s, k) == s.max
  {
  }

  /** The documented sizes: 1, 3, 9, 27, 50, 50, and so on. */
  lemma {:induction false} DocumentedSizes(k: nat)
    ensures var s := Setting(50.0, 1.0, 3.0);
            && SizeAfter(s, 0) == 1.0 && SizeAfter(s, 1) == 3.0 && SizeAfter(s, 2) == 9.0 && SizeAfter(s, 3) == 27.0
            && (k >= 4 ==> SizeAfter(s, k) == 50.0)
  {
    var s := Setting(50.0, 1.0, 3.0);
    assert SizeAfter(s, 1) == Min(1.0 * 3.0, 50.0);
    assert SizeAfter(s, 2) == Min(3.0 * 3.0, 50.0);
    assert SizeAfter(s, 3) == Min(9.0 * 3.0, 50.0);
    assert SizeAfter(s, 4) == Min(27.0 * 3.0, 50.0);
    if k >= 4 {
      SizeGrows(s, 4, k);
    }
  }

  /** The size reaches its maximum. */
  lemma {:induction false} SizeReachesMax(s: Setting) returns (k: nat)
    requires s.Dynamic()
    ensures s.min * Power(s.growth, k) >= s.max
  {
    var gain := s.growth - 1.0;
    var steps := s.max / gain;
    k := Quota(steps);
    AtLeastLinear(s.growth, gain, k);
    DivideBack(s.max, gain);
    TimesMonotone(steps, k as real, gain);
    GrowthKeeps(s.min, Power(s.growth, k), s.max);
  }

  lemma DivideBack(a: real, b: real)
    requires b > 0.0
    ensures a / b * b == a
  {
  }

  lemma {:induction false} GrowthKeeps(a: real, p: real, max: real)
    requires a >= 1.0 && p >= max && p >= 0.0
    ensures a * p >= max
  {
    TimesMonotone(1.0, a, p);
  }

  lemma {:induction false} AtLeastLinear(g: real, d: real, k: nat)
    requires g == 1.0 + d && d > 0.0
    ensures Power(g, k) >= 1.0 + (k as real) * d
    ensures Power(g, k) >= 1.0
  {
    if k > 0 {
      AtLeastLinear(g, d, k - 1);
      OneMoreStep(Power(g, k - 1), g, d, (k - 1) as real);
      assert (k as real) == (k - 1) as real + 1.0;
    }
  }

  lemma {:induction false} OneMoreStep(p: real, g: real, d: real, j: real)
    requires g == 1.0 + d && d > 0.0 && j >= 0.0 && p >= 1.0 && p >= 1.0 + j * d
    ensures p * g >= 1.0 + (j + 1.0) * d && p * g >= 1.0
  {
    TimesMonotone(1.0, p, d);
    TimesNonNegative(j, d);
    assert p * (1.0 + d) == p + p * d;
    assert (j + 1.0) * d == j * d + d;
  }

  // -- Batches ---------------------------------------------------------------------

  function Ceil(x: real): int {
    -(-x).Floor
  }

  predicate Fills(count: nat, size: real) {
    count >= 1 && count as real >= size
  }

  /** How many entries fill a batch: the first count that is at least the size. */
  function Quota(size: real): (n: nat)
    ensures Fills(n, size)
    ensures forall m: nat :: Fills(m, size) ==> n <= m
  {
    if Ceil(size) >= 1 then Ceil(size) else 1
  }

  /** The batches a stream of entries is sent in, from the k-th on. */
  function Batches<T>(entries: seq<T>, s: Setting, k: nat): seq<seq<T>>
    decreases |entries|
  {
    var n := Quota(SizeAfter(s, k));
    if entries == [] then []
    else if |entries| < n then [entries]
    else [entries[..n]] + Batches(entries[n..], s, k + 1)
  }

  function Flatten<T>(batches: seq<seq<T>>): seq<T> {
    if batches == [] then [] else batches[0] + Flatten(batches[1..])
  }

  /** Batch i, for every i, is the full batch of its place in the growth. */
  ghost predicate AllFull<T>(batches: seq<seq<T>>, s: Setting, k: nat) {
    forall i :: 0 <= i < |batches| ==> |batches[i]| == Quota(SizeAfter(s, k + i))
  }

  lemma {:induction false} AllFullFirst<T>(batch: seq<T>, more: seq<seq<T>>, s: Setting, k: nat)
    ensures AllFull([batch] + more, s, k) <==> |batch| == Quota(SizeAfter(s, k)) && AllFull(more, s, k + 1)
  {
    var all := [batch] + more;
    assert all[0] == batch;
    if |batch| == Quota(SizeAfter(s, k)) && AllFull(more, s, k + 1) {
      forall i | 0 <= i < |all| ensures |all[i]| == Quota(SizeAfter(s, k + i)) {
        if i > 0 {
          assert all[i] == more[i - 1] && k + 1 + (i - 1) == k + i;
        }
      }
    }
    if AllFull(all, s, k) {
      forall i | 0 <= i < |more| ensures |more[i]| == Quota(SizeAfter(s, k + 1 + i)) {
        assert more[i] == all[i + 1] && k + (i + 1) == k + 1 + i;
      }
    }
  }

  /** Full batches, and at most one more that is neither empty nor more than full. */
  ghost predicate Grouped<T>(batches: seq<seq<T>>, s: Setting, k: nat) {
    batches == []
    || (var n := |batches| - 1;
        AllFull(batches[..n], s, k) && 1 <= |batches[n]| <= Quota(SizeAfter(s, k + n)))
  }

  /** Batching keeps every entry, in order; no batch is empty; every batch but the last is
      full, and the last is no more than full. */
  lemma {:induction false} BatchesPartition<T>(entries: seq<T>, s: Setting, k: nat)
    ensures Flatten(Batches(entries, s, k)) == entries && Grouped(Batches(entries, s, k), s, k)
    decreases |entries|
  {
    var n := Quota(SizeAfter(s, k));
    if entries != [] && n <= |entries| {
      var first, rest := entries[..n], Batches(entries[n..], s, k + 1);
      BatchesPartition(entries[n..], s, k + 1);
      assert entries == first + entries[n..];
      FlattenFirst(first, rest);
      GroupedFirst(first, rest, s, k);
    } else if entries != [] {
      FlattenFirst(entries, []);
    }
  }

  lemma {:induction false} FlattenFirst<T>(batch: seq<T>, more: seq<seq<T>>)
    ensures Flatten([batch] + more) == batch + Flatten(more)
  {
    assert ([batch] + more)[1..] == more;
  }

  lemma {:induction false} GroupedFirst<T>(batch: seq<T>, more: seq<seq<T>>, s: Setting, k: nat)
    requires |batch| == Quota(SizeAfter(s, k)) && Grouped(more, s, k + 1)
    ensures Grouped([batch] + more, s, k)
  {
    var all := [batch] + more;
    if more != [] {
      AllFullFirst(batch, more[..|more| - 1], s, k);
      assert all[..|more|] == [batch] + more[..|more| - 1];
      assert k + 1 + (|more| - 1) == k + |more|;
    }
  }

  lemma {:induction false} FlattenAppend<T>(a: seq<seq<T>>, b: seq<T>)
    ensures Flatten(a + [b]) == Flatten(a) + b
  {
    if a == [] {
      assert [b][1..] == [] && a + [b] == [b];
    } else {
      FlattenAppend(a[1..], b);
      assert (a + [b])[1..] == a[1..] + [b];
    }
  }

  // -- Batches in the making ---------------------------------------------------------

  /** The full batches only: what has been yielded when the stream breaks off. */
  function FullBatches<T>(entries: seq<T>, s: Setting, k: nat): seq<seq<T>>
    decreases |entries|
  {
    var n := Quota(SizeAfter(s, k));
    if |entries| < n then [] else [entries[..n]] + FullBatches(entries[n..], s, k + 1)
  }

  /** The entries n full batches hold, from the k-th on. */
  function QuotaSum(s: Setting, k: nat, n: nat): nat
    decreases n
  {
    if n == 0 then 0 else Quota(SizeAfter(s, k)) + QuotaSum(s, k + 1, n - 1)
  }

  predicate Sums(s: Setting, k: nat, n: nat, entries: nat) {
    QuotaSum(s, k, n) == entries
  }

  /** So many entries fill the first few batches exactly, from the k-th on. */
  ghost predicate SumOfQuotas(s: Setting, k: nat, entries: nat) {
    exists n: nat :: Sums(s, k, n, entries)
  }

  /** How many of so many entries full batches take, from the k-th on. */
  function Delivered(s: Setting, k: nat, entries: nat): (r: nat)
    ensures r <= entries
    decreases entries
  {
    var n := Quota(SizeAfter(s, k));
    if entries < n then 0 else n + Delivered(s, k + 1, entries - n)
  }

  /** Full batches take the front of the entries, as long as they can be filled. */
  lemma {:induction false} FullBatchesDeliver<T>(entries: seq<T>, s: Setting, k: nat)
    ensures Flatten(FullBatches(entries, s, k)) == entries[..Delivered(s, k, |entries|)]
    decreases |entries|
  {
    var n := Quota(SizeAfter(s, k));
    if n <= |entries| {
      var first, more := entries[..n], entries[n..];
      FullBatchesDeliver(more, s, k + 1);
      FlattenFirst(first, FullBatches(more, s, k + 1));
      var m := Delivered(s, k + 1, |more|);
      assert first + more[..m] == entries[..n + m];
    }
  }

  /** They take them all exactly when their number is a sum of quotas. */
  lemma {:induction false} AllDelivered(s: Setting, k: nat, entries: nat)
    ensures Delivered(s, k, entries) == entries <==> SumOfQuotas(s, k, entries)
    decreases entries
  {
    var q := Quota(SizeAfter(s, k));
    if entries < q {
      assert Sums(s, k, 0, 0);
      if n: nat :| Sums(s, k, n, entries) {
        assert n > 0 ==> QuotaSum(s, k, n) >= q;
      }
    } else {
      var next, more := k + 1, entries - q;
      AllDelivered(s, next, more);
      if n: nat :| Sums(s, next, n, more) {
        assert Sums(s, k, n + 1, entries);
      }
      if n: nat :| Sums(s, k, n, entries) {
        assert Sums(s, next, n - 1, more);
      }
    }
  }

  /** What the loop variables hold: the batches yielded are full, the one in the making is
      not, and together they are all entries so far. */
  ghost predicate InProgress<T>(entries: seq<T>, batches: seq<seq<T>>, pending: seq<T>, s: Setting) {
    && Flatten(batches) + pending == entries
    && |pending| < Quota(SizeAfter(s, |batches|))
    && AllFull(batches, s, 0)
  }

  /** One more entry: the batch in the making is full or not, and stays in the making if not. */
  lemma {:induction false} OneMore<T>(entries: seq<T>, batches: seq<seq<T>>, pending: seq<T>, entry: T, s: Setting)
    requires InProgress(entries, batches, pending, s)
    ensures var more := pending + [entry];
            && (!(|more| as real >= SizeAfter(s, |batches|)) ==> InProgress(entries + [entry], batches, more, s))
            && (|more| as real >= SizeAfter(s, |batches|) ==> InProgress(entries + [entry], batches + [more], [], s))
  {
    var more := pending + [entry];
    assert Flatten(batches) + more == entries + [entry];
    if |more| as real >= SizeAfter(s, |batches|) {
      assert Fills(|more|, SizeAfter(s, |batches|));
      FlattenAppend(batches, more);
      assert Flatten(batches + [more]) + [] == entries + [entry];
    }
  }

  lemma {:induction false} FullBatchFirst<T>(full: seq<T>, rest: seq<T>, s: Setting, k: nat)
    requires |full| == Quota(SizeAfter(s, k))
    ensures Batches(full + rest, s, k) == [full] + Batches(rest, s, k + 1)
    ensures FullBatches(full + rest, s, k) == [full] + FullBatches(rest, s, k + 1)
  {
    var all := full + rest;
    assert all[..|full|] == full && all[|full|..] == rest;
  }

  /** Full batches, with what is pending as the last one, are the batching. */
  lemma {:induction false} ProgressIsBatches<T>(batches: seq<seq<T>>, pending: seq<T>, s: Setting, k: nat)
    requires |pending| < Quota(SizeAfter(s, k + |batches|)) && AllFull(batches, s, k)
    ensures Batches(Flatten(batches) + pending, s, k) == batches + (if pending == [] then [] else [pending])
    ensures FullBatches(Flatten(batches) + pending, s, k) == batches
  {
    if batches == [] {
      assert [] + pending == pending;
      assert batches + [pending] == [pending];
    } else {
      var first, more := batches[0], batches[1..];
      assert batches == [first] + more && k + 1 + |more| == k + |batches|;
      AllFullFirst(first, more, s, k);
      ProgressIsBatches(more, pending, s, k + 1);
      FullBatchFirst(first, Flatten(more) + pending, s, k);
      Text.Assoc(first, Flatten(more), pending);
      if pending != [] {
        Text.Assoc([first], more, [pending]);
      }
    }
  }

  /** n / m, rounded up. */
  function CeilDiv(n: nat, m: nat): nat
    requires m >= 1
  {
    if n == 0 then 0 else if n <= m then 1 else 1 + CeilDiv(n - m, m)
  }

  lemma {:induction false} CeilDivRoundsUp(n: nat, m: nat)
    requires m >= 1
    ensures CeilDiv(n, m) * m >= n
    ensures n > 0 ==> (CeilDiv(n, m) - 1) * m < n
  {
    if n > m {
      var c := CeilDiv(n - m, m);
      CeilDivRoundsUp(n - m, m);
      assert (1 + c) * m == m + c * m;
      assert c * m == (c - 1) * m + m;
    }
  }

  lemma {:induction false} CeilDivMonotone(a: nat, b: nat, m: nat)
    requires m >= 1 && a <= b
    ensures CeilDiv(a, m) <= CeilDiv(b, m)
  {
    if a > m {
      CeilDivMonotone(a - m, b - m, m);
    }
  }

  /** Once the size is at its maximum M, N entries need ceil(N / M) batches. */
  lemma {:induction false} BatchesAtMax<T>(entries: seq<T>, s: Setting, k: nat, max: nat)
    requires s.Dynamic() && s.max == max as real && SizeAfter(s, k) == s.max
    ensures |Batches(entries, s, k)| == CeilDiv(|entries|, max)
    decreases |entries|
  {
    assert Fills(max, s.max);
    assert Quota(s.max) == max;
    if |entries| >= max {
      SizeGrows(s, k, k + 1);
      BatchesAtMax(entries[max..], s, k + 1, max);
    }
  }

  lemma {:induction false} BatchCountFrom<T>(entries: seq<T>, s: Setting, k: nat, top: nat, max: nat)
    requires s.Dynamic() && s.max == max as real
    requires k <= top && SizeAfter(s, top) == s.max
    ensures |Batches(entries, s, k)| <= top - k + CeilDiv(|entries|, max)
    decreases top - k
  {
    if k == top {
      BatchesAtMax(entries, s, k, max);
    } else {
      var n := Quota(SizeAfter(s, k));
      if n <= |entries| {
        BatchCountFrom(entries[n..], s, k + 1, top, max);
        CeilDivMonotone(|entries| - n, |entries|, max);
      }
    }
  }

  lemma MinAtLeast(a: real, b: real)
    requires a >= b
    ensures Min(a, b) == b
  {
  }

  /** N entries go out in at most K + ceil(N / M) batches, where K updates bring the size to
      its maximum M. */
  lemma {:induction false} BatchCount<T>(entries: seq<T>, s: Setting, top: nat, max: nat)
    requires s.Dynamic() && s.max == max as real
    requires s.min * Power(s.growth, top) >= s.max
    ensures |Batches(entries, s, 0)| <= top + CeilDiv(|entries|, max)
  {
    SizeIsGrown(s, top);
    GrownIsPower(s, top);
    MinAtLeast(Grown(s, top), s.max);
    BatchCountFrom(entries, s, 0, top, max);
  }

  /** A setting that is not dynamic has one size: the batches of N entries are ceil(N / Q),
      where Q entries fill a batch. */
  lemma {:induction false} FixedBatchCount<T>(entries: seq<T>, s: Setting, k: nat)
    requires !s.Dynamic()
    ensures |Batches(entries, s, k)| == CeilDiv(|entries|, Quota(s.max))
    decreases |entries|
  {
    var n := Quota(s.max);
    if entries != [] && n <= |entries| {
      FixedBatchCount(entries[n..], s, k + 1);
    }
  }
}
