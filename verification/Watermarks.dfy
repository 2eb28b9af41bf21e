/** The collector's arithmetic: percentages of a budget and the two watermarks
    (engine/gc/gc.go). */
module Watermarks {
  import opened Int64

  /** Above this the division comes first. */
  const SPLIT: int := 0x4000_0000_0000_0000 / 100

  const DEFAULT_FLOOR := 10
  const DEFAULT_HIGH := 95
  const DEFAULT_LOW := 85
  const FALLBACK_BUDGET: int := 0x1000_0000_0000_0000

  datatype Config = Config(budgetBytes: int, floor: int, high: int, low: int, budgets: map<string, int>)

  function Pct(v: int, percent: int): int
    requires v >= 0 && percent >= 0
  {
    if v > SPLIT then (v / 100) * percent else v * percent / 100
  }

  /** No step of pct leaves int64, and the answer is within 100 below the exact percentage. */
  lemma PctExact(v: int, percent: int)
    requires 0 <= v <= INT64_MAX && 0 <= percent <= 100
    ensures v > SPLIT ==> 0 <= (v / 100) * percent <= INT64_MAX
    ensures v <= SPLIT ==> 0 <= v * percent <= INT64_MAX
    ensures 0 <= Pct(v, percent) <= v
    ensures Pct(v, percent) <= v * percent / 100 < Pct(v, percent) + 100
  {
    PctBounds(v, percent);
    if v <= SPLIT {
      ProductBound(v, percent, SPLIT);
    }
  }

  lemma ProductBound(v: int, percent: int, most: int)
    requires 0 <= v <= most && 0 <= percent <= 100
    ensures 0 <= v * percent <= most * 100
  {
  }

  lemma PctBounds(v: int, percent: int)
    requires 0 <= v && 0 <= percent <= 100
    ensures 0 <= Pct(v, percent) <= v
    ensures Pct(v, percent) <= v * percent / 100 < Pct(v, percent) + 100
  {
    var q, r := v / 100, v % 100;
    assert v == 100 * q + r;
    ProductBound(r, percent, 99);
    ProductBound(q, percent, q);
    assert v * percent == 100 * (q * percent) + r * percent;
    assert v * percent / 100 == q * percent + r * percent / 100;
  }

  lemma PctMonotone(v: int, p: int, q: int)
    requires 0 <= v && 0 <= p <= q
    ensures Pct(v, p) <= Pct(v, q)
  {
    var u := if v > SPLIT then v / 100 else v;
    assert u * p <= u * q by {
      assert u * (q - p) >= 0;
      assert u * q == u * p + u * (q - p);
    }
  }

  /** A bigger volume can have a smaller mark: pct is not monotone in v across the split. */
  lemma PctDipsAtSplit()
    ensures Pct(SPLIT + 1, 50) < Pct(SPLIT, 50)
  {
  }

  /** Exactly these pairs of volumes keep the order of their marks at every percentage: both on
      one side of the split, or the larger one's whole hundreds reach the smaller. */
  lemma PctMonotoneInVolume(u: int, v: int)
    requires 0 <= u <= v
    ensures (forall p :: 0 <= p <= 100 ==> Pct(u, p) <= Pct(v, p)) <==> v <= SPLIT || SPLIT < u || u <= v - v % 100
  {
    if v <= SPLIT || SPLIT < u || u <= v - v % 100 {
      forall p | 0 <= p <= 100 ensures Pct(u, p) <= Pct(v, p) {
        ProductMonotone(u / 100, v / 100, p);
        ProductMonotone(u, v, p);
        if u <= SPLIT < v {
          ProductMonotone(u, 100 * (v / 100), p);
          assert 100 * (v / 100) * p == 100 * ((v / 100) * p);
        }
      }
    } else {
      assert Pct(u, 100) == u && Pct(v, 100) == v - v % 100;
    }
  }

  lemma ProductMonotone(a: int, b: int, percent: int)
    requires a <= b && percent >= 0
    ensures a * percent <= b * percent
  {
    assert (b - a) * percent >= 0;
    assert b * percent == a * percent + (b - a) * percent;
  }

  function Floor(c: Config): (r: int)
    ensures 0 <= r <= 90
  {
    if c.floor < 0 || c.floor > 90 then DEFAULT_FLOOR
    else if c.floor == 0 && c.high == 0 && c.low == 0 then DEFAULT_FLOOR
    else c.floor
  }

  function High(c: Config): (r: int)
    ensures 1 <= r <= 100
  {
    if c.high <= 0 || c.high > 100 || c.high <= c.low then DEFAULT_HIGH else c.high
  }

  function Low(c: Config): (r: int)
    ensures 1 <= r <= 99
  {
    if c.low <= 0 || c.low >= 100 || c.low >= High(c) then DEFAULT_LOW else c.low
  }

  /** Settings that make sense are taken as they are, and one that says nothing gives the defaults. */
  lemma SettingsTaken(c: Config)
    ensures 0 < c.low < c.high <= 100 ==> High(c) == c.high && Low(c) == c.low
    ensures 0 < c.floor <= 90 ==> Floor(c) == c.floor
    ensures c.floor == 0 && (c.high != 0 || c.low != 0) ==> Floor(c) == 0
    ensures c.floor == 0 && c.high == 0 && c.low == 0 ==> Floor(c) == 10 && High(c) == 95 && Low(c) == 85
    ensures c.floor < 0 || c.floor > 90 ==> Floor(c) == 10
    ensures c.high <= 0 || c.high > 100 || c.high <= c.low ==> High(c) == 95
    ensures c.low <= 0 || c.low >= 100 || c.low >= High(c) ==> Low(c) == 85
  {
  }

  /** The watermarks are ordered for every configuration but one family. */
  lemma WatermarksOrdered(c: Config)
    ensures Low(c) < High(c) <==> !(c.low <= 0 && 1 <= c.high <= 85)
  {
  }

  /** What refreshBudget stores, given the budget it had and what statfs said. */
  function Refreshed(c: Config, had: int, total: int, failed: bool): int {
    if c.budgetBytes > 0 then c.budgetBytes
    else if failed || total <= 0 then (if had <= 0 then FALLBACK_BUDGET else had)
    else Pct(total, 100 - Floor(c))
  }

  /** A configured budget is the budget. A measured one is what the floor leaves of the volume, to
      within 100 bytes. Without either the old one stays, or 2^60 stands in. */
  lemma RefreshedExact(c: Config, had: int, total: int, failed: bool)
    ensures c.budgetBytes > 0 ==> Refreshed(c, had, total, failed) == c.budgetBytes
    ensures c.budgetBytes <= 0 && !failed && total > 0 ==>
              var exact := total * (100 - Floor(c)) / 100;
              exact - 100 < Refreshed(c, had, total, failed) <= exact
    ensures c.budgetBytes <= 0 && (failed || total <= 0) ==>
              Refreshed(c, had, total, failed) == if had > 0 then had else 0x1000_0000_0000_0000
  {
    if c.budgetBytes <= 0 && !failed && total > 0 {
      PctBounds(total, 100 - Floor(c));
    }
  }

  /** A measured budget leaves the floor free; a failed measurement never leaves a budget of zero. */
  lemma RefreshedSafe(c: Config, had: int, total: int, failed: bool)
    ensures c.budgetBytes <= 0 && !failed && total > 0 ==>
              0 <= Refreshed(c, had, total, failed) <= total - total * Floor(c) / 100
    ensures failed || total <= 0 ==> Refreshed(c, had, total, failed) > 0
    ensures (failed || total <= 0) && c.budgetBytes <= 0 && had > 0 ==> Refreshed(c, had, total, failed) == had
  {
    if c.budgetBytes <= 0 && !failed && total > 0 {
      var f := Floor(c);
      PctBounds(total, 100 - f);
      assert total * (100 - f) == 100 * total - total * f;
    }
  }
}
