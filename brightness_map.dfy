/**
  The brightness map: a table from light bucket (0, 50, ..., 1000) to a
  brightness level, stored as a sequence indexed by bucket / 50, together with
  its user-correction edit ("flattening") and the facts about both.
 */
module BrightnessMap {
  import opened Ints

  /** Width of a light bucket, and number of buckets (keys 0, 50, ..., 1000). */
  const WIDTH: int := 50
  const BUCKETS: int := 21

  /** Light readings that have a bucket in the table: 0 <= x < 1050. */
  predicate InDomain(x: int)
  {
    0 <= x < WIDTH * BUCKETS
  }

  /** Rounds a reading down to a multiple of 50 (the remainder of Python's `%` by 50 is never negative, as in Dafny). */
  function RoundDown50(x: int): (r: int)
    ensures r % WIDTH == 0
    ensures x - WIDTH < r <= x
  {
    x - x % 50
  }

  /** The table index of the bucket that holds reading `x`. */
  function BucketOf(x: int): (k: int)
    requires InDomain(x)
    ensures 0 <= k < BUCKETS
    ensures WIDTH * k <= x < WIDTH * k + WIDTH
  {
    RoundDown50(x) / WIDTH
  }

  /** The default curve: bucket key `i` maps to `i // 10`. */
  function InitialMap(): seq<int>
  {
    seq(BUCKETS, k => (WIDTH * k) / 10)
  }

  /** Brightness does not decrease as the light level increases. */
  ghost predicate Monotone(m: seq<int>)
  {
    forall i, j :: 0 <= i <= j < |m| ==> m[i] <= m[j]
  }

  /** Whether the flattening pass overwrites the entry `cur` of key `key` after an edit at reading `ldr` to `v`. */
  predicate Overwrites(key: int, ldr: int, cur: int, v: int)
  {
    (key > ldr && cur < v) || (key < ldr && cur > v)
  }

  /**
    The map after a user correction: the bucket of `ldr` is set to `v`, then
    every key above `ldr` holding less than `v`, and every key below `ldr`
    holding more than `v`, is overwritten with `v`. Each loop step reads and
    writes its own key only, so the pass is described entry by entry.
   */
  function Updated(m: seq<int>, ldr: int, v: int): seq<int>
    requires |m| == BUCKETS && InDomain(ldr)
  {
    var edited := m[BucketOf(ldr) := v];
    seq(BUCKETS, j requires 0 <= j < BUCKETS =>
      if Overwrites(WIDTH * j, ldr, edited[j], v) then v else edited[j])
  }

  /** The default curve has 21 entries, each in [0, 100], and is non-decreasing. */
  lemma InitialMapFacts()
    ensures |InitialMap()| == BUCKETS
    ensures forall k :: 0 <= k < BUCKETS ==> 0 <= InitialMap()[k] <= 100
    ensures Monotone(InitialMap())
  {
    var m := InitialMap();
    forall i, j | 0 <= i <= j < |m| ensures m[i] <= m[j] {
      assert m[i] == 5 * i && m[j] == 5 * j;
    }
  }

  /** Entry by entry: the edited bucket holds `v`, each higher bucket `max(old, v)`, each lower bucket `min(old, v)`. */
  lemma UpdatedAt(m: seq<int>, ldr: int, v: int, j: int)
    requires |m| == BUCKETS && InDomain(ldr) && 0 <= j < BUCKETS
    ensures |Updated(m, ldr, v)| == BUCKETS
    ensures Updated(m, ldr, v)[j] ==
      if j == BucketOf(ldr) then v
      else if j > BucketOf(ldr) then Max(m[j], v)
      else Min(m[j], v)
  {
    var k := BucketOf(ldr);
    if j > k {
      assert WIDTH * j >= WIDTH * k + WIDTH;
    } else if j < k {
      assert WIDTH * j + WIDTH <= WIDTH * k;
    }
  }

  /** A non-decreasing map stays non-decreasing after any correction. */
  lemma UpdatePreservesMonotone(m: seq<int>, ldr: int, v: int)
    requires |m| == BUCKETS && InDomain(ldr) && Monotone(m)
    ensures Monotone(Updated(m, ldr, v))
  {
    var r := Updated(m, ldr, v);
    forall i, j | 0 <= i <= j < |r| ensures r[i] <= r[j] {
      UpdatedAt(m, ldr, v, i);
      UpdatedAt(m, ldr, v, j);
    }
  }

  /** Repeating the same correction changes nothing. */
  lemma UpdateIdempotent(m: seq<int>, ldr: int, v: int)
    requires |m| == BUCKETS && InDomain(ldr)
    ensures Updated(Updated(m, ldr, v), ldr, v) == Updated(m, ldr, v)
  {
    var once := Updated(m, ldr, v);
    var twice := Updated(once, ldr, v);
    UpdatedAt(m, ldr, v, 0);
    forall j | 0 <= j < BUCKETS ensures twice[j] == once[j] {
      UpdatedAt(m, ldr, v, j);
      UpdatedAt(once, ldr, v, j);
    }
  }

  /** Every entry after a correction is either its old value or the new one. */
  lemma UpdatedValues(m: seq<int>, ldr: int, v: int)
    requires |m| == BUCKETS && InDomain(ldr)
    ensures forall j :: 0 <= j < BUCKETS ==> Updated(m, ldr, v)[j] == m[j] || Updated(m, ldr, v)[j] == v
  {
    forall j | 0 <= j < BUCKETS ensures Updated(m, ldr, v)[j] == m[j] || Updated(m, ldr, v)[j] == v {
      UpdatedAt(m, ldr, v, j);
    }
  }

  /**
    Correcting the default curve at reading 500 to 80 flattens buckets 550..800
    up to 80, leaves 850..1000 (already at least 80) and everything below 500 as they were.
   */
  lemma CorrectionAt500To80()
    ensures Updated(InitialMap(), 500, 80) ==
      [0, 5, 10, 15, 20, 25, 30, 35, 40, 45, 80, 80, 80, 80, 80, 80, 80, 85, 90, 95, 100]
  {
    var m := InitialMap();
    var r := Updated(m, 500, 80);
    var expected := [0, 5, 10, 15, 20, 25, 30, 35, 40, 45, 80, 80, 80, 80, 80, 80, 80, 85, 90, 95, 100];
    forall j | 0 <= j < BUCKETS ensures r[j] == expected[j] {
      UpdatedAt(m, 500, 80, j);
    }
  }
}
