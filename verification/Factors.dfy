/** Percentile ranks of factor values within a sector or market partition. */
module Factors {
  import opened Prelude
  import opened Rounding
  import opened Sorting

  /** A raw value: missing, infinite or not a number, or usable. */
  datatype RawValue = Missing | NotFinite | Finite(value: real)

  datatype Direction = HigherIsBetter | LowerIsBetter | Unsupported(name: string)

  datatype Row = Row(
    ticker: string,
    market: string,
    sector: Option<string>,
    asOf: int,
    factor: string,
    raw: RawValue,
    direction: Direction,
    sourceRefs: seq<string>)

  /** A partition's kind and key. */
  datatype PartitionKey = MarketSector(market: string, sector: string) | Market(market: string)

  /** What makes two rows peers, and the key of the rank cache. */
  datatype CacheKey = CacheKey(partition: PartitionKey, asOf: int, factor: string, direction: Direction)

  datatype Partition = Partition(key: PartitionKey, peers: seq<nat>, usedFallback: bool)

  datatype RankResult = RankResult(
    row: Row,
    usable: Option<real>,
    percentile: Option<real>,
    partition: PartitionKey,
    partitionSize: nat,
    usedFallback: bool,
    missingData: seq<string>)

  datatype RankError = MinPartitionSize | UnsupportedDirection(name: string)

  function Usable(raw: RawValue): Option<real> {
    if raw.Finite? then Some(raw.value) else None
  }

  /** The value that larger is better for. */
  function RankValue(raw: real, direction: Direction): real {
    if direction.HigherIsBetter? then raw else -raw
  }

  predicate InPartition(row: Row, key: PartitionKey) {
    row.market == key.market && (key.MarketSector? ==> row.sector == Some(key.sector))
  }

  predicate IsPeer(row: Row, key: CacheKey) {
    && row.raw.Finite?
    && row.asOf == key.asOf && row.factor == key.factor && row.direction == key.direction
    && InPartition(row, key.partition)
  }

  // ---- The counting definition ----

  /** What one row contributes to the values. */
  function PeerValue(row: Row, key: CacheKey): seq<real> {
    if IsPeer(row, key) then [RankValue(row.raw.value, key.direction)] else []
  }

  /** The rank values of all peers, in row order. */
  function Values(rows: seq<Row>, key: CacheKey): seq<real> {
    if rows == [] then []
    else
      var last := rows[|rows| - 1];
      Values(rows[..|rows| - 1], key) + PeerValue(last, key)
  }

  function Below(values: seq<real>, v: real): nat {
    if values == [] then 0
    else Below(values[..|values| - 1], v) + if values[|values| - 1] < v then 1 else 0
  }

  function Equal(values: seq<real>, v: real): nat {
    if values == [] then 0
    else Equal(values[..|values| - 1], v) + if values[|values| - 1] == v then 1 else 0
  }

  /** Every worse peer counts one and every other equal peer half. */
  function Points(values: seq<real>, v: real): real {
    Below(values, v) as real + (Equal(values, v) - 1) as real / 2.0
  }

  function Share(points: real, rivals: int): real
    requires rivals > 0
  {
    100.0 * points / rivals as real
  }

  /** Before rounding: a lone peer ranks 100, otherwise the share of its points in those of all its rivals. */
  function Percentile(values: seq<real>, v: real): real {
    if |values| <= 1 then 100.0 else Share(Points(values, v), |values| - 1)
  }

  predicate HasSector(row: Row) {
    row.sector.Some? && row.sector.value != ""
  }

  function KeyFor(row: Row, partition: PartitionKey): CacheKey {
    CacheKey(partition, row.asOf, row.factor, row.direction)
  }

  function SectorKey(row: Row): CacheKey
    requires HasSector(row)
  {
    KeyFor(row, MarketSector(row.market, row.sector.value))
  }

  predicate SectorIsLargeEnough(rows: seq<Row>, row: Row, minSize: int) {
    HasSector(row) && |Values(rows, SectorKey(row))| >= minSize
  }

  function ChosenKey(rows: seq<Row>, row: Row, minSize: int): CacheKey {
    if SectorIsLargeEnough(rows, row, minSize) then SectorKey(row) else KeyFor(row, Market(row.market))
  }

  /** What a row's result is, by counting over all rows and without a cache. */
  function Rank(rows: seq<Row>, row: Row, minSize: int): RankResult {
    var key := ChosenKey(rows, row, minSize);
    var values := Values(rows, key);
    RankResult(
      row,
      Usable(row.raw),
      if row.raw.Finite? then Some(Round6(Percentile(values, RankValue(row.raw.value, row.direction)))) else None,
      key.partition,
      |values|,
      HasSector(row) && !SectorIsLargeEnough(rows, row, minSize),
      if row.raw.Finite? then [] else [row.factor + ".raw_value"])
  }

  // ---- Counting ----

  lemma {:induction false} CountsSplit(a: seq<real>, b: seq<real>, v: real)
    ensures Below(a + b, v) == Below(a, v) + Below(b, v)
    ensures Equal(a + b, v) == Equal(a, v) + Equal(b, v)
  {
    if b == [] {
      assert a + b == a;
    } else {
      CountsSplit(a, b[..|b| - 1], v);
      DropLastOfSum(a, b);
    }
  }

  lemma CountsWithoutOne(a: seq<real>, i: nat, v: real)
    requires i < |a|
    ensures Below(a, v) == Below(a[..i] + a[i + 1..], v) + if a[i] < v then 1 else 0
    ensures Equal(a, v) == Equal(a[..i] + a[i + 1..], v) + if a[i] == v then 1 else 0
  {
    assert a == a[..i + 1] + a[i + 1..];
    CountsSplit(a[..i + 1], a[i + 1..], v);
    CountsSplit(a[..i], a[i + 1..], v);
    assert a[..i + 1][..i] == a[..i];
  }

  /** Counts depend on the values as a bag only. */
  lemma {:induction false} CountsIgnoreOrder(a: seq<real>, b: seq<real>, v: real)
    requires multiset(a) == multiset(b)
    ensures Below(a, v) == Below(b, v) && Equal(a, v) == Equal(b, v)
  {
    if a == [] {
      assert |multiset(b)| == 0;
    } else {
      var i := Match(a, b);
      CountsIgnoreOrder(a[..|a| - 1], b[..i] + b[i + 1..], v);
      CountsWithoutOne(b, i, v);
    }
  }

  /** Two lists whose elements compare alike with v and w give the same counts. */
  lemma {:induction false} CountsByComparison(a: seq<real>, b: seq<real>, v: real, w: real)
    requires |a| == |b|
    requires forall i :: 0 <= i < |a| ==> (a[i] < v <==> b[i] < w) && (a[i] == v <==> b[i] == w)
    ensures Below(a, v) == Below(b, w) && Equal(a, v) == Equal(b, w)
  {
    if a != [] { CountsByComparison(a[..|a| - 1], b[..|b| - 1], v, w); }
  }

  function Negated(values: seq<real>): seq<real> {
    seq(|values|, i requires 0 <= i < |values| => -values[i])
  }

  lemma {:induction false} CountsOfNegated(values: seq<real>, v: real)
    ensures Below(Negated(values), -v) == |values| - Below(values, v) - Equal(values, v)
    ensures Equal(Negated(values), -v) == Equal(values, v)
  {
    if values != [] {
      CountsOfNegated(values[..|values| - 1], v);
      assert Negated(values)[..|values| - 1] == Negated(values[..|values| - 1]);
    }
  }

  lemma {:induction false} CountsBounded(values: seq<real>, v: real, w: real)
    ensures Below(values, v) + Equal(values, v) <= |values|
    ensures v in values ==> Equal(values, v) >= 1
    ensures v < w ==> Below(values, v) + Equal(values, v) <= Below(values, w)
  {
    if values != [] { CountsBounded(values[..|values| - 1], v, w); }
  }

  lemma ShareOrder(a: real, b: real, rivals: int)
    requires rivals > 0
    ensures a < b ==> Share(a, rivals) < Share(b, rivals)
    ensures a <= b ==> Share(a, rivals) <= Share(b, rivals)
  {
    var n := rivals as real;
    assert Share(a, rivals) * n == 100.0 * a && Share(b, rivals) * n == 100.0 * b;
    if a < b && Share(a, rivals) >= Share(b, rivals) { Scale(Share(b, rivals), Share(a, rivals), n); }
  }

  lemma Scale(x: real, y: real, n: real)
    requires n > 0.0 && x <= y
    ensures x * n <= y * n
  {}

  lemma ShareAdds(a: real, b: real, rivals: int)
    requires rivals > 0
    ensures Share(a, rivals) + Share(b, rivals) == Share(a + b, rivals)
  {}

  /** Half of all rivals' points, times k. */
  lemma ShareOfAll(k: int, rivals: int)
    requires rivals > 0
    ensures Share((k * rivals) as real / 2.0, rivals) == 50.0 * k as real
  {
    var n, p := rivals as real, (k * rivals) as real;
    assert p == k as real * n;
    assert 100.0 * (p / 2.0) == 50.0 * k as real * n;
  }

  /** Peers' percentiles lie in 0..100, and a better value ranks strictly higher before rounding. */
  lemma PercentileOrdersValues(values: seq<real>, v: real, w: real)
    requires |values| >= 2 && v in values && w in values
    ensures 0.0 <= Percentile(values, v) <= 100.0
    ensures v < w ==> Percentile(values, v) < Percentile(values, w)
  {
    CountsBounded(values, v, w);
    CountsBounded(values, w, w);
    var rivals := |values| - 1;
    ShareOrder(0.0, Points(values, v), rivals);
    ShareOrder(Points(values, v), (2 * rivals) as real / 2.0, rivals);
    ShareOfAll(0, rivals);
    ShareOfAll(2, rivals);
    ShareOrder(Points(values, v), Points(values, w), rivals);
  }

  // ---- Conservation ----

  function BelowSum(list: seq<real>, values: seq<real>): nat {
    if list == [] then 0 else BelowSum(list[..|list| - 1], values) + Below(values, list[|list| - 1])
  }

  function EqualSum(list: seq<real>, values: seq<real>): nat {
    if list == [] then 0 else EqualSum(list[..|list| - 1], values) + Equal(values, list[|list| - 1])
  }

  lemma {:induction false} SumsOfAppended(list: seq<real>, values: seq<real>, x: real)
    ensures BelowSum(list, values + [x]) == BelowSum(list, values) + |list| - Below(list, x) - Equal(list, x)
    ensures EqualSum(list, values + [x]) == EqualSum(list, values) + Equal(list, x)
  {
    if list != [] {
      SumsOfAppended(list[..|list| - 1], values, x);
      CountsSplit(values, [x], list[|list| - 1]);
    }
  }

  /** Each ordered pair of peers is counted once as below, or once each way as equal. */
  lemma {:induction false} PairsAddUp(values: seq<real>)
    ensures 2 * BelowSum(values, values) + EqualSum(values, values) == |values| * |values|
  {
    if values != [] {
      var front, x := values[..|values| - 1], values[|values| - 1];
      var n, below, equal := |front|, Below(front, x), Equal(front, x);
      PairsAddUp(front);
      assert values == front + [x];
      SumsOfAppended(front, front, x);
      CountsSplit(front, [x], x);
      OneMorePair(n, BelowSum(front, front), EqualSum(front, front), below, equal);
    }
  }

  /** What one more value adds to the pairs. */
  lemma OneMorePair(n: nat, belowSum: int, equalSum: int, below: int, equal: int)
    requires 2 * belowSum + equalSum == n * n
    ensures 2 * (belowSum + n - below - equal + below) + (equalSum + equal + equal + 1) == (n + 1) * (n + 1)
  {}

  function PercentileSum(list: seq<real>, values: seq<real>): real {
    if list == [] then 0.0 else PercentileSum(list[..|list| - 1], values) + Percentile(values, list[|list| - 1])
  }

  function PointSum(list: seq<real>, values: seq<real>): real {
    (2 * BelowSum(list, values) + EqualSum(list, values) - |list|) as real / 2.0
  }

  lemma {:induction false} PercentileSumOf(list: seq<real>, values: seq<real>)
    requires |values| >= 2
    ensures PercentileSum(list, values) == Share(PointSum(list, values), |values| - 1)
  {
    if list == [] {
      ShareOfAll(0, |values| - 1);
    } else {
      var front, x := list[..|list| - 1], list[|list| - 1];
      PercentileSumOf(front, values);
      ShareAdds(PointSum(front, values), Points(values, x), |values| - 1);
      assert PointSum(front, values) + Points(values, x) == PointSum(list, values);
    }
  }

  /** Conservation: before rounding, the percentiles of a partition of n >= 2 peers sum to 50 n. */
  lemma PercentilesConserved(values: seq<real>)
    requires |values| >= 2
    ensures PercentileSum(values, values) == 50.0 * |values| as real
  {
    PercentileSumOf(values, values);
    PairsAddUp(values);
    ShareOfAll(|values|, |values| - 1);
  }

  // ---- Symmetries of the ranking ----

  lemma {:induction false} ValuesSplit(a: seq<Row>, b: seq<Row>, key: CacheKey)
    ensures Values(a + b, key) == Values(a, key) + Values(b, key)
  {
    if b == [] {
      assert a + b == a;
    } else {
      ValuesSplit(a, b[..|b| - 1], key);
      DropLastOfSum(a, b);
    }
  }

  lemma {:induction false} ValuesIgnoreOrder(a: seq<Row>, b: seq<Row>, key: CacheKey)
    requires multiset(a) == multiset(b)
    ensures multiset(Values(a, key)) == multiset(Values(b, key))
  {
    if a == [] {
      assert |multiset(b)| == 0;
    } else {
      var i := Match(a, b);
      ValuesIgnoreOrder(a[..|a| - 1], b[..i] + b[i + 1..], key);
      ValuesWithoutOne(b, i, key);
    }
  }

  lemma ValuesWithoutOne(a: seq<Row>, i: nat, key: CacheKey)
    requires i < |a|
    ensures multiset(Values(a, key)) == multiset(Values(a[..i] + a[i + 1..], key)) + multiset(PeerValue(a[i], key))
  {
    assert a == a[..i + 1] + a[i + 1..];
    ValuesSplit(a[..i + 1], a[i + 1..], key);
    ValuesSplit(a[..i], a[i + 1..], key);
    assert a[..i + 1][..i] == a[..i];
  }

  /** A row's whole result depends on the input rows as a bag only: permuting the rows permutes the results. */
  lemma RankIgnoresOrder(rows: seq<Row>, permuted: seq<Row>, row: Row, minSize: int)
    requires multiset(rows) == multiset(permuted)
    ensures Rank(rows, row, minSize) == Rank(permuted, row, minSize)
  {
    if HasSector(row) { SamePercentiles(rows, permuted, SectorKey(row), 0.0); }
    var raw := if row.raw.Finite? then RankValue(row.raw.value, row.direction) else 0.0;
    SamePercentiles(rows, permuted, ChosenKey(rows, row, minSize), raw);
  }

  lemma SamePercentiles(rows: seq<Row>, permuted: seq<Row>, key: CacheKey, v: real)
    requires multiset(rows) == multiset(permuted)
    ensures |Values(rows, key)| == |Values(permuted, key)|
    ensures Percentile(Values(rows, key), v) == Percentile(Values(permuted, key), v)
  {
    ValuesIgnoreOrder(rows, permuted, key);
    PercentileIgnoresOrder(Values(rows, key), Values(permuted, key), v);
  }

  lemma PercentileIgnoresOrder(a: seq<real>, b: seq<real>, v: real)
    requires multiset(a) == multiset(b)
    ensures |a| == |b| && Percentile(a, v) == Percentile(b, v)
  {
    SameSize(a, b);
    CountsIgnoreOrder(a, b, v);
    assert Points(a, v) == Points(b, v);
  }

  function Flip(d: Direction): Direction {
    match d
    case HigherIsBetter => LowerIsBetter
    case LowerIsBetter => HigherIsBetter
    case Unsupported(_) => d
  }

  function FlipAll(rows: seq<Row>): seq<Row> {
    seq(|rows|, i requires 0 <= i < |rows| => rows[i].(direction := Flip(rows[i].direction)))
  }

  function FlipKey(key: CacheKey): CacheKey {
    key.(direction := Flip(key.direction))
  }

  lemma {:induction false} ValuesFlipped(rows: seq<Row>, key: CacheKey)
    requires !key.direction.Unsupported?
    ensures Values(FlipAll(rows), FlipKey(key)) == Negated(Values(rows, key))
  {
    if rows != [] {
      var n := |rows| - 1;
      ValuesFlipped(rows[..n], key);
      assert FlipAll(rows)[..n] == FlipAll(rows[..n]);
      PeerFlipped(rows[n], key);
      NegatedAppend(Values(rows[..n], key), PeerValue(rows[n], key));
    }
  }

  lemma PeerFlipped(row: Row, key: CacheKey)
    requires !key.direction.Unsupported?
    ensures PeerValue(row.(direction := Flip(row.direction)), FlipKey(key)) == Negated(PeerValue(row, key))
  {}

  lemma NegatedAppend(a: seq<real>, b: seq<real>)
    ensures Negated(a + b) == Negated(a) + Negated(b)
  {
  }

  lemma ShareComplement(a: real, b: real, rivals: int)
    requires rivals > 0 && a + b == rivals as real
    ensures Share(a, rivals) == 100.0 - Share(b, rivals)
  {
    ShareAdds(a, b, rivals);
    ShareOfAll(2, rivals);
    assert (2 * rivals) as real / 2.0 == a + b;
  }

  /** Duality: with every direction flipped, a partition of two or more ranks every row at 100 minus its rank, also
      after rounding; a lone peer stays at 100. Partitions, sizes and fallbacks do not change. */
  lemma FlippingReflectsRanks(rows: seq<Row>, row: Row, minSize: int)
    requires !row.direction.Unsupported?
    ensures var r, f := Rank(rows, row, minSize), Rank(FlipAll(rows), row.(direction := Flip(row.direction)), minSize);
            && f.partition == r.partition && f.partitionSize == r.partitionSize && f.usedFallback == r.usedFallback
            && (r.percentile.None? <==> f.percentile.None?)
            && (r.percentile.Some? ==>
                  f.percentile.value == if r.partitionSize >= 2 then 100.0 - r.percentile.value else r.percentile.value)
  {
    var flipped := row.(direction := Flip(row.direction));
    if HasSector(row) { ValuesFlipped(rows, SectorKey(row)); }
    var key := ChosenKey(rows, row, minSize);
    ValuesFlipped(rows, key);
    assert ChosenKey(FlipAll(rows), flipped, minSize) == FlipKey(key);
    if row.raw.Finite? {
      var values, v := Values(rows, key), RankValue(row.raw.value, row.direction);
      assert RankValue(row.raw.value, flipped.direction) == -v;
      NegatedPercentile(values, v);
    }
  }

  lemma NegatedPercentile(values: seq<real>, v: real)
    ensures var p, q := Round6(Percentile(values, v)), Round6(Percentile(Negated(values), -v));
            q == if |values| >= 2 then 100.0 - p else p
  {
    CountsOfNegated(values, v);
    if |values| >= 2 {
      ShareComplement(Points(Negated(values), -v), Points(values, v), |values| - 1);
      Round6Reflects(Percentile(values, v), 100);
    }
  }

  function Transform(rows: seq<Row>, f: real -> real): seq<Row> {
    seq(|rows|, i requires 0 <= i < |rows| => TransformRow(rows[i], f))
  }

  function TransformRow(row: Row, f: real -> real): Row {
    if row.raw.Finite? then row.(raw := Finite(f(row.raw.value))) else row
  }

  ghost predicate StrictlyIncreasing(f: real -> real) {
    forall x, y :: x < y ==> f(x) < f(y)
  }

  lemma {:induction false} ValuesTransformed(rows: seq<Row>, f: real -> real, key: CacheKey, raw: real)
    requires StrictlyIncreasing(f)
    ensures var a, b := Values(rows, key), Values(Transform(rows, f), key);
            var v, w := RankValue(raw, key.direction), RankValue(f(raw), key.direction);
            && |a| == |b|
            && forall i :: 0 <= i < |a| ==> (a[i] < v <==> b[i] < w) && (a[i] == v <==> b[i] == w)
  {
    if rows != [] {
      ValuesTransformed(rows[..|rows| - 1], f, key, raw);
      assert Transform(rows, f)[..|rows| - 1] == Transform(rows[..|rows| - 1], f);
      var last := rows[|rows| - 1];
      if last.raw.Finite? {
        var x := last.raw.value;
        assert x < raw ==> f(x) < f(raw);
        assert raw < x ==> f(raw) < f(x);
      }
    }
  }

  /** Ranks see only the order of the raw values: a strictly increasing rescaling changes no percentile. */
  lemma RankIgnoresScale(rows: seq<Row>, f: real -> real, row: Row, minSize: int)
    requires StrictlyIncreasing(f)
    ensures var r, t := Rank(rows, row, minSize), Rank(Transform(rows, f), TransformRow(row, f), minSize);
            && t.percentile == r.percentile && t.partition == r.partition
            && t.partitionSize == r.partitionSize && t.usedFallback == r.usedFallback
  {
    if HasSector(row) { PercentileTransformed(rows, f, SectorKey(row), 0.0); }
    var key := ChosenKey(rows, row, minSize);
    var raw := if row.raw.Finite? then row.raw.value else 0.0;
    PercentileTransformed(rows, f, key, raw);
    assert ChosenKey(Transform(rows, f), TransformRow(row, f), minSize) == key;
  }

  lemma PercentileTransformed(rows: seq<Row>, f: real -> real, key: CacheKey, raw: real)
    requires StrictlyIncreasing(f)
    ensures |Values(Transform(rows, f), key)| == |Values(rows, key)|
    ensures Percentile(Values(Transform(rows, f), key), RankValue(f(raw), key.direction))
         == Percentile(Values(rows, key), RankValue(raw, key.direction))
  {
    ValuesTransformed(rows, f, key, raw);
    CountsByComparison(Values(rows, key), Values(Transform(rows, f), key),
                       RankValue(raw, key.direction), RankValue(f(raw), key.direction));
  }

  // ---- Membership, on the rows themselves ----

  /** A row whose market, date, factor and direction are those of another, and whose value is usable. */
  predicate Alike(x: Row, row: Row) {
    && x.raw.Finite?
    && x.market == row.market && x.asOf == row.asOf && x.factor == row.factor && x.direction == row.direction
  }

  /** The numbers of the rows that satisfy a condition. */
  function Numbers(rows: seq<Row>, holds: Row -> bool): set<nat> {
    set i: nat | i < |rows| && holds(rows[i])
  }

  /** The row numbers that are ranked together with a row: across its market, or within its sector only. */
  function Members(rows: seq<Row>, row: Row, sectorOnly: bool): set<nat> {
    Numbers(rows, x => Joins(x, row, sectorOnly))
  }

  predicate Joins(x: Row, row: Row, sectorOnly: bool) {
    Alike(x, row) && (sectorOnly ==> x.sector == row.sector)
  }

  /** The members that are worse than a value, or as good. */
  function WorseMembers(rows: seq<Row>, row: Row, sectorOnly: bool, raw: real): set<nat> {
    Numbers(rows, x => Joins(x, row, sectorOnly) && Better(raw, x.raw.value, row.direction))
  }

  function EqualMembers(rows: seq<Row>, row: Row, sectorOnly: bool, raw: real): set<nat> {
    Numbers(rows, x => Joins(x, row, sectorOnly) && x.raw.value == raw)
  }

  predicate Better(x: real, y: real, direction: Direction) {
    if direction.HigherIsBetter? then x > y else x < y
  }

  lemma NumbersGrow(rows: seq<Row>, holds: Row -> bool)
    requires rows != []
    ensures var n := |rows| - 1;
            |Numbers(rows, holds)| == |Numbers(rows[..n], holds)| + if holds(rows[n]) then 1 else 0
  {
    var n := |rows| - 1;
    var before := Numbers(rows[..n], holds);
    assert n !in before;
    assert Numbers(rows, holds) == before + if holds(rows[n]) then {n} else {};
  }

  lemma {:induction false} CountsOfNumbers(rows: seq<Row>, key: CacheKey, v: real)
    ensures |Values(rows, key)| == |Numbers(rows, x => IsPeer(x, key))|
    ensures Below(Values(rows, key), v)
         == |Numbers(rows, x => IsPeer(x, key) && RankValue(x.raw.value, key.direction) < v)|
    ensures Equal(Values(rows, key), v)
         == |Numbers(rows, x => IsPeer(x, key) && RankValue(x.raw.value, key.direction) == v)|
  {
    if rows != [] {
      var n := |rows| - 1;
      CountsOfNumbers(rows[..n], key, v);
      CountsSplit(Values(rows[..n], key), PeerValue(rows[n], key), v);
      NumbersGrow(rows, x => IsPeer(x, key));
      NumbersGrow(rows, x => IsPeer(x, key) && RankValue(x.raw.value, key.direction) < v);
      NumbersGrow(rows, x => IsPeer(x, key) && RankValue(x.raw.value, key.direction) == v);
    }
  }

  function KeyOfRow(row: Row, sectorOnly: bool): CacheKey
    requires sectorOnly ==> row.sector.Some?
  {
    KeyFor(row, if sectorOnly then MarketSector(row.market, row.sector.value) else Market(row.market))
  }

  lemma PeersJoin(x: Row, row: Row, sectorOnly: bool)
    requires sectorOnly ==> row.sector.Some?
    ensures IsPeer(x, KeyOfRow(row, sectorOnly)) <==> Joins(x, row, sectorOnly)
  {}

  lemma NumbersAlike(rows: seq<Row>, p: Row -> bool, q: Row -> bool)
    requires forall x :: p(x) <==> q(x)
    ensures Numbers(rows, p) == Numbers(rows, q)
  {}

  lemma MembersCount(rows: seq<Row>, row: Row, sectorOnly: bool, raw: real)
    requires sectorOnly ==> row.sector.Some?
    ensures var values, v := Values(rows, KeyOfRow(row, sectorOnly)), RankValue(raw, row.direction);
            && |values| == |Members(rows, row, sectorOnly)|
            && Below(values, v) == |WorseMembers(rows, row, sectorOnly, raw)|
            && Equal(values, v) == |EqualMembers(rows, row, sectorOnly, raw)|
  {
    MembersOfKey(rows, KeyOfRow(row, sectorOnly), row, sectorOnly, raw, RankValue(raw, row.direction));
  }

  lemma MembersOfKey(rows: seq<Row>, key: CacheKey, row: Row, sectorOnly: bool, raw: real, v: real)
    requires sectorOnly ==> row.sector.Some?
    requires key == KeyOfRow(row, sectorOnly) && v == RankValue(raw, row.direction)
    ensures |Values(rows, key)| == |Members(rows, row, sectorOnly)|
    ensures Below(Values(rows, key), v) == |WorseMembers(rows, row, sectorOnly, raw)|
    ensures Equal(Values(rows, key), v) == |EqualMembers(rows, row, sectorOnly, raw)|
  {
    forall x ensures IsPeer(x, key) <==> Joins(x, row, sectorOnly) { PeersJoin(x, row, sectorOnly); }
    CountsOfNumbers(rows, key, v);
    NumbersAlike(rows, x => Joins(x, row, sectorOnly), x => IsPeer(x, key));
    NumbersAlike(rows, x => Joins(x, row, sectorOnly) && Better(raw, x.raw.value, row.direction),
                 x => IsPeer(x, key) && RankValue(x.raw.value, key.direction) < v);
    NumbersAlike(rows, x => Joins(x, row, sectorOnly) && x.raw.value == raw,
                 x => IsPeer(x, key) && RankValue(x.raw.value, key.direction) == v);
  }

  /** Which rows a row is ranked with: the ones of its market, date, factor and direction that have a usable value,
      within its sector when these are enough, else across the market. */
  lemma PartitionIsExact(rows: seq<Row>, row: Row, minSize: int)
    ensures var r := Rank(rows, row, minSize);
            var inSector := r.partition.MarketSector?;
            && (inSector <==> row.sector.Some? && row.sector.value != "" && |Members(rows, row, true)| >= minSize)
            && r.partition == (if inSector then MarketSector(row.market, row.sector.value) else Market(row.market))
            && r.partitionSize == |Members(rows, row, inSector)|
            && (r.usedFallback <==> row.sector.Some? && row.sector.value != "" && !inSector)
  {
    MembersCount(rows, row, false, 0.0);
    if row.sector.Some? { MembersCount(rows, row, true, 0.0); }
  }

  /** Where a row stands among these: the worse ones count one, the other equal ones half. */
  lemma RankIsExact(rows: seq<Row>, row: Row, minSize: int)
    ensures var r := Rank(rows, row, minSize);
            && r.row == row && (row.raw.Finite? <==> r.percentile.Some?)
            && r.usable == (if row.raw.Finite? then Some(row.raw.value) else None)
            && (r.missingData == [] <==> row.raw.Finite?)
            && (row.raw.Finite? ==>
                  r.percentile.value == Standing(rows, row, r.partition.MarketSector?, row.raw.value, r.partitionSize))
  {
    if row.raw.Finite? {
      var inSector := SectorIsLargeEnough(rows, row, minSize);
      MembersCount(rows, row, inSector, row.raw.value);
    }
  }

  function Standing(rows: seq<Row>, row: Row, sectorOnly: bool, raw: real, n: nat): real {
    var worse, equal := |WorseMembers(rows, row, sectorOnly, raw)|, |EqualMembers(rows, row, sectorOnly, raw)|;
    if n <= 1 then Round6(100.0)
    else Round6(100.0 * (worse as real + (equal - 1) as real / 2.0) / (n - 1) as real)
  }

  /** A row that has no part in another's ranking. */
  predicate Foreign(x: Row, row: Row) {
    x.asOf != row.asOf || x.factor != row.factor || x.direction != row.direction || x.market != row.market
    || !x.raw.Finite?
  }

  lemma ForeignAddsNothing(a: seq<Row>, x: Row, b: seq<Row>, row: Row, partition: PartitionKey)
    requires Foreign(x, row) && partition.market == row.market
    ensures Values(a + [x] + b, KeyFor(row, partition)) == Values(a + b, KeyFor(row, partition))
  {
    var key := KeyFor(row, partition);
    ValuesSplit(a + [x], b, key);
    ValuesSplit(a, [x], key);
    ValuesSplit(a, b, key);
  }

  /** Locality: rows of another date, factor, direction or market, and rows without a usable value, can be inserted,
      deleted and altered anywhere without changing anything in a row's result. */
  lemma RankIsLocal(a: seq<Row>, x: Row, y: Row, b: seq<Row>, row: Row, minSize: int)
    requires Foreign(x, row) && Foreign(y, row)
    ensures Rank(a + [x] + b, row, minSize) == Rank(a + b, row, minSize)
    ensures Rank(a + [x] + b, row, minSize) == Rank(a + [y] + b, row, minSize)
  {
    LocalToOne(a, x, b, row, minSize);
    LocalToOne(a, y, b, row, minSize);
  }

  lemma LocalToOne(a: seq<Row>, x: Row, b: seq<Row>, row: Row, minSize: int)
    requires Foreign(x, row)
    ensures Rank(a + [x] + b, row, minSize) == Rank(a + b, row, minSize)
  {
    if HasSector(row) { ForeignAddsNothing(a, x, b, row, MarketSector(row.market, row.sector.value)); }
    ForeignAddsNothing(a, x, b, row, Market(row.market));
  }

  // ---- The loops ----

  /** Peer row numbers in row order. */
  function Peers(rows: seq<Row>, key: CacheKey): (r: seq<nat>)
    ensures forall k :: 0 <= k < |r| ==> r[k] < |rows| && IsPeer(rows[r[k]], key)
    ensures forall k :: 0 <= k < |rows| && IsPeer(rows[k], key) ==> k in r
    ensures forall j, k :: 0 <= j < k < |r| ==> r[j] < r[k]
  {
    if rows == [] then []
    else
      var n := |rows| - 1;
      Peers(rows[..n], key) + if IsPeer(rows[n], key) then [n] else []
  }

  /** The rank values of listed rows. */
  function ValuesAt(rows: seq<Row>, list: seq<nat>, direction: Direction): (r: seq<real>)
    requires forall k :: 0 <= k < |list| ==> list[k] < |rows| && rows[list[k]].raw.Finite?
    ensures |r| == |list|
  {
    seq(|list|, k requires 0 <= k < |list| => RankValue(rows[list[k]].raw.value, direction))
  }

  lemma {:induction false} PeersHaveValues(rows: seq<Row>, key: CacheKey)
    ensures ValuesAt(rows, Peers(rows, key), key.direction) == Values(rows, key)
  {
    if rows != [] {
      var n := |rows| - 1;
      PeersHaveValues(rows[..n], key);
      var front := Peers(rows[..n], key);
      assert ValuesAt(rows, front, key.direction) == ValuesAt(rows[..n], front, key.direction);
      assert ValuesAt(rows, Peers(rows, key), key.direction)
          == ValuesAt(rows, front, key.direction)
             + if IsPeer(rows[n], key) then [RankValue(rows[n].raw.value, key.direction)] else [];
    }
  }

  method PeerIndexes(rows: seq<Row>, key: CacheKey) returns (peers: seq<nat>)
    ensures peers == Peers(rows, key)
  {
    peers := [];
    for k := 0 to |rows|
      invariant peers == Peers(rows[..k], key)
    {
      assert rows[..k + 1][..k] == rows[..k];
      if IsPeer(rows[k], key) { peers := peers + [k]; }
    }
    assert rows[..|rows|] == rows;
  }

  /** The partition a row is ranked in: the counting definition's key, its peers, and whether a sector was too small. */
  ghost predicate IsChosen(rows: seq<Row>, row: Row, minSize: int, p: Partition) {
    && KeyFor(row, p.key) == ChosenKey(rows, row, minSize)
    && p.peers == Peers(rows, KeyFor(row, p.key))
    && (p.usedFallback <==> HasSector(row) && p.key.Market?)
  }

  method SelectPartition(rows: seq<Row>, row: Row, minSize: int) returns (p: Partition)
    ensures IsChosen(rows, row, minSize, p)
    ensures |p.peers| == |Values(rows, KeyFor(row, p.key))|
    ensures p.key.MarketSector? ==> |p.peers| >= minSize
  {
    if HasSector(row) {
      var peers := PeerIndexes(rows, SectorKey(row));
      PeersHaveValues(rows, SectorKey(row));
      if |peers| >= minSize {
        return Partition(MarketSector(row.market, row.sector.value), peers, false);
      }
    }
    var all := PeerIndexes(rows, KeyFor(row, Market(row.market)));
    PeersHaveValues(rows, KeyFor(row, Market(row.market)));
    return Partition(Market(row.market), all, HasSector(row));
  }

  predicate AllUsable(rows: seq<Row>, list: seq<nat>) {
    forall k :: 0 <= k < |list| ==> list[k] < |rows| && rows[list[k]].raw.Finite?
  }

  function ValueOf(rows: seq<Row>, direction: Direction, i: nat): real
    requires i < |rows| && rows[i].raw.Finite?
  {
    RankValue(rows[i].raw.value, direction)
  }

  /** What the sort key of a row number is: the larger rank value first, then the ticker. */
  datatype SortKey = SortKey(value: real, ticker: string)

  function KeyAt(rows: seq<Row>, direction: Direction, i: nat): SortKey {
    if i < |rows| && rows[i].raw.Finite? then SortKey(ValueOf(rows, direction, i), rows[i].ticker) else SortKey(0.0, "")
  }

  predicate Precedes(k: SortKey, l: SortKey) {
    k.value > l.value || (k.value == l.value && TextAtMost(k.ticker, l.ticker))
  }

  ghost predicate Descending(values: seq<real>) {
    forall i, j :: 0 <= i < j < |values| ==> values[i] >= values[j]
  }

  function Ordered(rows: seq<Row>, direction: Direction, list: seq<nat>): (r: seq<nat>)
    ensures multiset(r) == multiset(list)
  {
    Sort((i: nat, j: nat) => Precedes(KeyAt(rows, direction, i), KeyAt(rows, direction, j)), list)
  }

  lemma OrderedDescending(rows: seq<Row>, direction: Direction, list: seq<nat>)
    requires AllUsable(rows, list)
    ensures AllUsable(rows, Ordered(rows, direction, list))
    ensures Descending(ValuesAt(rows, Ordered(rows, direction, list), direction))
  {
    var leq := (i: nat, j: nat) => Precedes(KeyAt(rows, direction, i), KeyAt(rows, direction, j));
    var r := Ordered(rows, direction, list);
    forall k | 0 <= k < |r| ensures r[k] in list { assert r[k] in multiset(r); }
    forall a, b ensures leq(a, b) || leq(b, a) {
      TextTotal(KeyAt(rows, direction, a).ticker, KeyAt(rows, direction, b).ticker);
    }
    forall a, b, c | leq(a, b) && leq(b, c) ensures leq(a, c) {
      var k, l, m := KeyAt(rows, direction, a), KeyAt(rows, direction, b), KeyAt(rows, direction, c);
      if k.value == l.value == m.value { TextTransitive(k.ticker, l.ticker, m.ticker); }
    }
    SortSorted(leq, list);
    var values := ValuesAt(rows, r, direction);
    forall i, j | 0 <= i < j < |values| ensures values[i] >= values[j] {
      assert leq(r[i], r[j]);
    }
  }

  lemma {:induction false} CountsOfUniform(values: seq<real>, v: real)
    ensures (forall k :: 0 <= k < |values| ==> values[k] > v) ==> Below(values, v) == 0 && Equal(values, v) == 0
    ensures (forall k :: 0 <= k < |values| ==> values[k] == v) ==> Below(values, v) == 0 && Equal(values, v) == |values|
    ensures (forall k :: 0 <= k < |values| ==> values[k] < v) ==> Below(values, v) == |values| && Equal(values, v) == 0
  {
    if values != [] { CountsOfUniform(values[..|values| - 1], v); }
  }

  /** In descending order the positions of a maximal tie group give its counts. */
  lemma TieGroupCounts(values: seq<real>, first: nat, last: nat)
    requires Descending(values) && first <= last < |values| && values[first] == values[last]
    requires first > 0 ==> values[first - 1] > values[first]
    requires last + 1 < |values| ==> values[last + 1] < values[first]
    ensures Below(values, values[first]) == |values| - 1 - last
    ensures Equal(values, values[first]) == last - first + 1
  {
    var v := values[first];
    forall k | 0 <= k < first ensures values[k] > v { assert k < first - 1 ==> values[k] >= values[first - 1]; }
    forall k | first <= k <= last ensures values[k] == v {
      assert first < k ==> v >= values[k];
      assert k < last ==> values[k] >= values[last];
    }
    forall k | last < k < |values| ensures values[k] < v { assert last + 1 < k ==> values[last + 1] >= values[k]; }
    CountsOfGroup(values, first, last, v);
  }

  lemma CountsOfGroup(values: seq<real>, first: nat, last: nat, v: real)
    requires first <= last < |values|
    requires forall k :: 0 <= k < first ==> values[k] > v
    requires forall k :: first <= k <= last ==> values[k] == v
    requires forall k :: last < k < |values| ==> values[k] < v
    ensures Below(values, v) == |values| - 1 - last && Equal(values, v) == last - first + 1
  {
    CountsOfThree(values[..first], values[first..last + 1], values[last + 1..], v);
    assert values == values[..first] + values[first..last + 1] + values[last + 1..];
  }

  lemma CountsOfThree(a: seq<real>, b: seq<real>, c: seq<real>, v: real)
    requires forall k :: 0 <= k < |a| ==> a[k] > v
    requires forall k :: 0 <= k < |b| ==> b[k] == v
    requires forall k :: 0 <= k < |c| ==> c[k] < v
    ensures Below(a + b + c, v) == |c| && Equal(a + b + c, v) == |b|
  {
    CountsSplit(a + b, c, v);
    CountsSplit(a, b, v);
    CountsOfUniform(a, v);
    CountsOfUniform(b, v);
    CountsOfUniform(c, v);
  }

  /** The source's expression over positions is the share of the points. */
  lemma PositionShare(n: int, first: int, last: int)
    requires n >= 2
    ensures ((n - 1) as real - (first + last) as real / 2.0) / (n - 1) as real * 100.0
            == Share((n - 1 - last) as real + (last - first) as real / 2.0, n - 1)
  {
    var rivals := (n - 1) as real;
    var points := (n - 1 - last) as real + (last - first) as real / 2.0;
    assert rivals - (first + last) as real / 2.0 == points;
    assert points / rivals * 100.0 == 100.0 * points / rivals;
  }

  /** The rounded percentile of each value. */
  function RoundedPercentiles(values: seq<real>): seq<real> {
    Image(values, v => Round6(Percentile(values, v)))
  }

  /** The ranks of the first k numbers, and no others. */
  ghost predicate RankedTo(ranks: map<nat, real>, ordered: seq<nat>, percentiles: seq<real>, k: nat)
    requires k <= |ordered| == |percentiles|
  {
    (forall x :: x in ranks <==> x in ordered[..k]) && forall j :: 0 <= j < k ==> ranks[ordered[j]] == percentiles[j]
  }

  lemma RankOneMore(ranks: map<nat, real>, ordered: seq<nat>, percentiles: seq<real>, k: nat)
    requires k < |ordered| == |percentiles| && Distinct(ordered) && RankedTo(ranks, ordered, percentiles, k)
    ensures ordered[k] !in ranks
    ensures RankedTo(ranks[ordered[k] := percentiles[k]], ordered, percentiles, k + 1)
  {
    TakeOneMore(ordered, k);
    assert forall j :: 0 <= j < k ==> ordered[..k][j] != ordered[k];
  }

  /** One tie group: the average position of its members gives each of them its percentile. */
  lemma TieGroupPercentile(values: seq<real>, first: nat, last: nat)
    requires |values| >= 2 && Descending(values) && first <= last < |values| && values[first] == values[last]
    requires first > 0 ==> values[first - 1] > values[first]
    requires last + 1 < |values| ==> values[last + 1] != values[last]
    ensures var n := |values|;
            Round6(((n - 1) as real - (first + last) as real / 2.0) / (n - 1) as real * 100.0)
            == RoundedPercentiles(values)[first]
  {
    TieGroupCounts(values, first, last);
    var n := |values|;
    PositionShare(n, first, last);
    assert Points(values, values[first]) == (n - 1 - last) as real + (last - first) as real / 2.0;
    assert RoundedPercentiles(values)[first] == Round6(Share(Points(values, values[first]), n - 1));
  }

  /** The nested loops: every member of a tie group gets the group's average position. `values` are the rank values of
      `ordered`. Each number is assigned once. */
  method RankTies(ordered: seq<nat>, values: seq<real>) returns (ranks: map<nat, real>)
    requires |ordered| == |values| >= 2 && Descending(values) && Distinct(ordered)
    ensures forall x :: x in ranks <==> x in ordered
    ensures forall k :: 0 <= k < |ordered| ==> ranks[ordered[k]] == Round6(Percentile(values, values[k]))
  {
    ghost var percentiles := RoundedPercentiles(values);
    ranks := map[];
    var position := 0;
    while position < |ordered|
      invariant 0 <= position <= |ordered|
      invariant 0 < position < |ordered| ==> values[position - 1] > values[position]
      invariant RankedTo(ranks, ordered, percentiles, position)
    {
      var tieEnd := position;
      while tieEnd + 1 < |ordered| && values[tieEnd + 1] == values[position]
        invariant position <= tieEnd < |ordered|
        invariant forall k :: position <= k <= tieEnd ==> values[k] == values[position]
      {
        tieEnd := tieEnd + 1;
      }
      var percentile := GroupPercentile(values, position, tieEnd);
      ranks := RankGroup(ranks, ordered, percentiles, position, tieEnd, percentile);
      position := tieEnd + 1;
    }
    TakeAll(ordered);
  }

  /** The percentile of one tie group, from the average position of its members. */
  method GroupPercentile(values: seq<real>, position: nat, tieEnd: nat) returns (percentile: real)
    requires |values| >= 2 && Descending(values) && position <= tieEnd < |values|
    requires forall k :: position <= k <= tieEnd ==> values[k] == values[position]
    requires position > 0 ==> values[position - 1] > values[position]
    requires tieEnd + 1 < |values| ==> values[tieEnd + 1] != values[tieEnd]
    ensures forall k :: position <= k <= tieEnd ==> RoundedPercentiles(values)[k] == percentile
  {
    var lastPosition := |values| - 1;
    var average := (position + tieEnd) as real / 2.0;
    percentile := Round6((lastPosition as real - average) / lastPosition as real * 100.0);
    TieGroupPercentile(values, position, tieEnd);
    forall k | position <= k <= tieEnd ensures RoundedPercentiles(values)[k] == percentile {
      assert values[k] == values[position];
    }
  }

  /** The inner loop over one tie group. */
  method RankGroup(
      before: map<nat, real>, ordered: seq<nat>, ghost percentiles: seq<real>, first: nat, last: nat, percentile: real)
    returns (ranks: map<nat, real>)
    requires first <= last < |ordered| == |percentiles| && Distinct(ordered)
    requires RankedTo(before, ordered, percentiles, first)
    requires forall k :: first <= k <= last ==> percentiles[k] == percentile
    ensures RankedTo(ranks, ordered, percentiles, last + 1)
  {
    ranks := before;
    for k := first to last + 1
      invariant RankedTo(ranks, ordered, percentiles, k)
    {
      RankOneMore(ranks, ordered, percentiles, k);
      ranks := ranks[ordered[k] := percentile];
    }
  }

  /** Every peer is ranked, and by the rounded counting percentile. */
  method PercentileRanks(rows: seq<Row>, peers: seq<nat>, direction: Direction) returns (ranks: map<nat, real>)
    requires AllUsable(rows, peers) && Distinct(peers)
    ensures forall i :: i in ranks <==> i in peers
    ensures forall i :: i in peers ==>
              ranks[i] == Round6(Percentile(ValuesAt(rows, peers, direction), ValueOf(rows, direction, i)))
  {
    if peers == [] { return map[]; }
    if |peers| == 1 {
      assert Round6(100.0) == 100.0;
      return map[peers[0] := 100.0];
    }
    var ordered := Ordered(rows, direction, peers);
    OrderedDescending(rows, direction, peers);
    assert |ordered| == |multiset(ordered)| == |peers|;
    SameBag(peers, ordered);
    ranks := RankTies(ordered, ValuesAt(rows, ordered, direction));
    forall i | i in peers
      ensures ranks[i] == Round6(Percentile(ValuesAt(rows, peers, direction), ValueOf(rows, direction, i)))
    {
      RankOfPeer(rows, direction, ordered, peers, ranks, i);
    }
  }

  lemma RankOfPeer(
      rows: seq<Row>, direction: Direction, ordered: seq<nat>, peers: seq<nat>, ranks: map<nat, real>, i: nat)
    requires AllUsable(rows, ordered) && AllUsable(rows, peers) && multiset(ordered) == multiset(peers)
    requires |ordered| == |peers| && i in ordered
    requires (forall x :: x in ranks <==> x in ordered)
             && forall k :: 0 <= k < |ordered| ==>
                  ranks[ordered[k]] == Round6(Percentile(ValuesAt(rows, ordered, direction),
                                                         ValuesAt(rows, ordered, direction)[k]))
    ensures i < |rows| && rows[i].raw.Finite?
    ensures ranks[i] == Round6(Percentile(ValuesAt(rows, peers, direction), ValueOf(rows, direction, i)))
  {
    var k :| 0 <= k < |ordered| && ordered[k] == i;
    SortedPercentile(rows, direction, ordered, peers, ValueOf(rows, direction, i));
  }

  lemma SortedPercentile(rows: seq<Row>, direction: Direction, a: seq<nat>, b: seq<nat>, v: real)
    requires AllUsable(rows, a) && AllUsable(rows, b) && multiset(a) == multiset(b) && |a| == |b|
    ensures Percentile(ValuesAt(rows, a, direction), v) == Percentile(ValuesAt(rows, b, direction), v)
  {
    var f := (i: nat) => if i < |rows| && rows[i].raw.Finite? then RankValue(rows[i].raw.value, direction) else 0.0;
    assert ValuesAt(rows, a, direction) == Image(a, f) && ValuesAt(rows, b, direction) == Image(b, f);
    ImageIgnoresOrder(a, b, f);
    CountsIgnoreOrder(Image(a, f), Image(b, f), v);
  }

  lemma SameBag(a: seq<nat>, b: seq<nat>)
    requires multiset(a) == multiset(b) && Distinct(a)
    ensures Distinct(b) && forall i :: i in a <==> i in b
  {
    forall i ensures i in a <==> i in b {
      assert i in multiset(a) <==> i in multiset(b);
    }
    DistinctCounts(a);
    DistinctCounts(b);
  }

  /** calculate_factor_ranks. The cache is transparent: every result is what counting over all rows gives for its
      row. */
  method CalculateFactorRanks(rows: seq<Row>, minSize: int) returns (r: Result<seq<RankResult>, RankError>)
    ensures minSize < 1 <==> r == Err(MinPartitionSize)
    ensures minSize >= 1 ==>
              (r.Ok? <==> forall i :: 0 <= i < |rows| ==> !rows[i].direction.Unsupported?)
    ensures r.Ok? ==> |r.value| == |rows| && forall i :: 0 <= i < |rows| ==> r.value[i] == Rank(rows, rows[i], minSize)
  {
    if minSize < 1 { return Err(MinPartitionSize); }
    var cache: map<CacheKey, map<nat, real>> := map[];
    var results := [];
    for i := 0 to |rows|
      invariant forall k :: 0 <= k < i ==> !rows[k].direction.Unsupported?
      invariant AreRanks(rows, minSize, i, results)
      invariant CacheIsTransparent(rows, cache)
    {
      var row := rows[i];
      if row.direction.Unsupported? { return Err(UnsupportedDirection(row.direction.name)); }
      var partition := SelectPartition(rows, row, minSize);
      var key := KeyFor(row, partition.key);
      if key !in cache {
        var ranks := RankPeers(rows, key, partition.peers);
        cache := cache[key := ranks];
      }
      var result := ResultOf(row, i, partition, cache[key]);
      RowResult(rows, i, minSize, partition, cache[key]);
      OneMoreRank(rows, minSize, i, results, result);
      results := results + [result];
    }
    return Ok(results);
  }

  /** The results so far. */
  ghost predicate AreRanks(rows: seq<Row>, minSize: int, i: nat, results: seq<RankResult>)
    requires i <= |rows|
  {
    |results| == i && forall k :: 0 <= k < i ==> results[k] == Rank(rows, rows[k], minSize)
  }

  lemma OneMoreRank(rows: seq<Row>, minSize: int, i: nat, results: seq<RankResult>, result: RankResult)
    requires i < |rows| && AreRanks(rows, minSize, i, results) && result == Rank(rows, rows[i], minSize)
    ensures AreRanks(rows, minSize, i + 1, results + [result])
  {}

  ghost predicate CacheIsTransparent(rows: seq<Row>, cache: map<CacheKey, map<nat, real>>) {
    forall key :: key in cache ==> IsRanking(rows, key, cache[key])
  }

  /** One row's result, given its partition and the ranks found under its cache key. */
  function ResultOf(row: Row, i: nat, partition: Partition, ranks: map<nat, real>): RankResult {
    RankResult(
      row,
      Usable(row.raw),
      if i in ranks then Some(ranks[i]) else None,
      partition.key,
      |partition.peers|,
      partition.usedFallback,
      if row.raw.Finite? then [] else [row.factor + ".raw_value"])
  }

  lemma RowResult(rows: seq<Row>, i: nat, minSize: int, partition: Partition, ranks: map<nat, real>)
    requires i < |rows| && IsChosen(rows, rows[i], minSize, partition)
    requires IsRanking(rows, KeyFor(rows[i], partition.key), ranks)
    ensures ResultOf(rows[i], i, partition, ranks) == Rank(rows, rows[i], minSize)
  {
    var key := KeyFor(rows[i], partition.key);
    PeersHaveValues(rows, key);
    RowIsItsOwnPeer(rows, i, key, ranks);
  }

  method RankPeers(rows: seq<Row>, key: CacheKey, peers: seq<nat>) returns (ranks: map<nat, real>)
    requires peers == Peers(rows, key)
    ensures IsRanking(rows, key, ranks)
  {
    ranks := PercentileRanks(rows, peers, key.direction);
    PeersHaveValues(rows, key);
  }

  lemma RowIsItsOwnPeer(rows: seq<Row>, i: nat, key: CacheKey, ranks: map<nat, real>)
    requires i < |rows| && key == KeyFor(rows[i], key.partition) && InPartition(rows[i], key.partition)
    requires IsRanking(rows, key, ranks)
    ensures i in ranks <==> rows[i].raw.Finite?
    ensures i in ranks ==>
              ranks[i] == Round6(Percentile(Values(rows, key), RankValue(rows[i].raw.value, rows[i].direction)))
  {
    assert i in Peers(rows, key) <==> IsPeer(rows[i], key);
  }

  /** The map the cache holds under a key is the ranking of that key's peers. */
  ghost predicate IsRanking(rows: seq<Row>, key: CacheKey, ranks: map<nat, real>) {
    && (forall i :: i in ranks <==> i in Peers(rows, key))
    && (forall i :: i in ranks ==>
          i < |rows| && rows[i].raw.Finite?
          && ranks[i] == Round6(Percentile(Values(rows, key), ValueOf(rows, key.direction, i))))
  }
}
